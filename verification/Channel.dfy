/** The send queue seen from outside: what one write attempt may do to the queue and the wire. */
module Channel {

  /** `Delivered`: the head reaches the switch and is removed. `Redelivered`: it reaches the
      switch as a whole message, but the write reports an error and the head stays.
      `Lost`: the write fails and nothing reaches the switch. */
  datatype Transfer = Delivered | Redelivered | Lost

  function Rest<T>(queue: seq<T>, t: Transfer): seq<T>
    requires queue != []
  {
    if t.Delivered? then queue[1..] else queue
  }

  function Reached<T>(queue: seq<T>, t: Transfer): seq<T>
    requires queue != []
  {
    if t.Lost? then [] else [queue[0]]
  }
}
