/** Reconciliation of the bridge's addresses by the CNI plugin. */
module BridgeAddr {
  import opened Addresses

  datatype Family = FamilyV4 | FamilyV6 {
    function Bits(): nat {
      if this == FamilyV4 then 32 else 128
    }
  }

  /** An interface address with its prefix length, such as 10.1.2.1/24. */
  datatype Addr = Addr(ip: nat, len: nat)

  function HostBits(f: Family, a: Addr): nat {
    if a.len <= f.Bits() then f.Bits() - a.len else 0
  }

  /** The test of the loop: any other IPv4 address, or an IPv6 address whose net contains the
      wanted address or is contained the other way round. */
  predicate Conflicts(f: Family, a: Addr, ipn: Addr) {
    f == FamilyV4 || InNet(a.ip, HostBits(f, a), ipn.ip) || InNet(ipn.ip, HostBits(f, ipn), a.ip)
  }

  /** The subnet of an interface address as a range of numbers: `2^(32 - len)` IPv4 addresses or
      `2^(128 - len)` IPv6 addresses. */
  predicate InSubnet(f: Family, a: Addr, x: nat) {
    match f
    case FamilyV4 => InBlock(a.ip, if a.len < 32 then 32 - a.len else 0, x)
    case FamilyV6 => InBlock(a.ip, if a.len < 128 then 128 - a.len else 0, x)
  }

  ghost predicate SubnetsIntersect(f: Family, a: Addr, b: Addr) {
    exists x: nat :: InSubnet(f, a, x) && InSubnet(f, b, x)
  }

  /** At most one IPv4 address; IPv6 subnets pairwise disjoint. */
  ghost predicate ConflictFree(f: Family, addrs: set<Addr>) {
    forall a, b :: a in addrs && b in addrs && a != b ==> f == FamilyV6 && !SubnetsIntersect(f, a, b)
  }

  /** The addresses of `addrs` that stand in the way of `ipn`. */
  function InTheWay(f: Family, addrs: set<Addr>, ipn: Addr): set<Addr> {
    set a | a in addrs && Conflicts(f, a, ipn)
  }

  /** What a successful forced call leaves behind when the address was not there before. */
  function Replaced(f: Family, addrs: set<Addr>, ipn: Addr): set<Addr> {
    addrs - InTheWay(f, addrs, ipn) + {ipn}
  }

  datatype Outcome = Present | Added | ListFailed | Refused | DeleteFailed | AddFailed | MacFailed

  class Link {
    var addrs: set<Addr>

    constructor (addrs: set<Addr>)
      ensures this.addrs == addrs
    {
      this.addrs := addrs;
    }

    /** `ensureBridgeAddr` for one family. `listed` is the answer of AddrList, in the kernel's
        order, or None for an error; `deletable`, `addable` and `macSettable` say which of the
        other netlink calls succeed. */
    method EnsureBridgeAddr(f: Family, listed: Option<seq<Addr>>, ipn: Addr, force: bool,
                            deletable: set<Addr>, addable: bool, macSettable: bool)
      returns (r: Outcome)
      requires listed.Some? ==> forall a :: a in listed.value <==> a in addrs
      modifies this
      ensures listed.Some? && force && old(addrs) <= deletable && addable && macSettable ==> r.Present? || r.Added?
      ensures r.ListFailed? <==> listed.None?
      ensures r.ListFailed? ==> addrs == old(addrs)
      ensures r.Added? || r.MacFailed? ==>
                && ipn !in old(addrs) && addrs == Replaced(f, old(addrs), ipn) && addable
                && (r.Added? <==> macSettable)
      ensures r.Added? || r.MacFailed? || r.AddFailed? ==> force || InTheWay(f, old(addrs), ipn) == {}
      ensures r.AddFailed? ==>
                !addable && ipn !in old(addrs) && addrs == old(addrs) - InTheWay(f, old(addrs), ipn)
      ensures r.Present? ==> ipn in old(addrs)
                             && old(addrs) - InTheWay(f, old(addrs), ipn) + {ipn} <= addrs <= old(addrs)
      ensures r.Refused? ==> !force && addrs == old(addrs) && InTheWay(f, old(addrs), ipn) != {}
      ensures r.DeleteFailed? ==>
                && force && !(InTheWay(f, old(addrs), ipn) <= deletable)
                && old(addrs) - InTheWay(f, old(addrs), ipn) <= addrs <= old(addrs)
    {
      if listed.None? {
        return ListFailed;
      }
      var all := listed.value;
      for i := 0 to |all|
        invariant ipn !in all[..i]
        invariant addrs == old(addrs) - set a | a in all[..i] && Conflicts(f, a, ipn)
        invariant !force ==> addrs == old(addrs)
      {
        var a := all[i];
        assert all[..i + 1] == all[..i] + [a];
        if a == ipn {
          return Present;
        }
        if Conflicts(f, a, ipn) {
          assert a in InTheWay(f, old(addrs), ipn);
          if force {
            if a !in deletable {
              return DeleteFailed;
            }
            addrs := addrs - {a};
          } else {
            return Refused;
          }
        }
      }
      assert all[..|all|] == all;
      if !addable {
        return AddFailed;
      }
      addrs := addrs + {ipn};
      return if macSettable then Added else MacFailed;
    }
  }

  /** What a successful forced call does to a conflict-free set. */
  function Ensured(f: Family, addrs: set<Addr>, ipn: Addr): set<Addr> {
    if ipn in addrs then addrs else Replaced(f, addrs, ipn)
  }

  lemma ConflictIsIntersection(f: Family, a: Addr, b: Addr)
    requires f == FamilyV6
    ensures Conflicts(f, a, b) <==> SubnetsIntersect(f, a, b)
  {
    TwoWayContainsIsIntersection(a.ip, HostBits(f, a), b.ip, HostBits(f, b));
    assert forall x: nat :: InSubnet(f, a, x) <==> InBlock(a.ip, HostBits(f, a), x);
    assert forall x: nat :: InSubnet(f, b, x) <==> InBlock(b.ip, HostBits(f, b), x);
  }

  /** From a conflict-free set, a successful forced call is `Ensured`, whatever the listing order. */
  lemma SuccessIsEnsured(f: Family, before: set<Addr>, after: set<Addr>, ipn: Addr)
    requires ConflictFree(f, before) && ipn in before
    requires before - InTheWay(f, before, ipn) + {ipn} <= after <= before
    ensures after == Ensured(f, before, ipn)
  {
    forall a | a in before && a != ipn
      ensures !Conflicts(f, a, ipn)
    {
      ConflictIsIntersection(f, a, ipn);
    }
  }

  /** One call: the set stays conflict-free, the wanted address is there, exactly the addresses
      whose subnets do not meet it are kept, and nothing else appears. */
  lemma EnsuredKeepsInvariant(f: Family, addrs: set<Addr>, ipn: Addr)
    requires ConflictFree(f, addrs)
    ensures ConflictFree(f, Ensured(f, addrs, ipn)) && ipn in Ensured(f, addrs, ipn)
    ensures forall a :: a != ipn ==>
              (a in Ensured(f, addrs, ipn) <==> a in addrs && f == FamilyV6 && !SubnetsIntersect(f, a, ipn))
  {
    forall a | f == FamilyV6
      ensures Conflicts(f, a, ipn) <==> SubnetsIntersect(f, a, ipn)
      ensures SubnetsIntersect(f, a, ipn) <==> SubnetsIntersect(f, ipn, a)
    {
      ConflictIsIntersection(f, a, ipn);
      ConflictIsIntersection(f, ipn, a);
    }
  }

  function EnsuredAll(f: Family, addrs: set<Addr>, wanted: seq<Addr>): set<Addr> {
    if wanted == [] then addrs
    else Ensured(f, EnsuredAll(f, addrs, wanted[..|wanted| - 1]), wanted[|wanted| - 1])
  }

  /** Over any sequence of successful forced calls from a conflict-free set: the set stays
      conflict-free, the last wanted address is present, IPv4 never has two addresses, and
      nothing appears that was not there or wanted. */
  lemma {:induction false} BridgeInvariant(f: Family, addrs: set<Addr>, wanted: seq<Addr>)
    requires ConflictFree(f, addrs)
    ensures ConflictFree(f, EnsuredAll(f, addrs, wanted))
    ensures wanted != [] ==> wanted[|wanted| - 1] in EnsuredAll(f, addrs, wanted)
    ensures f == FamilyV4 ==> |EnsuredAll(f, addrs, wanted)| <= 1
    ensures forall a :: a in EnsuredAll(f, addrs, wanted) ==> a in addrs || a in wanted
  {
    if wanted != [] {
      var before, last := EnsuredAll(f, addrs, wanted[..|wanted| - 1]), wanted[|wanted| - 1];
      BridgeInvariant(f, addrs, wanted[..|wanted| - 1]);
      EnsuredKeepsInvariant(f, before, last);
    }
    if f == FamilyV4 {
      AtMostOne(EnsuredAll(f, addrs, wanted));
    }
  }

  lemma AtMostOne(addrs: set<Addr>)
    requires forall a, b :: a in addrs && b in addrs ==> a == b
    ensures |addrs| <= 1
  {
    if addrs != {} {
      var a :| a in addrs;
      assert addrs == {a};
    }
  }

  /** Whether a call for `ipn` leaves `a` alone. */
  ghost predicate Spares(f: Family, ipn: Addr, a: Addr) {
    ipn == a || (f == FamilyV6 && !SubnetsIntersect(f, a, ipn))
  }

  /** An address survives any sequence of calls exactly when every one of them spares it. */
  lemma {:induction false} SurvivesExactlyWhenSpared(f: Family, addrs: set<Addr>, wanted: seq<Addr>, a: Addr)
    requires ConflictFree(f, addrs) && a in addrs && a !in wanted
    ensures a in EnsuredAll(f, addrs, wanted) <==> forall w :: w in wanted ==> Spares(f, w, a)
  {
    if wanted != [] {
      var before, last := wanted[..|wanted| - 1], wanted[|wanted| - 1];
      assert wanted == before + [last];
      SurvivesExactlyWhenSpared(f, addrs, before, a);
      BridgeInvariant(f, addrs, before);
      EnsuredKeepsInvariant(f, EnsuredAll(f, addrs, before), last);
      assert a != last && last in wanted;
      assert (forall w :: w in wanted ==> Spares(f, w, a))
        <==> (forall w :: w in before ==> Spares(f, w, a)) && Spares(f, last, a);
    }
  }
}
