/**
 The order in which the addresses of a name are tried: the two families take turns, as section 4 of
 RFC 8305 asks, until one is used up.
 */
module AddrInterleave {
  import opened Common
  datatype Addr = V4(id: nat) | V6(id: nat)

  /** The addresses of one family, in their order. */
  function Family(addrs: seq<Addr>, v6: bool): seq<Addr> {
    if addrs == [] then []
    else (if addrs[0].V6? == v6 then [addrs[0]] else []) + Family(addrs[1..], v6)
  }

  /** Taking turns, `a` first; when one side has nothing left the other goes on. */
  function TakeTurns(a: seq<Addr>, b: seq<Addr>): seq<Addr>
    decreases |a| + |b|
  {
    if a == [] then b else [a[0]] + TakeTurns(b, a[1..])
  }

  // ----- what the order is -----

  /** Strict alternation for twice the size of the smaller family, then what is left of the larger. */
  predicate Alternates(r: seq<Addr>, a: seq<Addr>, b: seq<Addr>) {
    var m := Min(|a|, |b|);
    && |r| == |a| + |b|
    && (forall k :: 0 <= k < m ==> r[2 * k] == a[k] && r[2 * k + 1] == b[k])
    && r[2 * m..] == a[m..] + b[m..]
  }

  lemma OneMoreEach(r: seq<Addr>, a: seq<Addr>, b: seq<Addr>)
    requires a != [] && b != [] && Alternates(r, a[1..], b[1..])
    ensures Alternates([a[0], b[0]] + r, a, b)
  {
    var r', m := [a[0], b[0]] + r, Min(|a|, |b|);
    forall k | 0 <= k < m
      ensures r'[2 * k] == a[k] && r'[2 * k + 1] == b[k]
    {
      if k > 0 {
        assert r'[2 * k] == r[2 * (k - 1)] && r'[2 * k + 1] == r[2 * (k - 1) + 1];
      }
    }
    assert r'[2 * m..] == r[2 * (m - 1)..];
    assert a[1..][m - 1..] == a[m..] && b[1..][m - 1..] == b[m..];
  }

  lemma OneFamilyAlone(s: seq<Addr>)
    ensures Alternates(s, s, []) && Alternates(s, [], s)
  {
    assert s[0..] + [] == s == [] + s[0..];
  }

  lemma OneTurnEach(a: seq<Addr>, b: seq<Addr>)
    requires a != [] && b != []
    ensures TakeTurns(a, b) == [a[0], b[0]] + TakeTurns(a[1..], b[1..])
  {
    assert TakeTurns(b, a[1..]) == [b[0]] + TakeTurns(a[1..], b[1..]);
  }

  lemma {:induction false} AlternatesThenRest(a: seq<Addr>, b: seq<Addr>)
    ensures Alternates(TakeTurns(a, b), a, b)
    decreases |a|
  {
    hide Alternates;
    if a == [] {
      OneFamilyAlone(b);
    } else if b == [] {
      TurnsAlone(a);
      OneFamilyAlone(a);
    } else {
      hide TakeTurns;
      AlternatesThenRest(a[1..], b[1..]);
      OneMoreEach(TakeTurns(a[1..], b[1..]), a, b);
      OneTurnEach(a, b);
    }
  }

  lemma FamilyCons(x: Addr, s: seq<Addr>, v6: bool)
    ensures Family([x] + s, v6) == (if x.V6? == v6 then [x] else []) + Family(s, v6)
  {
    assert ([x] + s)[1..] == s;
  }

  /** A family alone has all the turns. */
  lemma TurnsAlone(a: seq<Addr>)
    ensures TakeTurns(a, []) == a
  {
  }

  predicate AllOf(s: seq<Addr>, v6: bool) { forall i :: 0 <= i < |s| ==> s[i].V6? == v6 }

  lemma {:induction false} FamilyOfAll(s: seq<Addr>, v6: bool)
    requires AllOf(s, v6)
    ensures Family(s, v6) == s && Family(s, !v6) == []
  {
    if s != [] {
      FamilyOfAll(s[1..], v6);
    }
  }

  lemma {:induction false} FamilyIsAll(s: seq<Addr>, v6: bool)
    ensures AllOf(Family(s, v6), v6)
  {
    if s != [] {
      FamilyIsAll(s[1..], v6);
    }
  }

  /** Within each family the order is kept. */
  lemma {:induction false} FamiliesAreKept(a: seq<Addr>, b: seq<Addr>, v6: bool)
    requires AllOf(a, v6) && AllOf(b, !v6)
    ensures Family(TakeTurns(a, b), v6) == a && Family(TakeTurns(a, b), !v6) == b
    decreases |a| + |b|
  {
    hide Family;
    if a == [] {
      FamilyOfAll(b, !v6);
    } else {
      var rest := TakeTurns(b, a[1..]);
      FamiliesAreKept(b, a[1..], !v6);
      FamilyCons(a[0], rest, v6);
      FamilyCons(a[0], rest, !v6);
    }
  }

  /** Nothing is added or left out. */
  lemma {:induction false} TurnsArePermutation(a: seq<Addr>, b: seq<Addr>)
    ensures multiset(TakeTurns(a, b)) == multiset(a) + multiset(b)
    decreases |a| + |b|
  {
    if a != [] {
      TurnsArePermutation(b, a[1..]);
      assert a == [a[0]] + a[1..];
    }
  }

  lemma {:induction false} FamiliesPartition(s: seq<Addr>, v6: bool)
    ensures multiset(Family(s, v6)) + multiset(Family(s, !v6)) == multiset(s)
  {
    if s != [] {
      FamiliesPartition(s[1..], v6);
      assert s == [s[0]] + s[1..];
    }
  }

  /** The whole order, from a list of addresses. */
  function Sorted(addrs: seq<Addr>, preferV6: bool): seq<Addr> {
    TakeTurns(Family(addrs, preferV6), Family(addrs, !preferV6))
  }

  /**
   For every list: the order is a permutation of it that keeps the order within each family and
   starts with the preferred family if that has any address.
   */
  lemma SortedIsFair(addrs: seq<Addr>, preferV6: bool)
    ensures var r := Sorted(addrs, preferV6);
            && multiset(r) == multiset(addrs)
            && Family(r, true) == Family(addrs, true) && Family(r, false) == Family(addrs, false)
            && (Family(addrs, preferV6) != [] ==> r != [] && r[0].V6? == preferV6)
  {
    var a, b := Family(addrs, preferV6), Family(addrs, !preferV6);
    FamilyIsAll(addrs, preferV6);
    FamilyIsAll(addrs, !preferV6);
    FamiliesAreKept(a, b, preferV6);
    TurnsArePermutation(a, b);
    FamiliesPartition(addrs, preferV6);
  }

  /**
   The first address is a version 6 one exactly if there is one and it is preferred or there is no
   other; without the preference, having one is not enough.
   */
  lemma FirstIsV6(addrs: seq<Addr>, preferV6: bool)
    ensures var r := Sorted(addrs, preferV6);
            r != [] && r[0].V6? <==> Family(addrs, true) != [] && (preferV6 || Family(addrs, false) == [])
  {
  }

  lemma FirstIsV4WithoutPreference()
    ensures Sorted([V6(0), V4(1)], false) == [V4(1), V6(0)]
  {
    var addrs := [V6(0), V4(1)];
    assert addrs[1..] == [V4(1)] && addrs[1..][1..] == [];
    assert Family(addrs, false) == [V4(1)] && Family(addrs, true) == [V6(0)];
    TurnsAlone([V6(0)]);
  }

  // ----- the iterator -----

  lemma SkipOther(addrs: seq<Addr>, i: nat, v6: bool)
    requires i < |addrs|
    ensures Family(addrs[i..], v6) == (if addrs[i].V6? == v6 then [addrs[i]] else []) + Family(addrs[i + 1..], v6)
  {
    assert addrs[i..][1..] == addrs[i + 1..];
  }

  lemma NoneOfNone(v6: bool)
    ensures Family([], v6) == []
  {
  }

  class AddrIterator {
    const addrs: seq<Addr>
    var pickV6: bool
    var v6At: nat
    var v4At: nat

    predicate Valid()
      reads this
    {
      v6At <= |addrs| && v4At <= |addrs|
    }

    /** What is left of each family. */
    function Left(v6: bool): seq<Addr>
      requires Valid()
      reads this
    {
      Family(addrs[if v6 then v6At else v4At..], v6)
    }

    /** What is still to come: the family that was not picked last goes first. */
    function ToCome(): seq<Addr>
      requires Valid()
      reads this
    {
      TakeTurns(Left(!pickV6), Left(pickV6))
    }

    constructor (socketAddrs: seq<Addr>, preferV6: bool)
      ensures Valid() && addrs == socketAddrs && ToCome() == Sorted(socketAddrs, preferV6)
    {
      addrs, pickV6, v6At, v4At := socketAddrs, !preferV6, 0, 0;
      new;
      assert addrs[0..] == socketAddrs;
    }

    /** `next` of a filter iterator: skips addresses of the other family. */
    method NextOf(v6: bool) returns (next: Option<Addr>)
      requires Valid()
      modifies `v6At, `v4At
      ensures Valid() && Left(!v6) == old(Left(!v6))
      ensures if old(Left(v6)) == [] then next == None && Left(v6) == []
              else next == Some(old(Left(v6))[0]) && Left(v6) == old(Left(v6))[1..]
    {
      hide Family;
      var i := if v6 then v6At else v4At;
      ghost var all := Left(v6);
      while i < |addrs| && addrs[i].V6? != v6
        invariant i <= |addrs| && Family(addrs[i..], v6) == all
        invariant v6At == old(v6At) && v4At == old(v4At)
      {
        SkipOther(addrs, i, v6);
        i := i + 1;
      }
      next := None;
      if i == |addrs| {
        NoneOfNone(v6);
        assert addrs[i..] == [];
      } else {
        SkipOther(addrs, i, v6);
        next := Some(addrs[i]);
        i := i + 1;
      }
      if v6 {
        v6At := i;
      } else {
        v4At := i;
      }
    }

    /** The closure of `sort_socket_addrs`; it ends exactly when both families are used up. */
    method Next() returns (next: Option<Addr>)
      requires Valid()
      modifies this
      ensures Valid()
      ensures next.None? <==> old(Left(true)) == [] && old(Left(false)) == []
      ensures next.Some? ==> old(ToCome()) == [next.value] + ToCome()
      ensures next.None? ==> old(ToCome()) == [] && ToCome() == []
      ensures |Left(true)| + |Left(false)| == |old(Left(true))| + |old(Left(false))| - (if next.Some? then 1 else 0)
    {
      hide Family;
      ghost var first, second := Left(!pickV6), Left(pickV6);
      pickV6 := !pickV6;
      next := NextOf(pickV6);
      if next.None? {
        next := NextOf(!pickV6);
        TurnsAlone(Left(!pickV6));
        if second != [] {
          assert second == [second[0]] + second[1..];
        }
      }
    }
  }

  /** Collecting the iterator. */
  method SortSocketAddrs(socketAddrs: seq<Addr>, preferV6: bool) returns (out: seq<Addr>)
    ensures out == Sorted(socketAddrs, preferV6)
  {
    hide Family;
    hide TakeTurns;
    var it := new AddrIterator(socketAddrs, preferV6);
    out := [];
    var next := it.Next();
    while next.Some?
      invariant it.Valid() && fresh(it)
      invariant out + (if next.Some? then [next.value] else []) + it.ToCome() == Sorted(socketAddrs, preferV6)
      invariant next.None? ==> it.ToCome() == []
      decreases next.Some?, |it.Left(true)| + |it.Left(false)|
    {
      out := out + [next.value];
      next := it.Next();
    }
  }
}
