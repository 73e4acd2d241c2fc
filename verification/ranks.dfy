/** Where entries land in the sort by tick, and how deep the stack of open frames is there, read off the unsorted list. */
module Ranks {
  import opened Events
  import opened Stacks
  import opened Replay
  import opened StableSort

  function ChangeOf(e: Entry): int {
    if Opens(e.codeKind) then 1 else -1
  }

  /** Opens less closes. */
  function Total(s: seq<Entry>): int {
    if s == [] then 0 else Total(s[..|s| - 1]) + ChangeOf(s[|s| - 1])
  }

  /** The same over the entries before tick `t`, and those at `t` up to index `n`. */
  function NetUpTo(s: seq<Entry>, t: nat, n: nat): int {
    if s == [] then 0
    else
      var last := |s| - 1;
      NetUpTo(s[..last], t, n)
      + if s[last].ticks < t || (s[last].ticks == t && last <= n) then ChangeOf(s[last]) else 0
  }

  /** The opens less the closes that come no later than entry `i`: earlier ticks, and its own tick up to it. */
  function DepthAt(s: seq<Entry>, i: nat): int
    requires i < |s|
  {
    NetUpTo(s, s[i].ticks, i)
  }

  lemma {:induction false} TotalConcat(a: seq<Entry>, b: seq<Entry>)
    ensures Total(a + b) == Total(a) + Total(b)
    decreases |b|
  {
    if b == [] {
      assert a + b == a;
    } else {
      assert (a + b)[..|a + b| - 1] == a + b[..|b| - 1];
      TotalConcat(a, b[..|b| - 1]);
    }
  }

  predicate NoDip(s: seq<Entry>) {
    forall p :: 0 < p <= |s| ==> Total(s[..p]) >= 0
  }

  lemma {:induction false} NeverNegativeIff(s: seq<Entry>)
    ensures Depth(0, Untagged(s)) == Total(s)
    ensures NeverNegative(0, Untagged(s)) <==> NoDip(s)
    decreases |s|
  {
    if s != [] {
      var front, last := s[..|s| - 1], s[|s| - 1];
      assert s == front + [last] && s[..|s|] == s;
      NeverNegativeIff(front);
      DepthSnoc(front, last);
      assert front[..|front|] == front;
      hide NeverNegative, Depth, Untagged, Total;
      assert forall p :: 0 < p <= |front| ==> s[..p] == front[..p];
    }
  }

  /** `z[..k]` is what is no later than `t`, `z[k..]` what is later. */
  predicate SplitsAt(z: seq<Entry>, t: nat, k: nat) {
    && k <= |z|
    && (forall i :: 0 <= i < k ==> z[i].ticks <= t)
    && (forall i :: k <= i < |z| ==> t < z[i].ticks)
  }

  /** `z` is `was` with `x` behind everything at its tick or earlier. */
  predicate Lands(was: seq<Entry>, x: Entry, a: nat, z: seq<Entry>) {
    SplitsAt(was, x.ticks, a) && z == was[..a] + [x] + was[a..]
  }

  /** A new last entry lands so in the sorted list. */
  lemma Landing(s: seq<Entry>, x: Entry) returns (a: nat)
    ensures Lands(Sorted(s), x, a, Sorted(s + [x]))
  {
    var z := Sorted(s);
    SortedFacts(s);
    AscendingPairs(z);
    a := LastUpTo(z, x.ticks);
    InsertAt(z, x, a);
    SortedSnoc(s, x);
  }

  lemma InsertAt(z: seq<Entry>, x: Entry, a: nat)
    requires SplitsAt(z, x.ticks, a)
    ensures Insert(z, x) == z[..a] + [x] + z[a..]
  {
    assert z == z[..a] + z[a..];
    InsertBetween(z[..a], z[a..], x);
  }

  lemma LastUpTo(z: seq<Entry>, t: nat) returns (k: nat)
    requires forall i, j :: 0 <= i < j < |z| ==> z[i].ticks <= z[j].ticks
    ensures SplitsAt(z, t, k)
  {
    k := |z|;
    while k > 0 && z[k - 1].ticks > t
      invariant k <= |z| && forall i :: k <= i < |z| ==> t < z[i].ticks
    {
      k := k - 1;
    }
  }

  /** Where the others stand then, and what every prefix adds up to. */
  lemma Landed(was: seq<Entry>, x: Entry, a: nat, z: seq<Entry>, p: nat)
    requires Lands(was, x, a, z) && p < |z|
    ensures |z| == |was| + 1 && z[p] == if p < a then was[p] else if p == a then x else was[p - 1]
    ensures Total(z[..p + 1]) == if p < a then Total(was[..p + 1]) else Total(was[..p]) + ChangeOf(x)
  {
    if p < a {
      assert z[..p + 1] == was[..p + 1];
    } else {
      var more := was[a..p];
      assert z[..p + 1] == was[..a] + [x] + more && was[..p] == was[..a] + more;
      TotalConcat(was[..a] + [x], more);
      TotalConcat(was[..a], [x]);
      TotalConcat(was[..a], more);
      assert [x][..0] == [];
    }
  }

  lemma NetSnoc(s: seq<Entry>, x: Entry, t: nat, n: nat)
    ensures NetUpTo(s + [x], t, n)
         == NetUpTo(s, t, n) + if x.ticks < t || (x.ticks == t && |s| <= n) then ChangeOf(x) else 0
  {
    assert (s + [x])[..|s|] == s;
  }

  lemma SplitMoves(was: seq<Entry>, x: Entry, a: nat, z: seq<Entry>, t: nat, k: nat)
    requires Lands(was, x, a, z) && SplitsAt(z, t, k)
    ensures a < k <==> x.ticks <= t
    ensures SplitsAt(was, t, if a < k then k - 1 else k)
  {
    assert z[a] == x;
    assert forall i :: 0 <= i < a ==> was[i] == z[i];
    assert forall i :: a <= i < |was| ==> was[i] == z[i + 1];
  }

  /** All entries up to a tick, counted before the sort and after it. */
  lemma {:induction false} TotalBelow(s: seq<Entry>, t: nat, n: nat, k: nat)
    requires |s| <= n && SplitsAt(Sorted(s), t, k)
    ensures Total(Sorted(s)[..k]) == NetUpTo(s, t, n)
    decreases |s|
  {
    if s == [] {
      assert Sorted(s)[..k] == [];
    } else {
      var front, x := s[..|s| - 1], s[|s| - 1];
      assert s == front + [x];
      var z, was := Sorted(s), Sorted(front);
      var a := Landing(front, x);
      NetSnoc(front, x, t, n);
      hide Sorted, NetUpTo, Total, ChangeOf;
      SplitMoves(was, x, a, z, t, k);
      TotalBelow(front, t, n, if a < k then k - 1 else k);
      PrefixLanded(was, x, a, z, k);
    }
  }

  lemma PrefixLanded(was: seq<Entry>, x: Entry, a: nat, z: seq<Entry>, k: nat)
    requires Lands(was, x, a, z) && k <= |z|
    ensures Total(z[..k]) == if a < k then Total(was[..k - 1]) + ChangeOf(x) else Total(was[..k])
  {
    if a < k {
      Landed(was, x, a, z, k - 1);
    } else {
      assert z[..k] == was[..k];
    }
  }

  lemma DepthMore(s: seq<Entry>, x: Entry, i: nat)
    requires i <= |s|
    ensures i < |s| ==> DepthAt(s + [x], i) == DepthAt(s, i) + if x.ticks < s[i].ticks then ChangeOf(x) else 0
    ensures i == |s| ==> DepthAt(s + [x], i) == NetUpTo(s, x.ticks, i) + ChangeOf(x)
  {
    NetSnoc(s, x, (s + [x])[i].ticks, i);
  }

  /** The depth after the sort at position `p` is the one of entry `i` before it. */
  predicate Matches(s: seq<Entry>, i: nat, p: nat) {
    i < |s| && p < |s| && Sorted(s)[p] == s[i] && Total(Sorted(s)[..p + 1]) == DepthAt(s, i)
  }

  lemma LastMatches(s: seq<Entry>, x: Entry) returns (a: nat)
    ensures Lands(Sorted(s), x, a, Sorted(s + [x])) && Matches(s + [x], |s|, a)
  {
    hide Total, Sorted, DepthAt, Lands, SplitsAt;
    a := Landing(s, x);
    LastDepthIs(s, x, a, Sorted(s), Sorted(s + [x]));
  }

  lemma LastDepthIs(s: seq<Entry>, x: Entry, a: nat, was: seq<Entry>, z: seq<Entry>)
    requires Lands(was, x, a, z) && was == Sorted(s)
    ensures a < |z| && z[a] == x && Total(z[..a + 1]) == DepthAt(s + [x], |s|)
  {
    hide Sorted;
    Splits(was, x, a, z);
    TotalBelow(s, x.ticks, |s|, a);
    LastDepth(s, x, a, was, z);
  }

  lemma LastDepth(s: seq<Entry>, x: Entry, a: nat, was: seq<Entry>, z: seq<Entry>)
    requires Lands(was, x, a, z) && Total(was[..a]) == NetUpTo(s, x.ticks, |s|)
    ensures a < |z| && z[a] == x && Total(z[..a + 1]) == DepthAt(s + [x], |s|)
  {
    Landed(was, x, a, z, a);
    DepthMore(s, x, |s|);
  }

  lemma Splits(was: seq<Entry>, x: Entry, a: nat, z: seq<Entry>)
    requires Lands(was, x, a, z)
    ensures SplitsAt(was, x.ticks, a) && a < |z| == |was| + 1
  {
  }

  lemma Side(was: seq<Entry>, x: Entry, a: nat, z: seq<Entry>, q: nat)
    requires Lands(was, x, a, z) && q < |was|
    ensures |z| == |was| + 1 && (q < a <==> was[q].ticks <= x.ticks)
  {
  }

  lemma StillMatches(s: seq<Entry>, x: Entry, a: nat, i: nat, q: nat)
    requires Lands(Sorted(s), x, a, Sorted(s + [x])) && Matches(s, i, q)
    ensures Matches(s + [x], i, if q < a then q else q + 1)
  {
    hide Sorted, NetUpTo, Total, ChangeOf, SplitsAt, DepthAt, Lands;
    DepthMore(s, x, i);
    Side(Sorted(s), x, a, Sorted(s + [x]), q);
    Landed(Sorted(s), x, a, Sorted(s + [x]), if q < a then q else q + 1);
  }

  /** Every entry has such a position. */
  lemma {:induction false} PlaceOf(s: seq<Entry>, i: nat) returns (p: nat)
    requires i < |s|
    ensures Matches(s, i, p)
    decreases |s|
  {
    var front, x := s[..|s| - 1], s[|s| - 1];
    assert s == front + [x];
    hide Matches, Lands;
    p := LastMatches(front, x);
    if i < |front| {
      var q := PlaceOf(front, i);
      StillMatches(front, x, p, i, q);
      p := if q < p then q else q + 1;
    }
  }

  /** And every position has such an entry. */
  lemma {:induction false} SourceOf(s: seq<Entry>, p: nat) returns (i: nat)
    requires p < |s|
    ensures Matches(s, i, p)
    decreases |s|
  {
    var front, x := s[..|s| - 1], s[|s| - 1];
    assert s == front + [x];
    hide Matches, Lands;
    var a := LastMatches(front, x);
    Splits(Sorted(front), x, a, Sorted(s));
    if p == a {
      i := |front|;
    } else {
      var q := if p < a then p else p - 1;
      i := SourceOf(front, q);
      StillMatches(front, x, a, i, q);
    }
  }

  /** No entry has more closes than opens at or before it. */
  predicate NoneBelow(s: seq<Entry>) {
    forall i :: 0 <= i < |s| ==> DepthAt(s, i) >= 0
  }

  lemma DipsIff(s: seq<Entry>)
    ensures NoDip(Sorted(s)) <==> NoneBelow(s)
  {
    hide Sorted, Total, DepthAt;
    if NoDip(Sorted(s)) {
      forall i: nat | i < |s| ensures DepthAt(s, i) >= 0 {
        var p := PlaceOf(s, i);
        assert Total(Sorted(s)[..p + 1]) >= 0;
      }
    }
    if NoneBelow(s) {
      forall p: nat | 0 < p <= |s| ensures Total(Sorted(s)[..p]) >= 0 {
        var i := SourceOf(s, p - 1);
      }
    }
  }

  /**
   After the sort the depth never drops below zero exactly when, of the entries at or before each one, earlier ticks
   and its own tick up to it, no more close than open.
   */
  lemma SortedNeverNegativeIff(s: seq<Entry>)
    ensures NeverNegative(0, Untagged(Sorted(s))) <==> NoneBelow(s)
  {
    NeverNegativeIff(Sorted(s));
    DipsIff(s);
  }
}
