/** The order of the greedy phase: gates sorted by number of connections, largest
    first, with a stable sort, so gates with equally many connections keep their
    insertion order. Orders are sequences of indices into the gate table. */
module Ordering {
  import opened Layout

  function Degree(gates: seq<Gate>, a: nat): nat
    requires a < |gates|
  {
    |gates[a].connections|
  }

  /** Gate a goes before gate b: more connections, or as many and inserted earlier. */
  predicate RankedBefore(gates: seq<Gate>, a: nat, b: nat)
    requires a < |gates| && b < |gates|
  {
    Degree(gates, a) > Degree(gates, b) || (Degree(gates, a) == Degree(gates, b) && a < b)
  }

  predicate InRange(gates: seq<Gate>, s: seq<nat>)
  {
    forall p :: 0 <= p < |s| ==> s[p] < |gates|
  }

  /** Strictly increasing in the greedy order (so also free of repetitions). */
  predicate Ranked(gates: seq<Gate>, s: seq<nat>)
    requires InRange(gates, s)
  {
    forall p, q :: 0 <= p < q < |s| ==> RankedBefore(gates, s[p], s[q])
  }

  /** One step of the stable sort: k goes after every entry with at least as many
      connections and before the first entry with fewer. */
  function Insert(gates: seq<Gate>, k: nat, s: seq<nat>): (r: seq<nat>)
    requires k < |gates| && InRange(gates, s)
    ensures |r| == |s| + 1 && InRange(gates, r)
    ensures forall e :: e in r <==> e in s || e == k
  {
    if s == [] then [k]
    else if Degree(gates, s[0]) < Degree(gates, k) then [k] + s
    else
      var rest := Insert(gates, k, s[1..]);
      assert forall e :: e in s <==> e == s[0] || e in s[1..];
      [s[0]] + rest
  }

  /** Inserting an index larger than all entries keeps an order ranked: this is where
      the sort is stable. */
  lemma {:induction false} InsertRanked(gates: seq<Gate>, k: nat, s: seq<nat>)
    requires k < |gates| && InRange(gates, s) && Ranked(gates, s)
    requires forall p :: 0 <= p < |s| ==> s[p] < k
    ensures Ranked(gates, Insert(gates, k, s))
  {
    if s != [] && Degree(gates, s[0]) >= Degree(gates, k) {
      var rest := Insert(gates, k, s[1..]);
      assert forall p :: 0 <= p < |s[1..]| ==> s[1..][p] < k;
      InsertRanked(gates, k, s[1..]);
      forall q | 0 <= q < |rest| ensures RankedBefore(gates, s[0], rest[q]) {
        var e := rest[q];
        assert e in rest;
        if e != k {
          var j :| 0 <= j < |s[1..]| && s[1..][j] == e;
          assert s[j + 1] == e;
        }
      }
      var r := [s[0]] + rest;
      assert Insert(gates, k, s) == r;
      forall p, q | 0 <= p < q < |r| ensures RankedBefore(gates, r[p], r[q]) {
        assert r[q] == rest[q - 1];
        if p > 0 {
          assert r[p] == rest[p - 1];
        }
      }
    }
  }

  /** The stable sort of the first n gates. */
  function SortPrefix(gates: seq<Gate>, n: nat): (r: seq<nat>)
    requires n <= |gates|
    ensures |r| == n && InRange(gates, r) && Ranked(gates, r)
    ensures forall e :: e in r <==> 0 <= e < n
  {
    if n == 0 then []
    else
      var s := SortPrefix(gates, n - 1);
      assert forall p :: 0 <= p < |s| ==> s[p] < n - 1 by {
        forall p | 0 <= p < |s| ensures s[p] < n - 1 { assert s[p] in s; }
      }
      InsertRanked(gates, n - 1, s);
      Insert(gates, n - 1, s)
  }

  /** The order in which the greedy phase handles the gates: every gate exactly once,
      by descending connection count, insertion order among equals. */
  function ConnectionOrder(gates: seq<Gate>): (r: seq<nat>)
    ensures |r| == |gates| && InRange(gates, r) && Ranked(gates, r)
    ensures forall a :: 0 <= a < |gates| ==> a in r
  {
    SortPrefix(gates, |gates|)
  }

  /** A ranked order never repeats an index. */
  lemma RankedDistinct(gates: seq<Gate>, s: seq<nat>, p: nat, q: nat)
    requires InRange(gates, s) && Ranked(gates, s)
    requires p < |s| && q < |s| && p != q
    ensures s[p] != s[q]
  {
    if p < q {
      assert RankedBefore(gates, s[p], s[q]);
    } else {
      assert RankedBefore(gates, s[q], s[p]);
    }
  }

  /** The order depends only on the connection lists, not on positions. */
  lemma StaticOrder(a: seq<Gate>, b: seq<Gate>)
    requires Static(a, b)
    ensures ConnectionOrder(a) == ConnectionOrder(b)
  {
    assert forall k :: 0 <= k < |a| ==> Degree(a, k) == Degree(b, k);
    StaticSortPrefix(a, b, |a|);
  }

  lemma {:induction false} StaticSortPrefix(a: seq<Gate>, b: seq<Gate>, n: nat)
    requires Static(a, b) && n <= |a|
    ensures SortPrefix(a, n) == SortPrefix(b, n)
  {
    if n > 0 {
      StaticSortPrefix(a, b, n - 1);
      StaticInsert(a, b, n - 1, SortPrefix(a, n - 1));
    }
  }

  lemma {:induction false} StaticInsert(a: seq<Gate>, b: seq<Gate>, k: nat, s: seq<nat>)
    requires Static(a, b) && k < |a| && InRange(a, s)
    ensures InRange(b, s) && Insert(a, k, s) == Insert(b, k, s)
  {
    if s != [] {
      StaticInsert(a, b, k, s[1..]);
    }
  }
}
