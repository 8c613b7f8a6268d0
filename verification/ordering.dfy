/**
 * The apply order of an App's resources (lib/config.py:32-41 and 415): the documents are
 * sorted by the position of their `kind` in RESOURCES, kinds not in the list after all
 * others, with Python's stable `list.sort`.
 *
 * The sort itself is stated for any rank function bounded by `top`, so that its proofs
 * never look inside the rank; `SortByPriority` instantiates it with the key of line 415.
 */
module Ordering {
  import opened Documents

  const RESOURCES: seq<string> := [
    "Namespace",
    "ConfigMap",
    "Secret",
    "ServiceAccount",
    "ClusterRole",
    "ClusterRoleBinding",
    "Role",
    "RoleBinding"
  ]

  /** The rank of kinds that RESOURCES does not list: `len(RESOURCES)`. */
  const UNLISTED: nat := 8

  /** `s.index(x)` when `x in s`, and `len(s)` otherwise. */
  function IndexOf(s: seq<string>, x: string): (i: nat)
    ensures i <= |s|
    ensures i < |s| ==> s[i] == x
    ensures forall j :: 0 <= j < i ==> s[j] != x
  {
    if s == [] then 0 else if s[0] == x then 0 else 1 + IndexOf(s[1..], x)
  }

  /** The sort key of line 415 for a document whose `kind` is `kind`. */
  function Priority(kind: Value): (p: nat)
    ensures p <= UNLISTED
  {
    assert |RESOURCES| == UNLISTED;
    if kind.Str? then IndexOf(RESOURCES, kind.s) else UNLISTED
  }

  /** A kind in RESOURCES sorts at its position; any other kind, or a kind that is no string, sorts last. */
  lemma PriorityCases(kind: Value)
    ensures Priority(kind) < UNLISTED <==> kind.Str? && kind.s in RESOURCES
    ensures Priority(kind) < UNLISTED ==> RESOURCES[Priority(kind)] == kind.s
  {
    assert |RESOURCES| == UNLISTED;
  }

  /** The sort key can be computed: the document is a mapping with a `kind`. */
  predicate HasKind(d: Value) {
    Has(d, "kind")
  }

  predicate Keyed(s: seq<Value>) {
    forall i :: 0 <= i < |s| ==> HasKind(s[i])
  }

  /** The key of line 415; a document without a kind never reaches the sort (the key raises first). */
  function Rank(d: Value): (p: nat)
    ensures p <= UNLISTED
  {
    if HasKind(d) then Priority(d.entries["kind"]) else UNLISTED
  }

  /** The list as `list.sort` with the key of line 415 leaves it. */
  function SortByPriority(s: seq<Value>): (r: seq<Value>)
    ensures |r| == |s|
  {
    SortBy(s, Rank)
  }

  /** The reference order: every Namespace, then every ConfigMap, ..., then every RoleBinding, then the rest. */
  function ApplyOrder(s: seq<Value>): seq<Value> {
    Bucketed(s, Rank, UNLISTED, 0)
  }

  // ---------------------------------------------------------------------------
  // stable sorting by a bounded rank

  /** The elements are in nondecreasing rank. */
  predicate Ordered<T>(s: seq<T>, rank: T -> nat) {
    forall i, j :: 0 <= i < j < |s| ==> rank(s[i]) <= rank(s[j])
  }

  /** The elements of rank `q`, in their order in `s`. */
  function OfRank<T>(s: seq<T>, rank: T -> nat, q: nat): seq<T> {
    if s == [] then [] else (if rank(s[0]) == q then [s[0]] else []) + OfRank(s[1..], rank, q)
  }

  /** Insert `d` before the first element whose rank is not below its own. */
  function Insert<T>(d: T, s: seq<T>, rank: T -> nat): (r: seq<T>)
    ensures |r| == |s| + 1
  {
    if s == [] || rank(d) <= rank(s[0]) then [d] + s else [s[0]] + Insert(d, s[1..], rank)
  }

  /** Insertion sort: stable, like Python's `list.sort`. */
  function SortBy<T>(s: seq<T>, rank: T -> nat): (r: seq<T>)
    ensures |r| == |s|
  {
    if s == [] then [] else Insert(s[0], SortBy(s[1..], rank), rank)
  }

  /** The elements of rank `q`, then of rank `q + 1`, ..., up to rank `top`. */
  function Bucketed<T>(s: seq<T>, rank: T -> nat, top: nat, q: nat): seq<T>
    decreases top - q
  {
    if q >= top then OfRank(s, rank, top) else OfRank(s, rank, q) + Bucketed(s, rank, top, q + 1)
  }

  lemma {:induction false} OfRankAppend<T>(a: seq<T>, b: seq<T>, rank: T -> nat, q: nat)
    ensures OfRank(a + b, rank, q) == OfRank(a, rank, q) + OfRank(b, rank, q)
    decreases |a|
  {
    if a == [] {
      assert a + b == b;
    } else {
      var head: seq<T> := if rank(a[0]) == q then [a[0]] else [];
      assert (a + b)[0] == a[0] && (a + b)[1..] == a[1..] + b;
      assert OfRank(a + b, rank, q) == head + OfRank(a[1..] + b, rank, q);
      OfRankAppend(a[1..], b, rank, q);
      assert head + (OfRank(a[1..], rank, q) + OfRank(b, rank, q)) == (head + OfRank(a[1..], rank, q)) + OfRank(b, rank, q);
    }
  }

  lemma {:induction false} OfRankAll<T>(a: seq<T>, rank: T -> nat, q: nat)
    requires forall i :: 0 <= i < |a| ==> rank(a[i]) == q
    ensures OfRank(a, rank, q) == a
    decreases |a|
  {
    if a != [] {
      OfRankAll(a[1..], rank, q);
    }
  }

  lemma {:induction false} OfRankNone<T>(a: seq<T>, rank: T -> nat, q: nat)
    requires forall i :: 0 <= i < |a| ==> rank(a[i]) != q
    ensures OfRank(a, rank, q) == []
    decreases |a|
  {
    if a != [] {
      OfRankNone(a[1..], rank, q);
    }
  }

  lemma {:induction false} InsertPermutes<T>(d: T, s: seq<T>, rank: T -> nat)
    ensures multiset(Insert(d, s, rank)) == multiset(s) + multiset{d}
    decreases |s|
  {
    if s != [] && rank(d) > rank(s[0]) {
      InsertPermutes(d, s[1..], rank);
      assert s == [s[0]] + s[1..];
    }
  }

  lemma {:induction false} InsertOrdered<T>(d: T, s: seq<T>, rank: T -> nat)
    requires Ordered(s, rank)
    ensures Ordered(Insert(d, s, rank), rank)
    decreases |s|
  {
    if s != [] && rank(d) > rank(s[0]) {
      InsertOrdered(d, s[1..], rank);
      var r := Insert(d, s, rank);
      var t := Insert(d, s[1..], rank);
      assert r == [s[0]] + t;
      InsertPermutes(d, s[1..], rank);
      forall j | 0 < j < |r|
        ensures rank(s[0]) <= rank(r[j])
      {
        assert r[j] == t[j - 1];
        assert r[j] in multiset(t);
        if r[j] != d {
          assert r[j] in multiset(s[1..]);
          var k :| 0 <= k < |s[1..]| && s[1..][k] == r[j];
          assert s[k + 1] == r[j];
        }
      }
    }
  }

  /** An element put in front is counted in its own rank, first. */
  lemma OfRankCons<T>(x: T, s: seq<T>, rank: T -> nat, q: nat)
    ensures OfRank([x] + s, rank, q) == (if rank(x) == q then [x] else []) + OfRank(s, rank, q)
  {
    assert ([x] + s)[0] == x && ([x] + s)[1..] == s;
  }

  /** The stable-insertion step: `d` lands in front of the elements of its own rank. */
  lemma {:induction false} InsertOfRank<T>(d: T, s: seq<T>, rank: T -> nat, q: nat)
    ensures OfRank(Insert(d, s, rank), rank, q) == (if rank(d) == q then [d] else []) + OfRank(s, rank, q)
    decreases |s|
  {
    if s == [] || rank(d) <= rank(s[0]) {
      OfRankCons(d, s, rank, q);
    } else {
      var t := Insert(d, s[1..], rank);
      InsertOfRank(d, s[1..], rank, q);
      OfRankCons(s[0], t, rank, q);
      var mine: seq<T> := if rank(d) == q then [d] else [];
      var head: seq<T> := if rank(s[0]) == q then [s[0]] else [];
      assert head + (mine + OfRank(s[1..], rank, q)) == mine + (head + OfRank(s[1..], rank, q));
    }
  }

  /** The sorted list is in rank order. */
  lemma {:induction false} SortOrdered<T>(s: seq<T>, rank: T -> nat)
    ensures Ordered(SortBy(s, rank), rank)
    decreases |s|
  {
    if s != [] {
      SortOrdered(s[1..], rank);
      InsertOrdered(s[0], SortBy(s[1..], rank), rank);
    }
  }

  /** Sorting neither loses nor adds an element. */
  lemma {:induction false} SortPermutes<T>(s: seq<T>, rank: T -> nat)
    ensures multiset(SortBy(s, rank)) == multiset(s)
    decreases |s|
  {
    if s != [] {
      SortPermutes(s[1..], rank);
      InsertPermutes(s[0], SortBy(s[1..], rank), rank);
      assert s == [s[0]] + s[1..];
    }
  }

  /** Sorting is stable: the elements of each rank keep their order. */
  lemma {:induction false} SortStable<T>(s: seq<T>, rank: T -> nat, q: nat)
    ensures OfRank(SortBy(s, rank), rank, q) == OfRank(s, rank, q)
    decreases |s|
  {
    if s != [] {
      SortStable(s[1..], rank, q);
      InsertOfRank(s[0], SortBy(s[1..], rank), rank, q);
    }
  }

  lemma {:induction false} BucketedSkips<T>(a: seq<T>, b: seq<T>, rank: T -> nat, top: nat, q: nat)
    requires q <= top && forall i :: 0 <= i < |a| ==> rank(a[i]) < q
    ensures Bucketed(a + b, rank, top, q) == Bucketed(b, rank, top, q)
    decreases top - q
  {
    if q >= top {
      assert OfRank(a + b, rank, top) == OfRank(b, rank, top) by {
        OfRankAppend(a, b, rank, top);
        OfRankNone(a, rank, top);
      }
    } else {
      assert OfRank(a + b, rank, q) == OfRank(b, rank, q) by {
        OfRankAppend(a, b, rank, q);
        OfRankNone(a, rank, q);
      }
      assert Bucketed(a + b, rank, top, q + 1) == Bucketed(b, rank, top, q + 1) by {
        BucketedSkips(a, b, rank, top, q + 1);
      }
    }
  }

  /** An ordered list whose ranks lie in `q..top` is its own bucket decomposition. */
  lemma {:induction false} OrderedIsBucketed<T>(r: seq<T>, rank: T -> nat, top: nat, q: nat)
    requires Ordered(r, rank) && q <= top
    requires forall i :: 0 <= i < |r| ==> q <= rank(r[i]) <= top
    ensures r == Bucketed(r, rank, top, q)
    decreases top - q
  {
    if q == top {
      OfRankAll(r, rank, top);
    } else {
      var k := BucketStep(r, rank, top, q);
      OrderedIsBucketed(r[k..], rank, top, q + 1);
      assert r == r[..k] + r[k..];
    }
  }

  /** The first bucket of an ordered list is its leading run of rank `q`; the rest is ordered and above `q`. */
  lemma BucketStep<T>(r: seq<T>, rank: T -> nat, top: nat, q: nat) returns (k: nat)
    requires Ordered(r, rank) && q < top
    requires forall i :: 0 <= i < |r| ==> q <= rank(r[i]) <= top
    ensures k <= |r|
    ensures Ordered(r[k..], rank) && forall i :: 0 <= i < |r| - k ==> q + 1 <= rank(r[k..][i]) <= top
    ensures Bucketed(r, rank, top, q) == r[..k] + Bucketed(r[k..], rank, top, q + 1)
  {
    k := SplitAtRank(r, rank, q);
    var a, b := r[..k], r[k..];
    assert r == a + b;
    assert OfRank(r, rank, q) == a by {
      OfRankAppend(a, b, rank, q);
      OfRankAll(a, rank, q);
      OfRankNone(b, rank, q);
    }
    assert Bucketed(r, rank, top, q + 1) == Bucketed(b, rank, top, q + 1) by {
      BucketedSkips(a, b, rank, top, q + 1);
    }
  }

  /** An ordered list of ranks at least `q` is a run of rank `q` followed by an ordered list of higher ranks. */
  lemma SplitAtRank<T>(r: seq<T>, rank: T -> nat, q: nat) returns (k: nat)
    requires Ordered(r, rank) && forall i :: 0 <= i < |r| ==> rank(r[i]) >= q
    ensures k <= |r|
    ensures forall i :: 0 <= i < k ==> rank(r[i]) == q
    ensures Ordered(r[k..], rank) && forall i :: 0 <= i < |r| - k ==> rank(r[k..][i]) > q
  {
    k := 0;
    while k < |r| && rank(r[k]) == q
      invariant 0 <= k <= |r|
      invariant forall i :: 0 <= i < k ==> rank(r[i]) == q
    {
      k := k + 1;
    }
    var b := r[k..];
    forall i | 0 <= i < |b|
      ensures rank(b[i]) > q
    {
      assert b[i] == r[k + i];
      assert rank(r[k]) <= rank(r[k + i]);
    }
    forall i, j | 0 <= i < j < |b|
      ensures rank(b[i]) <= rank(b[j])
    {
      assert b[i] == r[k + i] && b[j] == r[k + j];
    }
  }

  lemma {:induction false} BucketedByRanks<T>(a: seq<T>, b: seq<T>, rank: T -> nat, top: nat, q: nat)
    requires forall p: nat :: OfRank(a, rank, p) == OfRank(b, rank, p)
    ensures Bucketed(a, rank, top, q) == Bucketed(b, rank, top, q)
    decreases top - q
  {
    if q < top {
      BucketedByRanks(a, b, rank, top, q + 1);
    }
  }

  // ---------------------------------------------------------------------------
  // the sort of line 415

  /**
   * The sort of line 415 leaves the documents in apply order, as a permutation of the fetched
   * documents, with the documents of each kind (and all unlisted kinds together) in fetch order.
   */
  lemma SortByPriorityCorrect(s: seq<Value>)
    ensures Ordered(SortByPriority(s), Rank)
    ensures multiset(SortByPriority(s)) == multiset(s)
    ensures forall q: nat :: OfRank(SortByPriority(s), Rank, q) == OfRank(s, Rank, q)
  {
    SortOrdered(s, Rank);
    SortPermutes(s, Rank);
    forall q: nat
      ensures OfRank(SortByPriority(s), Rank, q) == OfRank(s, Rank, q)
    {
      SortStable(s, Rank, q);
    }
  }

  /**
   * The sort of line 415 puts every Namespace first, then every ConfigMap, and so on down
   * RESOURCES, then all documents of other kinds, each group in fetch order.
   */
  lemma SortIsApplyOrder(s: seq<Value>)
    ensures SortByPriority(s) == ApplyOrder(s)
  {
    var r := SortByPriority(s);
    SortByPriorityCorrect(s);
    OrderedIsBucketed(r, Rank, UNLISTED, 0);
    BucketedByRanks(r, s, Rank, UNLISTED, 0);
  }
}
