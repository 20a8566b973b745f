/**
 The ordered std::map<int, V> that an interval map keeps its breakpoints in,
 modelled as a sequence of entries whose keys strictly increase. Positions in
 the sequence play the part of the map's iterators: position |s| is end().
 */
module Breakpoints {

  /** One stored breakpoint: from `key` upward, until the next stored key, the value is `val`. */
  datatype Entry<V> = Entry(key: int, val: V)

  /** The ordering std::map maintains: keys strictly increase, so no key is stored twice. */
  predicate Sorted<V>(s: seq<Entry<V>>) {
    forall i, j | 0 <= i < j < |s| :: s[i].key < s[j].key
  }

  /** Sorted runs on either side of an entry whose key separates them join into a sorted run. */
  lemma SortedJoin<V>(x: seq<Entry<V>>, e: Entry<V>, y: seq<Entry<V>>)
    requires Sorted(x) && Sorted(y)
    requires forall i | 0 <= i < |x| :: x[i].key < e.key
    requires forall i | 0 <= i < |y| :: e.key < y[i].key
    ensures Sorted(x + [e] + y)
  {
    var t := x + [e] + y;
    forall i, j | 0 <= i < j < |t|
      ensures t[i].key < t[j].key
    {
      if j < |x| {
      } else if i < |x| && j == |x| {
      } else if i < |x| {
        assert t[j] == y[j - |x| - 1];
      } else if i == |x| {
        assert t[j] == y[j - |x| - 1];
      } else {
        assert t[i] == y[i - |x| - 1] && t[j] == y[j - |x| - 1];
      }
    }
  }

  /** Dropping entries from the front keeps the order. */
  lemma SortedSuffix<V>(s: seq<Entry<V>>, i: nat)
    requires Sorted(s) && i <= |s|
    ensures Sorted(s[i..])
  {
    var t := s[i..];
    forall a, b | 0 <= a < b < |t| ensures t[a].key < t[b].key {
      assert t[a] == s[i + a] && t[b] == s[i + b];
    }
  }

  /** Dropping entries from the back keeps the order. */
  lemma SortedPrefix<V>(s: seq<Entry<V>>, i: nat)
    requires Sorted(s) && i <= |s|
    ensures Sorted(s[..i])
  {
    var t := s[..i];
    forall a, b | 0 <= a < b < |t| ensures t[a].key < t[b].key {
      assert t[a] == s[a] && t[b] == s[b];
    }
  }

  /** In sorted order, every key before position `i` lies below the key at `i`. */
  lemma PrefixBelow<V>(s: seq<Entry<V>>, i: nat)
    requires Sorted(s) && i < |s|
    ensures forall j | 0 <= j < |s[..i]| :: s[..i][j].key < s[i].key
  {
    forall j | 0 <= j < |s[..i]| ensures s[..i][j].key < s[i].key {
      assert s[..i][j] == s[j];
    }
  }

  /**
   The entries of `s` from position `i` on, alone or behind an entry `e` whose
   key lies below all of theirs, are in order.
   */
  lemma SortedFrom<V>(s: seq<Entry<V>>, i: nat, e: Entry<V>)
    requires Sorted(s) && i <= |s|
    ensures Sorted(s[i..])
    ensures (forall j | i <= j < |s| :: e.key < s[j].key) ==> Sorted([e] + s[i..])
  {
    SortedSuffix(s, i);
    if forall j | i <= j < |s| :: e.key < s[j].key {
      forall j | 0 <= j < |s[i..]| ensures e.key < s[i..][j].key {
        assert s[i..][j] == s[i + j];
      }
      SortedJoin([], e, s[i..]);
      assert [] + [e] + s[i..] == [e] + s[i..];
    }
  }

  /** Some entry of `s` is stored under key `k`. */
  predicate HasKey<V>(s: seq<Entry<V>>, k: int) {
    exists i | 0 <= i < |s| :: s[i].key == k
  }

  /** Some entry of `s` has a key strictly between `lo` and `hi`. */
  predicate HasKeyBetween<V>(s: seq<Entry<V>>, lo: int, hi: int) {
    exists i | 0 <= i < |s| :: lo < s[i].key < hi
  }

  /**
   The walk behind lower_bound: from position `i`, step over entries whose key
   is below `k`. Stops at the first entry that is not below `k`, or at the end.
   */
  function LowerBoundFrom<V>(s: seq<Entry<V>>, k: int, i: nat): (r: nat)
    requires i <= |s|
    ensures i <= r <= |s|
    ensures forall j | i <= j < r :: s[j].key < k
    ensures r < |s| ==> k <= s[r].key
    decreases |s| - i
  {
    if i == |s| || k <= s[i].key then i else LowerBoundFrom(s, k, i + 1)
  }

  /** The walk behind upper_bound: as LowerBoundFrom, stepping over keys at most `k`. */
  function UpperBoundFrom<V>(s: seq<Entry<V>>, k: int, i: nat): (r: nat)
    requires i <= |s|
    ensures i <= r <= |s|
    ensures forall j | i <= j < r :: s[j].key <= k
    ensures r < |s| ==> k < s[r].key
    decreases |s| - i
  {
    if i == |s| || k < s[i].key then i else UpperBoundFrom(s, k, i + 1)
  }

  /** std::map::lower_bound: the position of the first entry whose key is not below `k`. */
  function LowerBound<V>(s: seq<Entry<V>>, k: int): (i: nat)
    requires Sorted(s)
    ensures i <= |s|
    ensures forall j | 0 <= j < i :: s[j].key < k
    ensures forall j | i <= j < |s| :: k <= s[j].key
  {
    LowerBoundFrom(s, k, 0)
  }

  /** std::map::upper_bound: the position of the first entry whose key is above `k`. */
  function UpperBound<V>(s: seq<Entry<V>>, k: int): (i: nat)
    requires Sorted(s)
    ensures i <= |s|
    ensures forall j | 0 <= j < i :: s[j].key <= k
    ensures forall j | i <= j < |s| :: k < s[j].key
  {
    UpperBoundFrom(s, k, 0)
  }

  /** A position that splits `s` into keys below `k` and keys at or above `k` is the lower bound. */
  lemma LowerBoundUnique<V>(s: seq<Entry<V>>, k: int, i: nat)
    requires Sorted(s)
    requires i <= |s|
    requires forall j | 0 <= j < i :: s[j].key < k
    requires forall j | i <= j < |s| :: k <= s[j].key
    ensures LowerBound(s, k) == i
  {
    var b := LowerBound(s, k);
    assert b < |s| ==> k <= s[b].key;
    assert i < |s| ==> k <= s[i].key;
  }

  /** A position that splits `s` into keys at most `k` and keys above `k` is the upper bound. */
  lemma UpperBoundUnique<V>(s: seq<Entry<V>>, k: int, i: nat)
    requires Sorted(s)
    requires i <= |s|
    requires forall j | 0 <= j < i :: s[j].key <= k
    requires forall j | i <= j < |s| :: k < s[j].key
    ensures UpperBound(s, k) == i
  {
    var b := UpperBound(s, k);
    assert b < |s| ==> k < s[b].key;
    assert i < |s| ==> k < s[i].key;
  }

  /** The upper bound of `k` passes over exactly the one entry stored under `k`, if there is one. */
  lemma UpperBoundAfterLowerBound<V>(s: seq<Entry<V>>, k: int)
    requires Sorted(s)
    ensures var p := LowerBound(s, k);
            UpperBound(s, k) == if p < |s| && s[p].key == k then p + 1 else p
  {
    var p := LowerBound(s, k);
    if p < |s| && s[p].key == k {
      UpperBoundUnique(s, k, p + 1);
    } else {
      UpperBoundUnique(s, k, p);
    }
  }

  /** `k` is stored exactly when the lower bound of `k` points at it. */
  lemma HasKeyAtLowerBound<V>(s: seq<Entry<V>>, k: int)
    requires Sorted(s)
    ensures var p := LowerBound(s, k); HasKey(s, k) <==> p < |s| && s[p].key == k
  {
    var p := LowerBound(s, k);
    if HasKey(s, k) {
      var i :| 0 <= i < |s| && s[i].key == k;
      assert p <= i;
      assert s[p].key <= s[i].key;
    }
  }

  /** Everything at or below `k1` lies below `k2` when k1 < k2. */
  lemma BoundsOrdered<V>(s: seq<Entry<V>>, k1: int, k2: int)
    requires Sorted(s)
    requires k1 < k2
    ensures UpperBound(s, k1) <= LowerBound(s, k2)
  {
    var l := LowerBound(s, k2);
    assert l < |s| ==> k2 <= s[l].key;
  }

  /** The keys strictly between `lo` and `hi` are those from upper_bound(lo) to lower_bound(hi). */
  lemma KeysBetween<V>(s: seq<Entry<V>>, lo: int, hi: int)
    requires Sorted(s)
    requires lo < hi
    ensures HasKeyBetween(s, lo, hi) <==> UpperBound(s, lo) < LowerBound(s, hi)
  {
    var a := UpperBound(s, lo);
    if a < LowerBound(s, hi) {
      assert lo < s[a].key < hi;
    }
  }

  /**
   A new entry `e` placed where the keys below it end and the keys above it
   begin keeps the order.
   */
  lemma SortedPlaced<V>(s: seq<Entry<V>>, p: nat, e: Entry<V>, a: nat)
    requires Sorted(s) && p <= a <= |s|
    requires forall j | 0 <= j < p :: s[j].key < e.key
    requires forall j | a <= j < |s| :: e.key < s[j].key
    ensures Sorted(s[..p] + [e] + s[a..])
  {
    SortedPrefix(s, p);
    SortedSuffix(s, a);
    forall j | 0 <= j < |s[..p]| ensures s[..p][j].key < e.key {
      assert s[..p][j] == s[j];
    }
    forall j | 0 <= j < |s[a..]| ensures e.key < s[a..][j].key {
      assert s[a..][j] == s[a + j];
    }
    SortedJoin(s[..p], e, s[a..]);
  }

  /**
   std::map::insert_or_assign: stores `v` under `k`, replacing the entry
   already stored there. Returns the new sequence and the position of `k` in it.
   */
  function InsertOrAssign<V>(s: seq<Entry<V>>, k: int, v: V): (r: (seq<Entry<V>>, nat))
    requires Sorted(s)
    ensures r.1 == LowerBound(s, k)
    ensures r.0 == s[..LowerBound(s, k)] + [Entry(k, v)] + s[UpperBound(s, k)..]
    ensures Sorted(r.0)
  {
    var i := LowerBound(s, k);
    UpperBoundAfterLowerBound(s, k);
    SortedPlaced(s, i, Entry(k, v), UpperBound(s, k));
    if i < |s| && s[i].key == k then
      assert s[i := Entry(k, v)] == s[..i] + [Entry(k, v)] + s[i + 1..];
      (s[i := Entry(k, v)], i)
    else
      (s[..i] + [Entry(k, v)] + s[i..], i)
  }

  /**
   std::map::insert: stores `v` under `k` only when `k` is not stored yet.
   Returns the sequence and the position of `k` in it.
   */
  function Insert<V>(s: seq<Entry<V>>, k: int, v: V): (r: (seq<Entry<V>>, nat))
    requires Sorted(s)
    ensures r.1 == LowerBound(s, k)
    ensures HasKey(s, k) ==> r.0 == s && s[r.1].key == k
    ensures !HasKey(s, k) ==> r.0 == s[..r.1] + [Entry(k, v)] + s[r.1..]
    ensures Sorted(r.0)
  {
    var i := LowerBound(s, k);
    if i < |s| && s[i].key == k then
      (s, i)
    else
      SortedPlaced(s, i, Entry(k, v), i);
      assert !HasKey(s, k) by {
        assert i < |s| ==> k < s[i].key;
      }
      (s[..i] + [Entry(k, v)] + s[i..], i)
  }

  /**
   Reference reading of a breakpoint sequence: scanning left to right from the
   value `d` in force below every breakpoint, each entry whose key is at most
   `k` takes over. For sorted `s` this is the value of the greatest key at most `k`.
   */
  function ValueAt<V>(s: seq<Entry<V>>, d: V, k: int): V
    decreases |s|
  {
    if |s| == 0 || k < s[0].key then d else ValueAt(s[1..], s[0].val, k)
  }

  /** Entries whose keys are all at most `k` are read completely before the rest is consulted. */
  lemma {:induction false} ValueAtConcat<V>(a: seq<Entry<V>>, b: seq<Entry<V>>, d: V, k: int)
    requires forall i | 0 <= i < |a| :: a[i].key <= k
    ensures ValueAt(a + b, d, k) == ValueAt(b, ValueAt(a, d, k), k)
    decreases |a|
  {
    if |a| == 0 {
      assert a + b == b;
    } else {
      assert (a + b)[1..] == a[1..] + b;
      ValueAtConcat(a[1..], b, a[0].val, k);
    }
  }

  /** Entries whose keys all lie above `k` do not affect the value at `k`. */
  lemma {:induction false} ValueAtIgnoresLater<V>(a: seq<Entry<V>>, b: seq<Entry<V>>, d: V, k: int)
    requires forall i | 0 <= i < |b| :: k < b[i].key
    ensures ValueAt(a + b, d, k) == ValueAt(a, d, k)
    decreases |a|
  {
    if |a| == 0 {
      assert a + b == b;
    } else if k < a[0].key {
    } else {
      assert (a + b)[1..] == a[1..] + b;
      ValueAtIgnoresLater(a[1..], b, a[0].val, k);
    }
  }

  /** When every key is at most `k`, the last entry decides the value at `k`. */
  lemma {:induction false} ValueAtLast<V>(a: seq<Entry<V>>, d: V, k: int)
    requires |a| > 0
    requires forall i | 0 <= i < |a| :: a[i].key <= k
    ensures ValueAt(a, d, k) == a[|a| - 1].val
    decreases |a|
  {
    if |a| > 1 {
      ValueAtLast(a[1..], a[0].val, k);
    }
  }

  /** In a sorted sequence the value at `k` is that of the greatest key at most `k`. */
  lemma ValueAtGreatest<V>(s: seq<Entry<V>>, d: V, k: int, i: nat)
    requires Sorted(s)
    requires i < |s| && s[i].key <= k
    requires i + 1 == |s| || k < s[i + 1].key
    ensures ValueAt(s, d, k) == s[i].val
  {
    assert s == s[..i + 1] + s[i + 1..];
    ValueAtIgnoresLater(s[..i + 1], s[i + 1..], d, k);
    ValueAtLast(s[..i + 1], d, k);
  }

  /** When every key lies above `k`, the value in force is the one the scan starts from. */
  lemma ValueAtAllAbove<V>(b: seq<Entry<V>>, x: V, k: int)
    requires forall i | 0 <= i < |b| :: k < b[i].key
    ensures ValueAt(b, x, k) == x
  {
    if |b| > 0 {
      assert k < b[0].key;
    }
  }

  /** Two readings at or above every key of `a` agree. */
  lemma ValueAtPastAll<V>(a: seq<Entry<V>>, d: V, k1: int, k2: int)
    requires forall i | 0 <= i < |a| :: a[i].key <= k1 && a[i].key <= k2
    ensures ValueAt(a, d, k1) == ValueAt(a, d, k2)
  {
    if |a| > 0 {
      ValueAtLast(a, d, k1);
      ValueAtLast(a, d, k2);
    }
  }

  /** Splitting a sorted sequence at `i`, when the keys before `i` are at most `k`. */
  lemma ValueAtSplit<V>(s: seq<Entry<V>>, i: nat, d: V, k: int)
    requires i <= |s|
    requires forall j | 0 <= j < i :: s[j].key <= k
    ensures forall j | 0 <= j < |s[..i]| :: s[..i][j].key <= k
    ensures ValueAt(s, d, k) == ValueAt(s[i..], ValueAt(s[..i], d, k), k)
  {
    forall j | 0 <= j < |s[..i]| ensures s[..i][j].key <= k {
      assert s[..i][j] == s[j];
    }
    assert s == s[..i] + s[i..];
    ValueAtConcat(s[..i], s[i..], d, k);
  }

  /** Cutting a sequence at `i`, when the keys from `i` on lie above `k`. */
  lemma ValueAtCut<V>(s: seq<Entry<V>>, i: nat, d: V, k: int)
    requires i <= |s|
    requires forall j | i <= j < |s| :: k < s[j].key
    ensures ValueAt(s, d, k) == ValueAt(s[..i], d, k)
  {
    forall j | 0 <= j < |s[i..]| ensures k < s[i..][j].key {
      assert s[i..][j] == s[i + j];
    }
    assert s == s[..i] + s[i..];
    ValueAtIgnoresLater(s[..i], s[i..], d, k);
  }
}
