/**
 What assign does to operator[]: the value read back at every key after
 assign(keyBegin, keyEnd, val), in terms of the map before it.
 */
module AssignLemmas {
  import opened Breakpoints
  import opened IntervalMaps

  /**
   Reference for operator[] after assign(keyBegin, keyEnd, val), defined from
   the map before the call. Keys below keyBegin keep their value and keys in
   [keyBegin, keyEnd) read `val`. At or above keyEnd the first stored key at
   or above keyEnd decides: when there is none, `val` runs on without end;
   from that key upward nothing changes; below it the old value survives when
   some key lies strictly between keyBegin and keyEnd, and otherwise that
   key's value is read from keyEnd on.
   */
  function AssignedValue<V>(m: IntervalMap<V>, keyBegin: int, keyEnd: int, val: V, k: int): V
    requires Sorted(m.entries)
  {
    var s := m.entries;
    if !(keyBegin < keyEnd) || k < keyBegin then
      Lookup(m, k)
    else if k < keyEnd then
      val
    else
      var j := LowerBound(s, keyEnd);
      if j == |s| then val
      else if s[j].key <= k || HasKeyBetween(s, keyBegin, keyEnd) then Lookup(m, k)
      else s[j].val
  }

  /** Reading x + [e] + tail below and above the key of `e`. */
  lemma ShapeValue<V>(x: seq<Entry<V>>, e: Entry<V>, tail: seq<Entry<V>>, d: V, k: int)
    requires forall i | 0 <= i < |x| :: x[i].key < e.key
    requires forall i | 0 <= i < |tail| :: e.key < tail[i].key
    ensures k < e.key ==> ValueAt(x + [e] + tail, d, k) == ValueAt(x, d, k)
    ensures e.key <= k ==> ValueAt(x + [e] + tail, d, k) == ValueAt(tail, e.val, k)
  {
    if k < e.key {
      assert x + [e] + tail == x + ([e] + tail);
      ValueAtIgnoresLater(x, [e] + tail, d, k);
    } else {
      ValueAtConcat(x + [e], tail, d, k);
      ValueAtLast(x + [e], d, k);
    }
  }

  /** The entries below the lower bound of `k`, as a sequence, all lie below `k`. */
  lemma BelowLowerBound<V>(s: seq<Entry<V>>, k: int)
    requires Sorted(s)
    ensures var p := LowerBound(s, k); forall i | 0 <= i < |s[..p]| :: s[..p][i].key < k
  {
    var p := LowerBound(s, k);
    forall i | 0 <= i < |s[..p]| ensures s[..p][i].key < k {
      assert s[..p][i] == s[i];
    }
  }

  /** A scan whose first entry is already passed forgets the value it started from. */
  lemma ValueAtFirstPassed<V>(b: seq<Entry<V>>, x: V, y: V, k: int)
    requires |b| > 0 && b[0].key <= k
    ensures ValueAt(b, x, k) == ValueAt(b[1..], b[0].val, k)
    ensures ValueAt(b, x, k) == ValueAt(b, y, k)
  {
  }

  /** At or above keyEnd, Splice reads as AssignedValue says. */
  lemma SpliceValueAbove<V>(s: seq<Entry<V>>, d: V, keyBegin: int, keyEnd: int, val: V, k: int)
    requires Sorted(s)
    requires keyBegin < keyEnd <= k
    ensures ValueAt(SpliceTail(s, keyBegin, keyEnd), val, k)
            == AssignedValue(IntervalMap(d, s), keyBegin, keyEnd, val, k)
  {
    var j := LowerBound(s, keyEnd);
    BoundsOrdered(s, keyBegin, keyEnd);
    KeysBetween(s, keyBegin, keyEnd);
    LookupIsValueAt(IntervalMap(d, s), k);
    ValueAtSplit(s, j, d, k);
    if j == |s| {
    } else if s[j].key == keyEnd {
      TailValueHitEnd(s, d, keyBegin, keyEnd, val, k, j);
    } else if UpperBound(s, keyBegin) == j {
      TailValuePullBack(s, d, keyBegin, keyEnd, val, k, j);
    } else {
      TailValueCarry(s, d, keyBegin, keyEnd, val, k, j);
    }
  }

  /** keyEnd is stored: the tail is read as the original from keyEnd on. */
  lemma TailValueHitEnd<V>(s: seq<Entry<V>>, d: V, keyBegin: int, keyEnd: int, val: V, k: int, j: nat)
    requires Sorted(s)
    requires keyBegin < keyEnd <= k
    requires j == LowerBound(s, keyEnd) && j < |s| && s[j].key == keyEnd
    ensures ValueAt(SpliceTail(s, keyBegin, keyEnd), val, k) == ValueAt(s[j..], ValueAt(s[..j], d, k), k)
  {
    assert s[j..][0] == s[j];
    ValueAtFirstPassed(s[j..], val, ValueAt(s[..j], d, k), k);
  }

  /**
   Nothing stored strictly between keyBegin and keyEnd: the tail starts with
   the next breakpoint's value at keyEnd, then the original after that breakpoint.
   */
  lemma TailValuePullBack<V>(s: seq<Entry<V>>, d: V, keyBegin: int, keyEnd: int, val: V, k: int, j: nat)
    requires Sorted(s)
    requires keyBegin < keyEnd <= k
    requires j == LowerBound(s, keyEnd) && j < |s| && keyEnd < s[j].key && UpperBound(s, keyBegin) == j
    ensures ValueAt(SpliceTail(s, keyBegin, keyEnd), val, k)
            == if s[j].key <= k then ValueAt(s[j..], ValueAt(s[..j], d, k), k) else s[j].val
  {
    var tail := SpliceTail(s, keyBegin, keyEnd);
    assert tail[1..] == s[j + 1..];
    ValueAtFirstPassed(tail, val, val, k);
    if s[j].key <= k {
      assert s[j..][0] == s[j] && s[j..][1..] == s[j + 1..];
      ValueAtFirstPassed(s[j..], ValueAt(s[..j], d, k), val, k);
    } else {
      ValueAtCut(s[j + 1..], 0, s[j].val, k);
    }
  }

  /**
   Some key stored strictly between keyBegin and keyEnd: the tail starts with
   the value in force just before keyEnd, then the original from the next breakpoint.
   */
  lemma TailValueCarry<V>(s: seq<Entry<V>>, d: V, keyBegin: int, keyEnd: int, val: V, k: int, j: nat)
    requires Sorted(s)
    requires keyBegin < keyEnd <= k
    requires j == LowerBound(s, keyEnd) && j < |s| && keyEnd < s[j].key && UpperBound(s, keyBegin) < j
    ensures ValueAt(SpliceTail(s, keyBegin, keyEnd), val, k) == ValueAt(s[j..], ValueAt(s[..j], d, k), k)
  {
    var tail := SpliceTail(s, keyBegin, keyEnd);
    assert tail[1..] == s[j..];
    ValueAtFirstPassed(tail, val, val, k);
    assert s[..j][j - 1] == s[j - 1];
    ValueAtLast(s[..j], d, k);
  }

  /** Splice, read with the default `d`, gives AssignedValue at every key. */
  lemma SpliceValue<V>(s: seq<Entry<V>>, d: V, keyBegin: int, keyEnd: int, val: V, k: int)
    requires Sorted(s)
    requires keyBegin < keyEnd
    ensures ValueAt(Splice(s, keyBegin, keyEnd, val), d, k)
            == AssignedValue(IntervalMap(d, s), keyBegin, keyEnd, val, k)
  {
    var p := LowerBound(s, keyBegin);
    var tail := SpliceTail(s, keyBegin, keyEnd);
    SpliceShape(s, keyBegin, keyEnd, val);
    BelowLowerBound(s, keyBegin);
    ShapeValue(s[..p], Entry(keyBegin, val), tail, d, k);
    LookupIsValueAt(IntervalMap(d, s), k);
    if k < keyBegin {
      ValueAtCut(s, p, d, k);
    } else if k < keyEnd {
      ValueAtAllAbove(tail, val, k);
    } else {
      SpliceValueAbove(s, d, keyBegin, keyEnd, val, k);
    }
  }

  /** operator[] after assign agrees with AssignedValue at every key. */
  lemma AssignLookup<V>(m: IntervalMap<V>, keyBegin: int, keyEnd: int, val: V, k: int)
    requires Sorted(m.entries)
    ensures Lookup(Assign(m, keyBegin, keyEnd, val), k) == AssignedValue(m, keyBegin, keyEnd, val, k)
  {
    if keyBegin < keyEnd {
      var t := Splice(m.entries, keyBegin, keyEnd, val);
      SpliceSorted(m.entries, keyBegin, keyEnd, val);
      TidyKeepsLookup(t, m.valBegin, k);
      LookupIsValueAt(IntervalMap(m.valBegin, t), k);
      SpliceValue(m.entries, m.valBegin, keyBegin, keyEnd, val, k);
    }
  }

  /**
   Lines 31-53 leave keyBegin as the only stored key in [keyBegin, keyEnd):
   no key lies strictly between the two bounds afterwards, clean-ups included.
   */
  lemma NoKeyBetweenAfterAssign<V>(m: IntervalMap<V>, keyBegin: int, keyEnd: int, val: V)
    requires Sorted(m.entries) && keyBegin < keyEnd
    ensures !HasKeyBetween(Assign(m, keyBegin, keyEnd, val).entries, keyBegin, keyEnd)
  {
    var s := m.entries;
    var t := s[..LowerBound(s, keyBegin)] + [Entry(keyBegin, val)] + SpliceTail(s, keyBegin, keyEnd);
    AssignShape(m, keyBegin, keyEnd, val);
    PlacedOutside(s, keyBegin, keyEnd, val, t);
    TidyOutside(t, m.valBegin, keyBegin, keyEnd);
  }

  /** Before the clean-ups, every key is at most keyBegin or at least keyEnd. */
  lemma PlacedOutside<V>(s: seq<Entry<V>>, keyBegin: int, keyEnd: int, val: V, t: seq<Entry<V>>)
    requires Sorted(s) && keyBegin < keyEnd
    requires t == s[..LowerBound(s, keyBegin)] + [Entry(keyBegin, val)] + SpliceTail(s, keyBegin, keyEnd)
    ensures forall i | 0 <= i < |t| :: t[i].key <= keyBegin || keyEnd <= t[i].key
  {
    var p := LowerBound(s, keyBegin);
    var tail := SpliceTail(s, keyBegin, keyEnd);
    BelowLowerBound(s, keyBegin);
    forall i | 0 <= i < |t| ensures t[i].key <= keyBegin || keyEnd <= t[i].key {
      if i < p {
        assert t[i] == s[..p][i];
      } else if p < i {
        assert t[i] == tail[i - p - 1];
      }
    }
  }

  /** The clean-ups only drop breakpoints, so they add no key to an interval. */
  lemma TidyOutside<V>(t: seq<Entry<V>>, d: V, lo: int, hi: int)
    requires Sorted(t)
    requires forall i | 0 <= i < |t| :: t[i].key <= lo || hi <= t[i].key
    ensures !HasKeyBetween(Tidy(t, d), lo, hi)
  {
    var stripped := StripDefault(t, d);
    var r := MergeLast(stripped);
    OutsideKept(t, stripped, |t| - |stripped|, lo, hi);
    OutsideKept(stripped, r, 0, lo, hi);
    assert r == Tidy(t, d);
  }

  /** A run of consecutive breakpoints keeps the keys of the whole out of [lo, hi]. */
  lemma OutsideKept<V>(t: seq<Entry<V>>, r: seq<Entry<V>>, c: nat, lo: int, hi: int)
    requires c + |r| <= |t| && r == t[c..c + |r|]
    requires forall i | 0 <= i < |t| :: t[i].key <= lo || hi <= t[i].key
    ensures forall i | 0 <= i < |r| :: r[i].key <= lo || hi <= r[i].key
  {
    forall i | 0 <= i < |r| ensures r[i].key <= lo || hi <= r[i].key {
      assert r[i] == t[c + i];
    }
  }

  /** Every key of [keyBegin, keyEnd) reads `val` afterwards. */
  lemma AssignInside<V>(m: IntervalMap<V>, keyBegin: int, keyEnd: int, val: V, k: int)
    requires Sorted(m.entries)
    requires keyBegin <= k < keyEnd
    ensures Lookup(Assign(m, keyBegin, keyEnd, val), k) == val
  {
    AssignLookup(m, keyBegin, keyEnd, val, k);
  }

  /** Keys below keyBegin keep their value. */
  lemma AssignBelow<V>(m: IntervalMap<V>, keyBegin: int, keyEnd: int, val: V, k: int)
    requires Sorted(m.entries)
    requires k < keyBegin
    ensures Lookup(Assign(m, keyBegin, keyEnd, val), k) == Lookup(m, k)
  {
    AssignLookup(m, keyBegin, keyEnd, val, k);
  }

  /** Keys at or above a stored key that is itself at or above keyEnd keep their value. */
  lemma AssignPastStoredKey<V>(m: IntervalMap<V>, keyBegin: int, keyEnd: int, val: V, i: nat, k: int)
    requires Sorted(m.entries)
    requires i < |m.entries| && keyEnd <= m.entries[i].key <= k
    ensures Lookup(Assign(m, keyBegin, keyEnd, val), k) == Lookup(m, k)
  {
    AssignLookup(m, keyBegin, keyEnd, val, k);
    AssignedPastStoredKey(m, keyBegin, keyEnd, val, i, k);
  }

  lemma AssignedPastStoredKey<V>(m: IntervalMap<V>, keyBegin: int, keyEnd: int, val: V, i: nat, k: int)
    requires Sorted(m.entries)
    requires i < |m.entries| && keyEnd <= m.entries[i].key <= k
    ensures AssignedValue(m, keyBegin, keyEnd, val, k) == Lookup(m, k)
  {
    var j := LowerBound(m.entries, keyEnd);
    assert j <= i;
    assert j < |m.entries| ==> m.entries[j].key <= m.entries[i].key;
  }

  /**
   With a stored key `i` strictly inside (keyBegin, keyEnd) and a stored key
   `n` at or above keyEnd, every key at or above keyEnd keeps its value: the
   breakpoint inserted at keyEnd carries the value in force just before keyEnd.
   */
  lemma AssignCarriesValue<V>(m: IntervalMap<V>, keyBegin: int, keyEnd: int, val: V, i: nat, n: nat, k: int)
    requires Sorted(m.entries)
    requires i < |m.entries| && keyBegin < m.entries[i].key < keyEnd
    requires n < |m.entries| && keyEnd <= m.entries[n].key
    requires keyEnd <= k
    ensures Lookup(Assign(m, keyBegin, keyEnd, val), k) == Lookup(m, k)
  {
    AssignLookup(m, keyBegin, keyEnd, val, k);
    AssignedCarriesValue(m, keyBegin, keyEnd, val, i, n, k);
  }

  lemma AssignedCarriesValue<V>(m: IntervalMap<V>, keyBegin: int, keyEnd: int, val: V, i: nat, n: nat, k: int)
    requires Sorted(m.entries)
    requires i < |m.entries| && keyBegin < m.entries[i].key < keyEnd
    requires n < |m.entries| && keyEnd <= m.entries[n].key
    requires keyEnd <= k
    ensures AssignedValue(m, keyBegin, keyEnd, val, k) == Lookup(m, k)
  {
    assert HasKeyBetween(m.entries, keyBegin, keyEnd);
    var j := LowerBound(m.entries, keyEnd);
    assert j <= n;
  }

  /**
   With no stored key at or above keyEnd, `val` is read at every key from
   keyBegin upward, keyEnd and beyond included.
   */
  lemma AssignRunsToEnd<V>(m: IntervalMap<V>, keyBegin: int, keyEnd: int, val: V, k: int)
    requires Sorted(m.entries)
    requires keyBegin < keyEnd && keyBegin <= k
    requires forall i | 0 <= i < |m.entries| :: m.entries[i].key < keyEnd
    ensures Lookup(Assign(m, keyBegin, keyEnd, val), k) == val
  {
    AssignLookup(m, keyBegin, keyEnd, val, k);
  }

  /**
   With no stored key in (keyBegin, keyEnd] and a next stored key `i` above
   keyEnd, every key from keyEnd up to that next key reads the next key's
   value, whatever was read there before.
   */
  lemma AssignPullsNextBack<V>(m: IntervalMap<V>, keyBegin: int, keyEnd: int, val: V, i: nat, k: int)
    requires Sorted(m.entries)
    requires keyBegin < keyEnd
    requires i < |m.entries| && keyEnd < m.entries[i].key
    requires forall l | 0 <= l < i :: m.entries[l].key <= keyBegin
    requires keyEnd <= k < m.entries[i].key
    ensures Lookup(Assign(m, keyBegin, keyEnd, val), k) == m.entries[i].val
  {
    AssignLookup(m, keyBegin, keyEnd, val, k);
    AssignedPullsNextBack(m, keyBegin, keyEnd, val, i, k);
  }

  lemma AssignedPullsNextBack<V>(m: IntervalMap<V>, keyBegin: int, keyEnd: int, val: V, i: nat, k: int)
    requires Sorted(m.entries)
    requires keyBegin < keyEnd
    requires i < |m.entries| && keyEnd < m.entries[i].key
    requires forall l | 0 <= l < i :: m.entries[l].key <= keyBegin
    requires keyEnd <= k < m.entries[i].key
    ensures AssignedValue(m, keyBegin, keyEnd, val, k) == m.entries[i].val
  {
    var s := m.entries;
    LowerBoundUnique(s, keyEnd, i);
    assert !HasKeyBetween(s, keyBegin, keyEnd) by {
      forall l | 0 <= l < |s| ensures !(keyBegin < s[l].key < keyEnd) {
        if i <= l {
          assert s[i].key <= s[l].key;
        }
      }
    }
  }
}
