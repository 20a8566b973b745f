/** Small facts about slicing and splicing sequences, kept apart so that their
    proofs do not see the ordering of breakpoints. */
module SeqFacts {

  /** A sequence of at least two elements, seen as the part before its last two. */
  lemma LastTwo<T>(x: seq<T>)
    requires |x| >= 2
    ensures x == x[..|x| - 2] + [x[|x| - 2], x[|x| - 1]]
    ensures x[..|x| - 1] == x[..|x| - 2] + [x[|x| - 2]]
  {
  }

  /**
   `w` is `x` with the elements from `p` up to `a` replaced by the single `y`:
   its prefix up to and including `y`, and its suffix from `e`, which lies as
   far after `y` as `j` lies after `a`, with the element just before it.
   */
  lemma Replaced<T>(w: seq<T>, x: seq<T>, p: nat, y: T, a: nat, e: nat, j: nat)
    requires p <= a <= j <= |x| && e == p + 1 + (j - a)
    requires w == x[..p] + [y] + x[a..]
    ensures |w| == p + 1 + (|x| - a)
    ensures w[..p + 1] == x[..p] + [y]
    ensures w[e..] == x[j..]
    ensures a < j ==> w[e - 1] == x[j - 1]
  {
    assert w[..p + 1] == x[..p] + [y];
    assert w[e..] == x[j..];
  }

  /** Inserting `y` at `e` and then erasing the element after it replaces x[e] by `y`. */
  lemma InsertThenEraseNext<T>(x: seq<T>, e: nat, y: T)
    requires e < |x|
    ensures var ins := x[..e] + [y] + x[e..];
            ins[..e + 1] + ins[e + 2..] == x[..e] + [y] + x[e + 1..]
  {
    var ins := x[..e] + [y] + x[e..];
    assert ins[..e + 1] == x[..e] + [y];
    assert ins[e + 2..] == x[e + 1..];
  }

  /** Around an element `y` placed at position `e`: what comes before `b + 1 <= e`, and what follows from `e`. */
  lemma AroundPlaced<T>(w: seq<T>, x: seq<T>, e: nat, y: T, rest: seq<T>, b: nat)
    requires b < e <= |x|
    requires w == x[..e] + [y] + rest
    ensures w[..b + 1] == x[..b + 1]
    ensures w[e..] == [y] + rest
  {
  }

  /** Line 53's erase, once the part up to `b` and the part from `e` are known. */
  lemma Reassemble<T>(t: seq<T>, w: seq<T>, s: seq<T>, b: nat, e: nat, j: nat, x: T, tail: seq<T>)
    requires b < e <= |w| && b <= |s|
    requires t == w[..b + 1] + w[e..]
    requires w[..b + 1] == s[..b] + [x]
    requires w[e..] == tail
    ensures t == s[..b] + [x] + tail
  {
  }
}
