/**
 to_str for interval_map<int, char>, the instance the file's tests use: one
 line "key->value\n" per stored breakpoint, in key order, the key written in
 decimal as std::stringstream writes an int and the value as the char itself.
 A parser for that text is the partner of the renderer: it reads every
 rendering back to the breakpoints it came from.
 */
module Render {
  import opened Breakpoints
  import opened IntervalMaps

  datatype Option<T> = None | Some(value: T)

  predicate IsDigit(c: char) {
    '0' <= c <= '9'
  }

  /** The decimal digit for 0 <= d < 10. */
  function DigitChar(d: nat): (c: char)
    requires d < 10
    ensures IsDigit(c) && c as int - '0' as int == d
  {
    ['0', '1', '2', '3', '4', '5', '6', '7', '8', '9'][d]
  }

  /** The value of a decimal digit; DigitChar's inverse. */
  function DigitValue(c: char): (d: nat)
    requires IsDigit(c)
    ensures d < 10 && DigitChar(d) == c
  {
    (c as int - '0' as int) as nat
  }

  /** `n` in decimal without leading zeros, as `ss << n` writes a non-negative int. */
  function NatToDec(n: nat): (r: string)
    ensures |r| > 0
    ensures forall i | 0 <= i < |r| :: IsDigit(r[i])
    ensures |r| > 1 ==> r[0] != '0'
  {
    if n < 10 then [DigitChar(n)] else NatToDec(n / 10) + [DigitChar(n % 10)]
  }

  /** `ss << i` for an int: a minus sign in front of a negative value. */
  function IntToDec(i: int): (r: string)
    ensures |r| > 0
    ensures i < 0 <==> r[0] == '-'
  {
    if i < 0 then "-" + NatToDec(-i) else NatToDec(i)
  }

  /** The line to_str writes for one breakpoint (line 92). */
  function EntryLine(e: Entry<char>): (r: string)
    ensures |r| >= 5 && r[|r| - 1] == '\n' && r[|r| - 2] == e.val
  {
    IntToDec(e.key) + "->" + [e.val] + "\n"
  }

  /** The lines of all breakpoints, in key order (lines 91-93). */
  function RenderEntries(s: seq<Entry<char>>): (r: string)
    ensures |r| >= 5 * |s|
  {
    if |s| == 0 then "" else EntryLine(s[0]) + RenderEntries(s[1..])
  }

  /** The loop writes runs of breakpoints one after the other: the text of a + b is a's text, then b's. */
  lemma {:induction false} RenderEntriesConcat(a: seq<Entry<char>>, b: seq<Entry<char>>)
    ensures RenderEntries(a + b) == RenderEntries(a) + RenderEntries(b)
  {
    if |a| == 0 {
      assert a + b == b;
    } else {
      assert (a + b)[1..] == a[1..] + b;
      RenderEntriesConcat(a[1..], b);
    }
  }

  /** to_str (lines 89-95). The default value is not written. */
  function ToStr(m: IntervalMap<char>): (r: string)
    ensures r == "" <==> |m.entries| == 0
  {
    RenderEntries(m.entries)
  }

  /** The number read from a run of decimal digits. */
  function DecValue(ds: string): nat
    requires forall i | 0 <= i < |ds| :: IsDigit(ds[i])
  {
    if |ds| == 0 then 0 else 10 * DecValue(ds[..|ds| - 1]) + DigitValue(ds[|ds| - 1])
  }

  /** The length of the run of digits `s` starts with. */
  function DigitRun(s: string): (n: nat)
    ensures n <= |s|
    ensures forall i | 0 <= i < n :: IsDigit(s[i])
    ensures n < |s| ==> !IsDigit(s[n])
  {
    if |s| == 0 || !IsDigit(s[0]) then 0 else 1 + DigitRun(s[1..])
  }

  /** Reads a non-empty run of digits off the front of `s`, with what follows it. */
  function ParseNat(s: string): (r: Option<(nat, string)>)
    ensures r.Some? ==> |r.value.1| < |s|
  {
    var n := DigitRun(s);
    if n == 0 then None else Some((DecValue(s[..n]), s[n..]))
  }

  /** Reads an optionally negative decimal number off the front of `s`. */
  function ParseInt(s: string): (r: Option<(int, string)>)
    ensures r.Some? ==> |r.value.1| < |s|
  {
    if |s| > 0 && s[0] == '-' then
      match ParseNat(s[1..])
      case None => None
      case Some((v, rest)) => Some((-(v as int), rest))
    else
      match ParseNat(s)
      case None => None
      case Some((v, rest)) => Some((v as int, rest))
  }

  /** Reads one "key->value\n" line off the front of `s`, with what follows it. */
  function ParseLine(s: string): (r: Option<(Entry<char>, string)>)
    ensures r.Some? ==> |r.value.1| < |s|
  {
    match ParseInt(s)
    case None => None
    case Some((k, u)) =>
      if |u| < 4 || u[0] != '-' || u[1] != '>' || u[3] != '\n' then None
      else Some((Entry(k, u[2]), u[4..]))
  }

  /** Reads the whole text as breakpoint lines; None when some line is malformed. */
  function ParseEntries(s: string): Option<seq<Entry<char>>>
    decreases |s|
  {
    if |s| == 0 then
      Some([])
    else
      match ParseLine(s)
      case None => None
      case Some((e, rest)) =>
        match ParseEntries(rest)
        case None => None
        case Some(es) => Some([e] + es)
  }

  /** Decimal digits read back to the number they were written from. */
  lemma {:induction false} DecValueNatToDec(n: nat)
    ensures DecValue(NatToDec(n)) == n
  {
    if n >= 10 {
      var r := NatToDec(n);
      DecValueNatToDec(n / 10);
      assert r[..|r| - 1] == NatToDec(n / 10);
    }
  }

  /** The digit run of a decimal numeral followed by a non-digit is the numeral. */
  lemma {:induction false} DigitRunPrefix(ds: string, rest: string)
    requires forall i | 0 <= i < |ds| :: IsDigit(ds[i])
    requires |rest| > 0 && !IsDigit(rest[0])
    ensures DigitRun(ds + rest) == |ds|
  {
    if |ds| > 0 {
      assert (ds + rest)[1..] == ds[1..] + rest;
      DigitRunPrefix(ds[1..], rest);
    } else {
      assert ds + rest == rest;
    }
  }

  /** A numeral followed by a non-digit reads back as its number. */
  lemma ParseNatDec(n: nat, rest: string)
    requires |rest| > 0 && !IsDigit(rest[0])
    ensures ParseNat(NatToDec(n) + rest) == Some((n, rest))
  {
    var ds := NatToDec(n);
    DigitRunPrefix(ds, rest);
    assert (ds + rest)[..|ds|] == ds;
    assert (ds + rest)[|ds|..] == rest;
    DecValueNatToDec(n);
  }

  /** A minus sign in front of a number negates what is read. */
  lemma ParseIntMinus(t: string, n: nat, rest: string)
    requires ParseNat(t) == Some((n, rest))
    ensures ParseInt("-" + t) == Some((-(n as int), rest))
  {
    assert ("-" + t)[1..] == t;
  }

  /** A key written as to_str writes it, followed by a non-digit, reads back as the key. */
  lemma ParseIntDec(i: int, rest: string)
    requires |rest| > 0 && !IsDigit(rest[0])
    ensures ParseInt(IntToDec(i) + rest) == Some((i, rest))
  {
    if i < 0 {
      ParseNegDec(i, -i, NatToDec(-i), rest);
    } else {
      ParseNatDec(i, rest);
      assert IntToDec(i) == NatToDec(i);
    }
  }

  /** Core of ParseIntDec for a negative key i == -n, with its digits named. */
  lemma ParseNegDec(i: int, n: nat, ds: string, rest: string)
    requires i == -(n as int) && n > 0 && ds == NatToDec(n)
    requires |rest| > 0 && !IsDigit(rest[0])
    ensures ParseInt(IntToDec(i) + rest) == Some((i, rest))
  {
    NegDecText(i, n, ds, rest);
    ParseNatDec(n, rest);
    ParseIntMinus(ds + rest, n, rest);
  }

  /** A negative key is written as a minus sign and the digits of its magnitude. */
  lemma NegDecText(i: int, n: nat, ds: string, rest: string)
    requires i == -(n as int) && n > 0 && ds == NatToDec(n)
    ensures IntToDec(i) + rest == "-" + (ds + rest)
  {
  }

  /** One rendered line reads back as the breakpoint it came from. */
  lemma ParseEntryLine(e: Entry<char>, rest: string)
    ensures ParseLine(EntryLine(e) + rest) == Some((e, rest))
  {
    var tail := "->" + [e.val] + "\n" + rest;
    assert EntryLine(e) + rest == IntToDec(e.key) + tail;
    ParseIntDec(e.key, tail);
    assert tail[4..] == rest;
  }

  /** Every rendering of breakpoints reads back as those breakpoints. */
  lemma {:induction false} ParseRender(s: seq<Entry<char>>)
    ensures ParseEntries(RenderEntries(s)) == Some(s)
  {
    if |s| > 0 {
      ParseEntryLine(s[0], RenderEntries(s[1..]));
      ParseRender(s[1..]);
      assert [s[0]] + s[1..] == s;
    }
  }

  /** to_str loses nothing but the default: equal texts mean equal breakpoints. */
  lemma ToStrInjective(m1: IntervalMap<char>, m2: IntervalMap<char>)
    requires ToStr(m1) == ToStr(m2)
    ensures m1.entries == m2.entries
  {
    ParseRender(m1.entries);
    ParseRender(m2.entries);
  }
}
