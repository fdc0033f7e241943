/**
 The string operations that the playlist printers and parsers share: trimming, searching,
 line splitting and decimal numerals, with the laws that their round trips need.
 */
module Text {

  /** White space as the standard library trims it. */
  predicate IsSpace(c: char)
  {
    || '\t' <= c <= '\r' || c == ' ' || c == '\U{0085}' || c == '\U{00A0}' || c == '\U{1680}'
    || '\U{2000}' <= c <= '\U{200A}' || c == '\U{2028}' || c == '\U{2029}' || c == '\U{202F}' || c == '\U{205F}' || c == '\U{3000}'
  }

  predicate IsDigit(c: char) { '0' <= c <= '9' }

  predicate AllDigits(s: string) { forall i :: 0 <= i < |s| ==> IsDigit(s[i]) }

  function TrimLeft(s: string): string { if s != [] && IsSpace(s[0]) then TrimLeft(s[1..]) else s }

  function TrimRight(s: string): string { if s != [] && IsSpace(s[|s| - 1]) then TrimRight(s[..|s| - 1]) else s }

  function Trim(s: string): string { TrimRight(TrimLeft(s)) }

  /** Nothing to trim. */
  predicate Trimmed(s: string) { s == [] || (!IsSpace(s[0]) && !IsSpace(s[|s| - 1])) }

  /** Position of the first c, or -1. */
  function IndexOf(s: string, c: char): (r: int)
    ensures -1 <= r < |s|
    ensures r < 0 <==> c !in s
    ensures r >= 0 ==> s[r] == c && c !in s[..r]
  {
    if s == [] then -1
    else if s[0] == c then 0
    else var i := IndexOf(s[1..], c);
         if i < 0 then -1 else assert s[..i + 1] == [s[0]] + s[1..][..i]; i + 1
  }

  /** The first c is where nothing before it is c. */
  lemma FirstIndex(s: string, c: char, i: int)
    requires 0 <= i < |s| && s[i] == c && c !in s[..i]
    ensures IndexOf(s, c) == i
  {
    var r := IndexOf(s, c);
    assert forall k :: 0 <= k < i ==> s[..i][k] == s[k];
    assert r >= 0 ==> forall k :: 0 <= k < r ==> s[..r][k] == s[k];
  }

  lemma FirstIndexAfter(a: string, c: char, b: string)
    requires c !in a
    ensures IndexOf(a + [c] + b, c) == |a|
  {
    assert (a + [c] + b)[..|a|] == a;
    FirstIndex(a + [c] + b, c, |a|);
  }

  lemma {:induction false} TrimLeftCuts(s: string) returns (a: string)
    ensures s == a + TrimLeft(s) && (forall c :: c in a ==> IsSpace(c)) && (TrimLeft(s) == [] || !IsSpace(TrimLeft(s)[0]))
  {
    if s != [] && IsSpace(s[0]) {
      a := TrimLeftCuts(s[1..]);
      a := [s[0]] + a;
    } else {
      a := [];
    }
  }

  lemma {:induction false} TrimRightCuts(s: string) returns (b: string)
    ensures s == TrimRight(s) + b && (forall c :: c in b ==> IsSpace(c))
    ensures TrimRight(s) == [] || (!IsSpace(TrimRight(s)[|TrimRight(s)| - 1]) && TrimRight(s)[0] == s[0])
  {
    if s != [] && IsSpace(s[|s| - 1]) {
      b := TrimRightCuts(s[..|s| - 1]);
      assert s == s[..|s| - 1] + [s[|s| - 1]];
      b := b + [s[|s| - 1]];
    } else {
      b := [];
    }
  }

  /** Trimming takes white space off both ends, and leaves none there. */
  lemma TrimExactly(s: string) returns (a: string, b: string)
    ensures s == a + Trim(s) + b && Trimmed(Trim(s))
    ensures (forall c :: c in a ==> IsSpace(c)) && forall c :: c in b ==> IsSpace(c)
  {
    a := TrimLeftCuts(s);
    b := TrimRightCuts(TrimLeft(s));
  }

  lemma TrimOfTrimmed(s: string)
    requires Trimmed(s)
    ensures Trim(s) == TrimLeft(s) == s
  {
  }

  // ---------------------------------------------------------------- lines

  function DropCr(s: string): string { if s != [] && s[|s| - 1] == '\r' then s[..|s| - 1] else s }

  /** The lines that a scanner yields: ends removed, a last line without an end included. */
  function Lines(s: string): seq<string>
    decreases |s|
  {
    if s == [] then []
    else var i := IndexOf(s, '\n');
         if i < 0 then [DropCr(s)] else [DropCr(s[..i])] + Lines(s[i + 1..])
  }

  function Unlines(ls: seq<string>): string
  {
    if ls == [] then "" else Unlines(ls[..|ls| - 1]) + ls[|ls| - 1] + "\n"
  }

  lemma UnlinesSnoc(ls: seq<string>, l: string)
    ensures Unlines(ls + [l]) == Unlines(ls) + l + "\n"
  {
    assert (ls + [l])[..|ls|] == ls;
  }

  /** A line that a scanner gives back as it was written. */
  predicate PlainLine(s: string) { '\n' !in s && (s == [] || s[|s| - 1] != '\r') }

  lemma {:induction false} UnlinesCons(l: string, ls: seq<string>)
    ensures Unlines([l] + ls) == l + "\n" + Unlines(ls)
  {
    if ls == [] {
      assert [l] + ls == [l];
      assert Unlines([l]) == Unlines([]) + l + "\n";
    } else {
      var n := |ls| - 1;
      assert ([l] + ls)[..n + 1] == [l] + ls[..n];
      UnlinesCons(l, ls[..n]);
    }
  }

  /** Written lines are read back. */
  lemma {:induction false} LinesOfUnlines(ls: seq<string>)
    requires forall i :: 0 <= i < |ls| ==> PlainLine(ls[i])
    ensures Lines(Unlines(ls)) == ls
  {
    if ls != [] {
      var l, rest := ls[0], ls[1..];
      assert ls == [l] + rest;
      UnlinesCons(l, rest);
      var s := l + "\n" + Unlines(rest);
      FirstIndexAfter(l, '\n', Unlines(rest));
      assert s[..|l|] == l && s[|l| + 1..] == Unlines(rest);
      LinesOfUnlines(rest);
    }
  }

  /** A carriage return before the end of a line belongs to the end. */
  lemma CrLfRead(l: string, rest: string)
    requires PlainLine(l)
    ensures Lines((l + "\r") + ['\n'] + rest) == [l] + Lines(rest)
  {
    LineRead(l + "\r", rest);
    assert (l + "\r")[..|l|] == l;
  }

  lemma LineRead(m: string, rest: string)
    requires '\n' !in m
    ensures Lines(m + ['\n'] + rest) == [DropCr(m)] + Lines(rest)
  {
    var s := m + ['\n'] + rest;
    FirstIndexAfter(m, '\n', rest);
    assert s[..|m|] == m && s[|m| + 1..] == rest;
  }

  // ---------------------------------------------------------------- numerals

  function Digit(d: nat): (c: char)
    requires d < 10
    ensures IsDigit(c) && c as int - '0' as int == d
  {
    ('0' as int + d) as char
  }

  function Value(s: string): nat
    requires AllDigits(s)
  {
    if s == [] then 0 else Value(s[..|s| - 1]) * 10 + (s[|s| - 1] as int - '0' as int)
  }

  /** The decimal numeral of n. */
  function Numeral(n: nat): (s: string)
    ensures AllDigits(s) && s != [] && Value(s) == n
    ensures n > 0 ==> s[0] != '0'
  {
    if n < 10 then
      var s := [Digit(n)];
      assert s[..0] == [] && Value(s[..0]) == 0;
      s
    else
      var head := Numeral(n / 10);
      var s := head + [Digit(n % 10)];
      assert s[..|s| - 1] == head;
      s
  }

  /** %d */
  function Printed(n: int): string { if n < 0 then "-" + Numeral(-n) else Numeral(n) }

  datatype Number = Number(value: int, ok: bool)

  const MAX := 0x7FFF_FFFF_FFFF_FFFF

  /** Atoi: an optional sign and decimal digits; out of range it saturates and reports an error, otherwise 0 and an error. */
  function Atoi(s: string): Number
  {
    var signed := s != [] && (s[0] == '-' || s[0] == '+');
    var body := if signed then s[1..] else s;
    if body == [] || !AllDigits(body) then Number(0, false)
    else
      var v: int := if signed && s[0] == '-' then 0 - Value(body) else Value(body);
      if v > MAX then Number(MAX, false) else if v < -MAX - 1 then Number(-MAX - 1, false) else Number(v, true)
  }

  /** A printed integer is read back. */
  lemma AtoiOfPrinted(n: int)
    requires -MAX - 1 <= n <= MAX
    ensures Atoi(Printed(n)) == Number(n, true)
  {
    if n < 0 {
      assert Printed(n)[1..] == Numeral(-n);
    } else {
      assert IsDigit(Numeral(n)[0]);
    }
  }

  /** A plus sign is read over; a numeral out of range gives the nearest bound and an error, other text 0 and an error. */
  lemma AtoiExactly(s: string)
    requires s != ""
    ensures AllDigits(s) ==>
              && Atoi(s) == Atoi("+" + s) == (if Value(s) <= MAX then Number(Value(s), true) else Number(MAX, false))
              && Atoi("-" + s) == if Value(s) <= MAX + 1 then Number(0 - Value(s), true) else Number(-MAX - 1, false)
    ensures !AllDigits(s) && s[0] != '+' && s[0] != '-' ==> Atoi(s) == Atoi("+" + s) == Atoi("-" + s) == Number(0, false)
  {
    assert ("+" + s)[1..] == s && ("-" + s)[1..] == s;
    assert AllDigits(s) ==> IsDigit(s[0]);
  }

  lemma PrintedChars(n: int)
    ensures Printed(n) != [] && forall c :: c in Printed(n) ==> IsDigit(c) || c == '-'
  {
    if n < 0 {
      assert forall c :: c in Numeral(-n) ==> IsDigit(c);
    }
  }

  lemma PrintedInjective(m: int, n: int)
    requires Printed(m) == Printed(n)
    ensures m == n
  {
    if m < 0 && n < 0 {
      assert Printed(m)[1..] == Printed(n)[1..];
    } else {
      assert m >= 0 ==> IsDigit(Printed(m)[0]);
      assert n >= 0 ==> IsDigit(Printed(n)[0]);
    }
  }
}
