/**
 The address literals of the request guard: one to four parts, each decimal, octal or
 hexadecimal, where the last part fills the octets that are missing.
 */
module Ipv4 {
  import opened Text

  datatype Option<T> = None | Some(value: T)

  datatype Quad = Quad(a: int, b: int, c: int, d: int)

  const MAX32 := 0xFFFF_FFFF

  // ---------------------------------------------------------------- one part

  function DigitOf(c: char): int
  {
    if '0' <= c <= '9' then c as int - '0' as int
    else if 'a' <= c <= 'f' then c as int - 'a' as int + 10
    else if 'A' <= c <= 'F' then c as int - 'A' as int + 10
    else -1
  }

  /** Only digits of the base. */
  predicate InBase(s: string, base: nat) { forall i :: 0 <= i < |s| ==> 0 <= DigitOf(s[i]) < base }

  function ValueIn(s: string, base: nat): nat
    requires InBase(s, base)
  {
    if s == "" then 0 else ValueIn(s[..|s| - 1], base) * base + DigitOf(s[|s| - 1])
  }

  predicate IsHex(s: string) { |s| > 2 && s[0] == '0' && (s[1] == 'x' || s[1] == 'X') && InBase(s[2..], 16) }

  predicate IsOctal(s: string) { |s| > 1 && s[0] == '0' && InBase(s[1..], 8) }

  predicate IsDecimal(s: string) { s != "" && InBase(s, 10) }

  function PartOf(s: string): (r: Option<nat>)
  {
    if IsHex(s) then Some(ValueIn(s[2..], 16))
    else if IsOctal(s) then Some(ValueIn(s[1..], 8))
    else if IsDecimal(s) then Some(ValueIn(s, 10))
    else None
  }

  // ---------------------------------------------------------------- packing

  function Octets(n: int): Quad
    requires 0 <= n <= MAX32
  {
    Quad(n / 0x100_0000, n / 0x1_0000 % 256, n / 256 % 256, n % 256)
  }

  /** The value of four octets, the first one highest. */
  function Number(q: Quad): int { q.a * 0x100_0000 + q.b * 0x1_0000 + q.c * 256 + q.d }

  predicate IsOctet(n: int) { 0 <= n < 256 }

  predicate IsQuad(q: Quad) { IsOctet(q.a) && IsOctet(q.b) && IsOctet(q.c) && IsOctet(q.d) }

  /** Leading octets, folded into one number. */
  function Folded(head: seq<nat>): nat { if head == [] then 0 else Folded(head[..|head| - 1]) * 256 + head[|head| - 1] }

  /** The weight of the octets that n parts leave to the last one. */
  function Room(n: int): (r: int)
    ensures r > 0
  {
    if n == 1 then 0x1_0000_0000 else if n == 2 then 0x100_0000 else if n == 3 then 0x1_0000 else 256
  }

  function Packed(nums: seq<nat>): Option<Quad>
  {
    var n := |nums|;
    if n < 1 || n > 4 then None
    else
      var head, last := nums[..n - 1], nums[n - 1];
      if (exists i :: 0 <= i < n - 1 && nums[i] > 255) || last >= Room(n) then None
      else
        var packed := Folded(head) * Room(n) + last;
        if packed > MAX32 then None else Some(Octets(packed))
  }

  // ---------------------------------------------------------------- the parts of a text

  function Split(s: string): (r: seq<string>)
    ensures r != []
    decreases |s|
  {
    var i := IndexOf(s, '.');
    if i < 0 then [s] else [s[..i]] + Split(s[i + 1..])
  }

  function PartsOf(parts: seq<string>): Option<seq<nat>>
  {
    if parts == [] then Some([])
    else
      var nums, p := PartsOf(parts[..|parts| - 1]), PartOf(parts[|parts| - 1]);
      if nums.Some? && p.Some? then Some(nums.value + [p.value]) else None
  }

  /** The canonical octets of a trimmed host, if it is an address literal. */
  function Canonical(h: string): Option<Quad>
  {
    if h == "" then None
    else if IsDecimal(h) then if ValueIn(h, 10) > MAX32 then None else Some(Octets(ValueIn(h, 10)))
    else if IsHex(h) then if ValueIn(h[2..], 16) > MAX32 then None else Some(Octets(ValueIn(h[2..], 16)))
    else
      var parts := Split(h);
      if |parts| > 4 then None
      else
        var nums := PartsOf(parts);
        if nums.None? then None else Packed(nums.value)
  }

  function Joined(parts: seq<string>): string
    requires parts != []
  {
    if |parts| == 1 then parts[0] else parts[0] + "." + Joined(parts[1..])
  }

  function Shown(q: Quad): string
    requires IsQuad(q)
  {
    Joined([Numeral(q.a), Numeral(q.b), Numeral(q.c), Numeral(q.d)])
  }

  method CanonicaliseIPv4(h: string) returns (r: Option<string>)
    ensures r == if Canonical(h).Some? then Some(Shown(Canonical(h).value)) else None
  {
    if h == "" {
      return None;
    }
    if IsDecimal(h) {
      var n := ValueIn(h, 10);
      if n > MAX32 {
        return None;
      }
      return Some(Shown(Octets(n)));
    }
    if IsHex(h) {
      var n := ValueIn(h[2..], 16);
      if n > MAX32 {
        return None;
      }
      return Some(Shown(Octets(n)));
    }
    var parts := Split(h);
    if |parts| > 4 {
      return None;
    }
    var nums := ParseParts(parts);
    if nums == None {
      return None;
    }
    var q := Packed(nums.value);
    if q == None {
      return None;
    }
    return Some(Shown(q.value));
  }

  method ParseParts(parts: seq<string>) returns (r: Option<seq<nat>>)
    ensures r == PartsOf(parts)
  {
    var nums: seq<nat> := [];
    for i := 0 to |parts|
      invariant PartsOf(parts[..i]) == Some(nums)
    {
      assert parts[..i + 1][..i] == parts[..i];
      var p := PartOf(parts[i]);
      if p == None {
        NoParts(parts, i + 1);
        return None;
      }
      nums := nums + [p.value];
    }
    assert parts[..|parts|] == parts;
    return Some(nums);
  }

  lemma {:induction false} NoParts(parts: seq<string>, i: nat)
    requires i <= |parts| && PartsOf(parts[..i]).None?
    ensures PartsOf(parts).None?
    decreases |parts|
  {
    if i < |parts| {
      assert parts[..|parts| - 1][..i] == parts[..i];
      NoParts(parts[..|parts| - 1], i);
    } else {
      assert parts[..i] == parts;
    }
  }

  // ---------------------------------------------------------------- what the octets mean

  /** The address that parts denote: leading parts are the top octets, the last part is all the rest. */
  function Denoted(nums: seq<nat>): int
    requires 1 <= |nums| <= 4
  {
    match |nums|
    case 1 => nums[0]
    case 2 => nums[0] * 0x100_0000 + nums[1]
    case 3 => nums[0] * 0x100_0000 + nums[1] * 0x1_0000 + nums[2]
    case _ => nums[0] * 0x100_0000 + nums[1] * 0x1_0000 + nums[2] * 256 + nums[3]
  }

  ghost predicate Fits(nums: seq<nat>)
  {
    1 <= |nums| <= 4 && nums[|nums| - 1] < Room(|nums|) && forall i :: 0 <= i < |nums| - 1 ==> nums[i] < 256
  }

  lemma OctetsSumUp(n: int)
    requires 0 <= n <= MAX32
    ensures IsQuad(Octets(n)) && Number(Octets(n)) == n
  {
    var x := n / 256;
    var y := x / 256;
    assert n == x * 256 + n % 256 && x == y * 256 + x % 256 && y == y / 256 * 256 + y % 256;
    assert y == n / 0x1_0000 && y / 256 == n / 0x100_0000;
  }

  lemma LastOctet(x: int, y: int, d: int, e: int)
    requires IsOctet(d) && IsOctet(e) && x * 256 + d == y * 256 + e
    ensures x == y && d == e
  {
  }

  lemma NumbersDistinct(p: Quad, q: Quad)
    requires IsQuad(p) && IsQuad(q) && Number(p) == Number(q)
    ensures p == q
  {
    LastOctet(p.a * 0x1_0000 + p.b * 256 + p.c, q.a * 0x1_0000 + q.b * 256 + q.c, p.d, q.d);
    LastOctet(p.a * 256 + p.b, q.a * 256 + q.b, p.c, q.c);
    LastOctet(p.a, q.a, p.b, q.b);
  }

  lemma FoldedSnoc(head: seq<nat>, n: nat)
    ensures Folded(head + [n]) == Folded(head) * 256 + n
  {
    assert (head + [n])[..|head|] == head;
  }

  lemma FoldedHead(nums: seq<nat>)
    requires Fits(nums)
    ensures Folded(nums[..|nums| - 1]) * Room(|nums|) + nums[|nums| - 1] == Denoted(nums) <= MAX32
  {
    var h := nums[..|nums| - 1];
    if |h| >= 1 {
      FoldedSnoc([], h[0]);
      assert [] + [h[0]] == h[..1];
    }
    if |h| >= 2 {
      FoldedSnoc(h[..1], h[1]);
      assert h[..1] + [h[1]] == h[..2];
    }
    if |h| == 3 {
      FoldedSnoc(h[..2], h[2]);
      assert h[..2] + [h[2]] == h;
    }
    assert h[..|h|] == h;
  }

  /** Parts are accepted exactly if they fit, and then denote the address of the octets; no later check refuses. */
  lemma PackedExactly(nums: seq<nat>)
    ensures Packed(nums).Some? <==> Fits(nums)
    ensures Fits(nums) ==> IsQuad(Packed(nums).value) && Number(Packed(nums).value) == Denoted(nums)
  {
    if Fits(nums) {
      FoldedHead(nums);
      OctetsSumUp(Denoted(nums));
    }
  }

  // ---------------------------------------------------------------- canonical forms are fixed points

  lemma {:induction false} SplitJoin(a: string, rest: string)
    requires '.' !in a
    ensures Split(a) == [a] && Split(a + "." + rest) == [a] + Split(rest)
  {
    FirstIndexAfter(a, '.', rest);
    assert (a + "." + rest)[..|a|] == a && (a + "." + rest)[|a| + 1..] == rest;
  }

  lemma {:induction false} DecimalValue(s: string)
    requires AllDigits(s)
    ensures InBase(s, 10) && ValueIn(s, 10) == Value(s)
  {
    if s != "" {
      DecimalValue(s[..|s| - 1]);
    }
  }

  lemma NumeralPart(n: nat)
    ensures PartOf(Numeral(n)) == Some(n) && '.' !in Numeral(n)
  {
    var s := Numeral(n);
    DecimalValue(s);
    assert |s| > 1 ==> IsDigit(s[1]);
    assert n == 0 ==> s == [Digit(0)];
  }

  lemma {:induction false} SplitJoined(parts: seq<string>)
    requires parts != [] && forall i :: 0 <= i < |parts| ==> '.' !in parts[i]
    ensures Split(Joined(parts)) == parts && (|parts| > 1 ==> '.' in Joined(parts))
  {
    if |parts| == 1 {
      SplitJoin(parts[0], "");
    } else {
      var a, rest := parts[0], parts[1..];
      SplitJoined(rest);
      SplitJoin(a, Joined(rest));
      DotBetween(a, Joined(rest));
      assert [a] + rest == parts;
    }
  }

  lemma DotBetween(a: string, b: string)
    ensures '.' in a + "." + b
  {
    assert (a + "." + b)[|a|] == '.';
  }

  lemma PartsSnoc(parts: seq<string>, nums: seq<nat>, s: string, n: nat)
    requires PartsOf(parts) == Some(nums) && PartOf(s) == Some(n)
    ensures PartsOf(parts + [s]) == Some(nums + [n])
  {
    assert (parts + [s])[..|parts|] == parts;
  }

  lemma FourParts(x: string, y: string, z: string, u: string, a: nat, b: nat, c: nat, d: nat)
    requires PartOf(x) == Some(a) && PartOf(y) == Some(b) && PartOf(z) == Some(c) && PartOf(u) == Some(d)
    ensures PartsOf([x, y, z, u]) == Some([a, b, c, d])
  {
    PartsSnoc([], [], x, a);
    PartsSnoc([] + [x], [] + [a], y, b);
    PartsSnoc([] + [x] + [y], [] + [a] + [b], z, c);
    PartsSnoc([] + [x] + [y] + [z], [] + [a] + [b] + [c], u, d);
    assert [] + [x] + [y] + [z] + [u] == [x, y, z, u] && [] + [a] + [b] + [c] + [d] == [a, b, c, d];
  }

  lemma NotOneNumber(h: string)
    requires '.' in h
    ensures !IsDecimal(h) && !IsHex(h)
  {
    var i :| 0 <= i < |h| && h[i] == '.';
    if i >= 2 {
      assert h[2..][i - 2] == '.';
    }
  }

  lemma DottedRead(h: string, parts: seq<string>, q: Quad)
    requires IsQuad(q) && '.' in h && Split(h) == parts
    requires PartsOf(parts) == Some([q.a, q.b, q.c, q.d]) && |parts| == 4
    ensures Canonical(h) == Some(q)
  {
    NotOneNumber(h);
    PackedExactly([q.a, q.b, q.c, q.d]);
    NumbersDistinct(Packed([q.a, q.b, q.c, q.d]).value, q);
  }

  /** A canonical form is read as itself. */
  lemma ShownIsRead(q: Quad)
    requires IsQuad(q)
    ensures Canonical(Shown(q)) == Some(q)
  {
    NumeralPart(q.a);
    NumeralPart(q.b);
    NumeralPart(q.c);
    NumeralPart(q.d);
    var parts := [Numeral(q.a), Numeral(q.b), Numeral(q.c), Numeral(q.d)];
    SplitJoined(parts);
    FourParts(parts[0], parts[1], parts[2], parts[3], q.a, q.b, q.c, q.d);
    DottedRead(Joined(parts), parts, q);
  }

  /** Whatever is accepted is four octets below 2^32, and canonicalising it again changes nothing. */
  lemma CanonicalTwice(h: string)
    requires Canonical(h).Some?
    ensures var q := Canonical(h).value; IsQuad(q) && 0 <= Number(q) <= MAX32 && Canonical(Shown(q)) == Canonical(h)
  {
    ShownIsRead(Canonical(h).value);
  }

  // ---------------------------------------------------------------- hexadecimal and octal are read as such

  /** The sixteen digits, in small letters or in capitals. */
  predicate IsAlphabet(digits: string) { digits == "0123456789abcdef" || digits == "0123456789ABCDEF" }

  /** Nothing else is a digit. */
  lemma DigitExactly(c: char)
    ensures DigitOf(c) >= 0 <==> '0' <= c <= '9' || 'a' <= c <= 'f' || 'A' <= c <= 'F'
    ensures DigitOf(c) < 10 ==> DigitOf(c) < 0 || '0' <= c <= '9'
    ensures 0 <= DigitOf(c) < 8 <==> '0' <= c <= '7'
  {
  }

  /** What is a part at all: decimal digits, or hexadecimal ones behind 0x; in both cases at least one. */
  lemma PartExactly(s: string)
    ensures PartOf(s).Some? <==>
            || (s != "" && forall i :: 0 <= i < |s| ==> '0' <= s[i] <= '9')
            || (|s| > 2 && s[0] == '0' && (s[1] == 'x' || s[1] == 'X')
                && forall i :: 2 <= i < |s| ==> '0' <= s[i] <= '9' || 'a' <= s[i] <= 'f' || 'A' <= s[i] <= 'F')
  {
    forall c: char
      ensures DigitOf(c) >= 0 <==> '0' <= c <= '9' || 'a' <= c <= 'f' || 'A' <= c <= 'F'
      ensures 0 <= DigitOf(c) < 10 <==> '0' <= c <= '9'
    {
      DigitExactly(c);
    }
    assert IsOctal(s) ==> IsDecimal(s) by {
      if IsOctal(s) {
        assert forall i :: 1 <= i < |s| ==> s[i] == s[1..][i - 1];
      }
    }
    if |s| > 2 {
      assert forall i :: 2 <= i < |s| ==> s[i] == s[2..][i - 2];
      assert forall i :: 0 <= i < |s[2..]| ==> s[2..][i] == s[i + 2];
    }
  }

  ghost predicate AreDigits(digits: string) { |digits| == 16 && forall d :: 0 <= d < 16 ==> DigitOf(digits[d]) == d }

  lemma AlphabetRead(digits: string)
    requires IsAlphabet(digits)
    ensures AreDigits(digits)
  {
  }

  /** Digits, the highest first, as they are spelled. */
  function Spelled(ds: seq<nat>, digits: string): (s: string)
    requires |digits| == 16 && forall i :: 0 <= i < |ds| ==> ds[i] < 16
    ensures |s| == |ds|
  {
    if ds == [] then "" else Spelled(ds[..|ds| - 1], digits) + [digits[ds[|ds| - 1]]]
  }

  /** What the digits denote in the base. */
  function DenotedIn(ds: seq<nat>, base: nat): nat
  {
    if ds == [] then 0 else DenotedIn(ds[..|ds| - 1], base) * base + ds[|ds| - 1]
  }

  lemma {:induction false} SpelledRead(ds: seq<nat>, base: nat, digits: string)
    requires AreDigits(digits) && base <= 16 && forall i :: 0 <= i < |ds| ==> ds[i] < base
    ensures var s := Spelled(ds, digits); InBase(s, base) && ValueIn(s, base) == DenotedIn(ds, base)
  {
    if ds != [] {
      var n := |ds| - 1;
      SpelledRead(ds[..n], base, digits);
      ValueInSnoc(Spelled(ds[..n], digits), digits[ds[n]], base, DenotedIn(ds[..n], base));
    }
  }

  lemma ValueInSnoc(head: string, c: char, base: nat, v: nat)
    requires InBase(head, base) && ValueIn(head, base) == v && 0 <= DigitOf(c) < base
    ensures InBase(head + [c], base) && ValueIn(head + [c], base) == v * base + DigitOf(c)
  {
    assert (head + [c])[..|head|] == head;
  }

  lemma HexIsNotDecimal(s: string)
    ensures !IsDecimal("0x" + s) && !IsDecimal("0X" + s)
  {
    assert ("0x" + s)[1] == 'x' && ("0X" + s)[1] == 'X';
  }

  /** Hexadecimal digits behind 0x, in small letters or capitals, are the address they denote, and none beyond 32 bits. */
  lemma HexIsRead(ds: seq<nat>, digits: string)
    requires IsAlphabet(digits) && ds != [] && forall i :: 0 <= i < |ds| ==> ds[i] < 16
    ensures var s, n := Spelled(ds, digits), DenotedIn(ds, 16);
            Canonical("0x" + s) == Canonical("0X" + s) == if n > 0xFFFF_FFFF then None else Some(Octets(n))
  {
    var s := Spelled(ds, digits);
    AlphabetRead(digits);
    SpelledRead(ds, 16, digits);
    HexIsNotDecimal(s);
    assert ("0x" + s)[2..] == s && ("0X" + s)[2..] == s;
  }

  /** One part of several: digits behind a zero are octal, and behind 0x hexadecimal. */
  lemma PartIsRead(ds: seq<nat>, digits: string)
    requires IsAlphabet(digits) && ds != [] && forall i :: 0 <= i < |ds| ==> ds[i] < 16
    ensures PartOf("0x" + Spelled(ds, digits)) == Some(DenotedIn(ds, 16))
    ensures (forall i :: 0 <= i < |ds| ==> ds[i] < 8) ==> PartOf("0" + Spelled(ds, digits)) == Some(DenotedIn(ds, 8))
  {
    var s := Spelled(ds, digits);
    AlphabetRead(digits);
    SpelledRead(ds, 16, digits);
    assert ("0" + s)[1..] == s && ("0x" + s)[2..] == s && ("0" + s)[1] == s[0];
    if forall i :: 0 <= i < |ds| ==> ds[i] < 8 {
      SpelledRead(ds, 8, digits);
    }
  }

  // ---------------------------------------------------------------- one reading for all forms, nearly

  /** The reading of the dotted branch, which the parts of inet_aton follow, for one to four parts. */
  function DottedReading(h: string): Option<Quad>
  {
    var parts := Split(h);
    if |parts| > 4 || PartsOf(parts).None? then None else Packed(PartsOf(parts).value)
  }

  /** The value in base 10 of octal digits exceeds the value in base 8 exactly if a digit before the last is not 0. */
  lemma {:induction false} TwoBases(s: string)
    requires InBase(s, 8)
    ensures InBase(s, 10) && ValueIn(s, 10) >= ValueIn(s, 8)
    ensures ValueIn(s, 10) > 0 <==> exists i :: 0 <= i < |s| && s[i] != '0'
    ensures ValueIn(s, 10) > ValueIn(s, 8) <==> exists i :: 0 <= i < |s| - 1 && s[i] != '0'
  {
    if s != "" {
      var n := |s| - 1;
      TwoBases(s[..n]);
      assert (exists i :: 0 <= i < n && s[i] != '0') <==> exists i :: 0 <= i < |s[..n]| && s[..n][i] != '0';
    }
  }

  lemma OnePart(h: string)
    requires '.' !in h
    ensures DottedReading(h) == if PartOf(h).None? then None else Packed([PartOf(h).value])
  {
    SplitJoin(h, "");
    if PartOf(h).Some? {
      PartsSnoc([], [], h, PartOf(h).value);
      assert [] + [h] == [h] && [] + [PartOf(h).value] == [PartOf(h).value];
    }
  }

  lemma {:induction false} LeadingZero(s: string)
    requires InBase(s, 10) && s != "" && s[0] == '0'
    ensures ValueIn(s[1..], 10) == ValueIn(s, 10)
  {
    if |s| == 1 {
      assert s[..0] == "" && s[1..] == "";
    } else {
      LeadingZero(s[..|s| - 1]);
      assert s[..|s| - 1][1..] == s[1..][..|s| - 2];
    }
  }

  /** A number of octal digits behind a zero that is not small: as one part of several it is octal, alone it is not. */
  predicate OctalLooking(h: string) { IsOctal(h) && ValueIn(h[1..], 8) <= MAX32 && exists i :: 1 <= i < |h| - 1 && h[i] != '0' }

  /** All forms are read alike, except exactly the single octal numbers, which are taken as decimal. */
  lemma ReadAlikeExactly(h: string)
    ensures Canonical(h) == DottedReading(h) <==> !OctalLooking(h)
  {
    if IsDecimal(h) {
      NoDots(h);
      OnePart(h);
      if IsOctal(h) {
        TwoBases(h[1..]);
        LeadingZero(h);
        PackedExactly([ValueIn(h[1..], 8)]);
        assert (exists i :: 0 <= i < |h[1..]| - 1 && h[1..][i] != '0') <==> exists i :: 1 <= i < |h| - 1 && h[i] != '0' by {
          assert forall i :: 0 <= i < |h[1..]| ==> h[1..][i] == h[i + 1];
          assert forall i :: 1 <= i < |h| ==> h[1..][i - 1] == h[i];
        }
        NumbersDiffer(ValueIn(h, 10), ValueIn(h[1..], 8));
      } else {
        PackedExactly([ValueIn(h, 10)]);
        OnePacked(ValueIn(h, 10));
      }
    } else if IsHex(h) {
      NoDots(h[2..]);
      assert '.' !in h;
      OnePart(h);
      OnePacked(ValueIn(h[2..], 16));
    }
  }

  lemma OnePacked(n: nat)
    ensures Packed([n]) == if n > MAX32 then None else Some(Octets(n))
  {
    assert [n][..0] == [];
  }

  lemma NumbersDiffer(m: nat, n: nat)
    requires n <= m
    ensures (if m > MAX32 then None else Some(Octets(m))) == Packed([n]) <==> m == n || n > MAX32
  {
    OnePacked(n);
    if m <= MAX32 {
      OctetsSumUp(m);
      OctetsSumUp(n);
    }
  }

  lemma NoDots(s: string)
    requires InBase(s, 16) || InBase(s, 10)
    ensures '.' !in s
  {
  }
}
