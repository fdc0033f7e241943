/**
 The catch-up playlist, written: `ManifestBuilder.Build` of the DVR service prints the
 recorded segments of a window. Durations are exact thousandths of a second.
 */
module Manifest {
  import opened Text

  // ---------------------------------------------------------------- decimals

  function Pad3(n: nat): (s: string)
    requires n < 1000
    ensures |s| == 3 && AllDigits(s) && Value(s) == n
  {
    ThreeDigits(n / 100, n / 10 % 10, n % 10);
    [Digit(n / 100), Digit(n / 10 % 10), Digit(n % 10)]
  }

  lemma ThreeDigits(a: nat, b: nat, c: nat)
    requires a < 10 && b < 10 && c < 10
    ensures var s := [Digit(a), Digit(b), Digit(c)]; AllDigits(s) && Value(s) == 100 * a + 10 * b + c
  {
    ValueSnoc([], a);
    ValueSnoc([Digit(a)], b);
    ValueSnoc([Digit(a), Digit(b)], c);
    assert [] + [Digit(a)] == [Digit(a)];
    assert [Digit(a)] + [Digit(b)] == [Digit(a), Digit(b)];
    assert [Digit(a), Digit(b)] + [Digit(c)] == [Digit(a), Digit(b), Digit(c)];
  }

  lemma ValueSnoc(s: string, d: nat)
    requires AllDigits(s) && d < 10
    ensures AllDigits(s + [Digit(d)]) && Value(s + [Digit(d)]) == 10 * Value(s) + d
  {
    assert (s + [Digit(d)])[..|s|] == s;
  }

  function Fixed3(n: nat): string { Numeral(n / 1000) + "." + Pad3(n % 1000) }

  /** %.3f of a number of milliseconds taken as seconds. */
  function Seconds(ms: int): string { if ms < 0 then "-" + Fixed3(-ms) else Fixed3(ms) }

  /** The first three places of a fraction. */
  function Thousandths(frac: string): nat
    requires AllDigits(frac)
  {
    Value((frac + "000")[..3])
  }

  /** Digits with at most one point, scaled by 1000 and cut off; anything else gives 0. */
  function Unsigned(s: string): nat
  {
    var dot := IndexOf(s, '.');
    var whole, frac := if dot < 0 then s else s[..dot], if dot < 0 then "" else s[dot + 1..];
    if AllDigits(whole) && AllDigits(frac) && |whole| + |frac| > 0 then 1000 * Value(whole) + Thousandths(frac) else 0
  }

  /** A plain decimal numeral with an optional sign, in thousandths. */
  function Millis(s: string): int
  {
    if s != [] && s[0] == '-' then 0 - Unsigned(s[1..]) else if s != [] && s[0] == '+' then Unsigned(s[1..]) else Unsigned(s)
  }

  function Power10(n: nat): (r: nat)
    ensures r > 0
  {
    if n == 0 then 1 else 10 * Power10(n - 1)
  }

  lemma {:induction false} ValueShifted(a: string, b: string)
    requires AllDigits(a) && AllDigits(b)
    ensures AllDigits(a + b) && Value(a + b) == Value(a) * Power10(|b|) + Value(b) && Value(b) < Power10(|b|)
  {
    if b == "" {
      assert a + b == a;
    } else {
      var c := b[..|b| - 1];
      ValueShifted(a, c);
      assert (a + b)[..|a + b| - 1] == a + c;
      TenTimes(Value(a), Power10(|c|), Power10(|b|));
    }
  }

  lemma TenTimes(v: nat, p: nat, q: nat)
    requires q == 10 * p
    ensures v * q == 10 * (v * p)
  {
  }

  lemma ProductGrows(p: nat, a: int, b: int)
    requires a <= b
    ensures p * a <= p * b
  {
    assert p * (b - a) >= 0 && p * b == p * a + p * (b - a);
  }

  lemma QuotientIs(n: nat, p: nat, q: nat, m: nat)
    requires p > 0 && m == q * p && m <= n < m + p
    ensures n / p == q
  {
    var d := n / p;
    assert n == p * d + n % p;
    assert p * (q + 1) == m + p;
    if d > q {
      ProductGrows(p, q + 1, d);
    } else if d < q {
      ProductGrows(p, d + 1, q);
    }
  }

  /** m is a * p: the digits a in front of further ones, b, which denote less than one unit p. */
  lemma CutLong(a: nat, b: nat, p: nat, m: nat)
    requires p > 0 && b < p && m == a * p
    ensures 1000 * (m + b) / (1000 * p) == a
  {
    assert a * (1000 * p) == 1000 * m;
    QuotientIs(1000 * (m + b), 1000 * p, a, 1000 * m);
  }

  /** The thousandths of a fraction of any length: what its digits denote, cut off. */
  lemma ThousandthsExactly(frac: string)
    requires AllDigits(frac)
    ensures Thousandths(frac) == 1000 * Value(frac) / Power10(|frac|)
  {
    if |frac| <= 3 {
      assert (frac + "000")[..3] == frac + "000"[..3 - |frac|];
      ShortFraction(frac, "000"[..3 - |frac|]);
    } else {
      assert (frac + "000")[..3] == frac[..3];
      LongFraction(frac[..3], frac[3..]);
      assert frac == frac[..3] + frac[3..];
    }
  }

  lemma LongFraction(a: string, b: string)
    requires AllDigits(a) && AllDigits(b) && |a| == 3
    ensures AllDigits(a + b) && 1000 * Value(a + b) / Power10(|a + b|) == Value(a)
  {
    ValueShifted(a, b);
    PowerAdds(3, |b|);
    PowersTo3();
    CutLong(Value(a), Value(b), Power10(|b|), Value(a) * Power10(|b|));
  }

  lemma PowersTo3()
    ensures Power10(0) == 1 && Power10(1) == 10 && Power10(2) == 100 && Power10(3) == 1000
  {
  }

  lemma {:induction false} PowerAdds(m: nat, n: nat)
    ensures Power10(m + n) == Power10(m) * Power10(n)
  {
    if m > 0 {
      PowerAdds(m - 1, n);
      assert 10 * (Power10(m - 1) * Power10(n)) == (10 * Power10(m - 1)) * Power10(n);
    }
  }

  lemma ZerosAreZero(zeros: string)
    requires |zeros| <= 3 && zeros == "000"[..|zeros|]
    ensures AllDigits(zeros) && Value(zeros) == 0
  {
    assert "0"[..0] == "" && "00"[..1] == "0" && "000"[..2] == "00";
    assert Value("0") == 0;
    assert Value("00") == 0;
    assert Value("000") == 0;
    assert zeros == "" || zeros == "0" || zeros == "00" || zeros == "000";
  }

  lemma ShortFraction(frac: string, zeros: string)
    requires AllDigits(frac) && |frac| + |zeros| == 3 && zeros == "000"[..|zeros|]
    ensures AllDigits(frac + zeros) && Value(frac + zeros) == 1000 * Value(frac) / Power10(|frac|)
  {
    ZerosAreZero(zeros);
    ValueShifted(frac, zeros);
    PowersTo3();
    ScaledUp(Value(frac), |frac|, |zeros|);
  }

  lemma ScaledUp(v: nat, n: nat, k: nat)
    requires n + k == 3
    ensures v * Power10(k) == 1000 * v / Power10(n)
  {
    PowersTo3();
    assert n == 0 || n == 1 || n == 2 || n == 3;
  }

  /** What a plain decimal denotes, in thousandths: the whole part and any number of decimals, cut off. */
  lemma MillisExactly(whole: string, frac: string)
    requires AllDigits(whole) && AllDigits(frac) && |whole| + |frac| > 0
    ensures var m := 1000 * Value(whole) + 1000 * Value(frac) / Power10(|frac|);
            && Millis(whole + "." + frac) == Millis("+" + (whole + "." + frac)) == m && Millis("-" + (whole + "." + frac)) == 0 - m
  {
    UnsignedExactly(whole, frac);
    var s := whole + "." + frac;
    assert s[0] == if whole == "" then '.' else whole[0];
    MillisOfSigns(s);
  }

  lemma UnsignedExactly(whole: string, frac: string)
    requires AllDigits(whole) && AllDigits(frac) && |whole| + |frac| > 0
    ensures Unsigned(whole + "." + frac) == 1000 * Value(whole) + 1000 * Value(frac) / Power10(|frac|)
  {
    var s := whole + "." + frac;
    FirstIndexAfter(whole, '.', frac);
    assert s[..|whole|] == whole && s[|whole| + 1..] == frac;
    ThousandthsExactly(frac);
  }

  lemma MillisOfSigns(s: string)
    requires s != "" && s[0] != '-' && s[0] != '+'
    ensures Millis(s) == Millis("+" + s) == Unsigned(s) && Millis("-" + s) == 0 - Unsigned(s)
  {
    assert ("+" + s)[1..] == s && ("-" + s)[1..] == s;
  }

  lemma UnsignedOfFixed(n: nat)
    ensures Unsigned(Fixed3(n)) == n
  {
    var whole, frac := Numeral(n / 1000), Pad3(n % 1000);
    var s := whole + "." + frac;
    FirstIndexAfter(whole, '.', frac);
    assert s[..|whole|] == whole && s[|whole| + 1..] == frac;
    assert (frac + "000")[..3] == frac;
  }

  lemma FixedHead(n: nat)
    ensures Fixed3(n) != [] && IsDigit(Fixed3(n)[0])
  {
    assert Fixed3(n)[0] == Numeral(n / 1000)[0];
  }

  lemma MillisOfSign(s: string)
    ensures Millis("-" + s) == 0 - Unsigned(s)
    ensures s != [] && IsDigit(s[0]) ==> Millis(s) == Unsigned(s)
  {
    assert ("-" + s)[1..] == s;
  }

  lemma MillisOfSeconds(ms: int)
    ensures Millis(Seconds(ms)) == ms
  {
    var n := if ms < 0 then -ms else ms;
    UnsignedOfFixed(n);
    FixedHead(n);
    MillisOfSign(Fixed3(n));
  }

  lemma SecondsChars(ms: int)
    ensures var s := Seconds(ms); s != [] && Trimmed(s) && forall c :: c in s ==> IsDigit(c) || c == '-' || c == '.'
  {
    var n := if ms < 0 then -ms else ms;
    var whole, frac := Numeral(n / 1000), Pad3(n % 1000);
    assert Fixed3(n) == whole + "." + frac;
    assert forall i :: 0 <= i < |Fixed3(n)| ==> IsDigit(Fixed3(n)[i]) || Fixed3(n)[i] == '.';
  }

  // ---------------------------------------------------------------- writing

  /** A row of the segment index. */
  datatype Row = Row(channel: string, startedAt: int, durationMs: int, objectKey: string)

  /** What signs and addresses segments. `sign` is abstract; its tokens are base64url text. */
  datatype Signer = Signer(publicUrl: string, viewer: string, expiry: int, sign: (string, string, int) -> string)

  const DAY := 86_400_000

  datatype Result = Playlist(text: string) | Error(message: string)

  predicate InWindow(r: Row, channel: string, from: int, to: int) { r.channel == channel && from <= r.startedAt < to }

  ghost predicate ByStart(rows: seq<Row>) { forall i, j :: 0 <= i < j < |rows| ==> rows[i].startedAt <= rows[j].startedAt }

  /** Into its place by start time, behind its equals. */
  function Placed(rows: seq<Row>, r: Row): (more: seq<Row>)
    ensures forall x :: x in more <==> x == r || x in rows
    ensures ByStart(rows) ==> ByStart(more)
  {
    var n := |rows| - 1;
    if n < 0 || rows[n].startedAt <= r.startedAt then rows + [r]
    else
      assert rows == rows[..n] + [rows[n]];
      var less := Placed(rows[..n], r);
      assert forall i :: 0 <= i < |less| ==> less[i] in less;
      less + [rows[n]]
  }

  /** The answer of the query: the rows of the window, by start time. */
  function Window(index: seq<Row>, channel: string, from: int, to: int): (rows: seq<Row>)
    ensures ByStart(rows) && forall r :: r in rows <==> r in index && r.channel == channel && from <= r.startedAt < to
  {
    if index == [] then []
    else
      var n := |index| - 1;
      var rows := Window(index[..n], channel, from, to);
      assert index == index[..n] + [index[n]];
      if InWindow(index[n], channel, from, to) then Placed(rows, index[n]) else rows
  }

  /** The index is unique in channel and start time. */
  ghost predicate OneStart(index: seq<Row>)
  {
    forall i, j :: 0 <= i < j < |index| ==> (index[i].channel, index[i].startedAt) != (index[j].channel, index[j].startedAt)
  }

  ghost predicate Rising(rows: seq<Row>) { forall i, j :: 0 <= i < j < |rows| ==> rows[i].startedAt < rows[j].startedAt }

  lemma {:induction false} PlacedRises(rows: seq<Row>, r: Row)
    requires Rising(rows) && forall x :: x in rows ==> x.startedAt != r.startedAt
    ensures Rising(Placed(rows, r))
  {
    var n := |rows| - 1;
    if n >= 0 {
      LastIsLatest(rows);
    }
    if n < 0 || rows[n].startedAt <= r.startedAt {
      RisesSnoc(rows, r);
    } else {
      PlacedRises(rows[..n], r);
      RisesSnoc(Placed(rows[..n], r), rows[n]);
    }
  }

  lemma LastIsLatest(rows: seq<Row>)
    requires Rising(rows) && rows != []
    ensures var n := |rows| - 1;
            && rows[n] in rows && (forall x :: x in rows ==> x.startedAt <= rows[n].startedAt)
            && forall x :: x in rows[..n] ==> x in rows && x.startedAt < rows[n].startedAt
  {
  }

  lemma RisesSnoc(rows: seq<Row>, r: Row)
    requires Rising(rows) && forall x :: x in rows ==> x.startedAt < r.startedAt
    ensures Rising(rows + [r])
  {
    assert forall i :: 0 <= i < |rows| ==> rows[i] in rows;
  }

  lemma {:induction false} WindowRises(index: seq<Row>, channel: string, from: int, to: int)
    requires OneStart(index)
    ensures Rising(Window(index, channel, from, to))
  {
    if index != [] {
      var n := |index| - 1;
      var rows := Window(index[..n], channel, from, to);
      WindowRises(index[..n], channel, from, to);
      if InWindow(index[n], channel, from, to) {
        forall x | x in rows
          ensures x.startedAt != index[n].startedAt
        {
          assert x in index[..n];
          var i :| 0 <= i < n && index[i] == x;
        }
        PlacedRises(rows, index[n]);
      }
    }
  }

  /** Rising rows are the window in whatever order they stand in the index: a unique index leaves one answer. */
  lemma OneWindow(index: seq<Row>, channel: string, from: int, to: int, rows: seq<Row>)
    requires OneStart(index) && Rising(rows)
    requires forall r :: r in rows <==> r in index && r.channel == channel && from <= r.startedAt < to
    ensures rows == Window(index, channel, from, to)
  {
    WindowRises(index, channel, from, to);
    OneRising(rows, Window(index, channel, from, to));
  }

  lemma {:induction false} OneRising(a: seq<Row>, b: seq<Row>)
    requires Rising(a) && Rising(b) && forall r :: r in a <==> r in b
    ensures a == b
  {
    assert a != [] ==> a[|a| - 1] in b;
    assert b != [] ==> b[|b| - 1] in a;
    if a != [] {
      var m, n := |a| - 1, |b| - 1;
      assert a[m] == b[n];
      assert a == a[..m] + [a[m]] && b == b[..n] + [b[n]];
      forall r
        ensures r in a[..m] <==> r in b[..n]
      {
        assert r in a[..m] ==> r in a && r.startedAt < a[m].startedAt;
        assert r in b[..n] ==> r in b && r.startedAt < b[n].startedAt;
      }
      OneRising(a[..m], b[..n]);
    }
  }

  function Longest(rows: seq<Row>): int
  {
    if rows == [] then 0
    else var d := Longest(rows[..|rows| - 1]);
         if rows[|rows| - 1].durationMs > d then rows[|rows| - 1].durationMs else d
  }

  function TargetDuration(rows: seq<Row>): int { (Longest(rows) + 999) / 1000 }

  function Url(g: Signer, key: string): string
  {
    g.publicUrl + "/" + key + "?vex=" + Printed(g.expiry) + "&vt=" + g.sign(key, g.viewer, g.expiry)
  }

  function ExtInf(ms: int): string { "#EXTINF:" + Seconds(ms) + "," }

  /** The lines of all rows, one row after another. */
  function Flat(rows: seq<Row>, lines: Row -> seq<string>): seq<string>
  {
    if rows == [] then [] else Flat(rows[..|rows| - 1], lines) + lines(rows[|rows| - 1])
  }

  function SegmentPair(g: Signer): Row -> seq<string> { (r: Row) => [ExtInf(r.durationMs), Url(g, r.objectKey)] }

  function SegmentLines(g: Signer, rows: seq<Row>): seq<string> { Flat(rows, SegmentPair(g)) }

  function Header(target: int): seq<string>
  {
    ["#EXTM3U", "#EXT-X-VERSION:3", "#EXT-X-TARGETDURATION:" + Printed(target), "#EXT-X-MEDIA-SEQUENCE:0", "#EXT-X-PLAYLIST-TYPE:VOD"]
  }

  function PlaylistLines(g: Signer, rows: seq<Row>): seq<string>
  {
    Header(TargetDuration(rows)) + SegmentLines(g, rows) + ["#EXT-X-ENDLIST"]
  }

  lemma LongestBounds(rows: seq<Row>, i: nat)
    requires i < |rows|
    ensures rows[i].durationMs <= Longest(rows)
  {
  }

  /** The longest duration is that of some row, or 0. */
  lemma {:induction false} LongestAttained(rows: seq<Row>)
    ensures Longest(rows) == 0 || exists r :: r in rows && r.durationMs == Longest(rows)
  {
    if rows != [] {
      LongestAttained(rows[..|rows| - 1]);
      assert rows[|rows| - 1] in rows;
    }
  }

  lemma {:induction false} FlatPairs(rows: seq<Row>, lines: Row -> seq<string>, i: nat)
    requires i < |rows| && forall r :: |lines(r)| == 2
    ensures |Flat(rows, lines)| == 2 * |rows|
    ensures Flat(rows, lines)[2 * i] == lines(rows[i])[0] && Flat(rows, lines)[2 * i + 1] == lines(rows[i])[1]
    decreases |rows|
  {
    var before := rows[..|rows| - 1];
    if before != [] {
      FlatPairs(before, lines, if i < |before| then i else 0);
    }
  }

  /** The playlist line by line: five lines of header, two for each row, and the end. */
  lemma PlaylistFrame(g: Signer, rows: seq<Row>, top: seq<string>, last: string)
    requires top == ["#EXTM3U", "#EXT-X-VERSION:3", "#EXT-X-TARGETDURATION:" + Printed((Longest(rows) + 999) / 1000),
                     "#EXT-X-MEDIA-SEQUENCE:0", "#EXT-X-PLAYLIST-TYPE:VOD"]
    requires last == "#EXT-X-ENDLIST"
    ensures var lines := PlaylistLines(g, rows);
            |lines| == 2 * |rows| + 6 && lines[..5] == top && lines[2 * |rows| + 5] == last
  {
    var body := SegmentLines(g, rows);
    FlatLength(rows, SegmentPair(g));
    HeaderIs(TargetDuration(rows), top);
    Framed(top + body + [last], top, body, last);
  }

  lemma HeaderIs(target: int, top: seq<string>)
    requires top == ["#EXTM3U", "#EXT-X-VERSION:3", "#EXT-X-TARGETDURATION:" + Printed(target),
                     "#EXT-X-MEDIA-SEQUENCE:0", "#EXT-X-PLAYLIST-TYPE:VOD"]
    ensures Header(target) == top
  {
  }

  lemma {:induction false} FlatLength(rows: seq<Row>, lines: Row -> seq<string>)
    requires forall r :: |lines(r)| == 2
    ensures |Flat(rows, lines)| == 2 * |rows|
  {
    if rows != [] {
      FlatLength(rows[..|rows| - 1], lines);
    }
  }

  lemma Framed(lines: seq<string>, top: seq<string>, body: seq<string>, last: string)
    requires lines == top + body + [last]
    ensures |lines| == |top| + |body| + 1 && lines[|top| + |body|] == last && lines[..|top|] == top
  {
  }

  /** The lines of row i: its duration, and its address with the viewer's token. */
  lemma PlaylistRow(g: Signer, rows: seq<Row>, i: nat, info: string, url: string)
    requires i < |rows| && info == "#EXTINF:" + Seconds(rows[i].durationMs) + ","
    requires url == g.publicUrl + "/" + rows[i].objectKey + "?vex=" + Printed(g.expiry)
                    + "&vt=" + g.sign(rows[i].objectKey, g.viewer, g.expiry)
    ensures var lines := PlaylistLines(g, rows); |lines| == 2 * |rows| + 6 && lines[2 * i + 5] == info && lines[2 * i + 6] == url
  {
    SegmentLinesAt(g, rows, i, info, url);
    RowFramed(PlaylistLines(g, rows), Header(TargetDuration(rows)), SegmentLines(g, rows), 2 * i);
  }

  lemma RowFramed(lines: seq<string>, top: seq<string>, body: seq<string>, k: nat)
    requires lines == top + body + ["#EXT-X-ENDLIST"] && |top| == 5 && k + 1 < |body|
    ensures |lines| == |body| + 6 && lines[k + 5] == body[k] && lines[k + 6] == body[k + 1]
  {
  }

  lemma SegmentLinesAt(g: Signer, rows: seq<Row>, i: nat, info: string, url: string)
    requires i < |rows| && info == ExtInf(rows[i].durationMs) && url == Url(g, rows[i].objectKey)
    ensures var lines := SegmentLines(g, rows); |lines| == 2 * |rows| && lines[2 * i] == info && lines[2 * i + 1] == url
  {
    FlatPairs(rows, SegmentPair(g), i);
  }

  /** The pass over the query's rows: the segments and the longest duration. */
  method Collect(index: seq<Row>, channel: string, from: int, to: int) returns (segs: seq<Row>, maxDur: int)
    ensures segs == Window(index, channel, from, to) && maxDur == Longest(segs)
  {
    var rows := Window(index, channel, from, to);
    segs, maxDur := [], 0;
    for i := 0 to |rows|
      invariant segs == rows[..i] && maxDur == Longest(segs)
    {
      assert rows[..i + 1][..i] == rows[..i];
      segs := segs + [rows[i]];
      if rows[i].durationMs > maxDur {
        maxDur := rows[i].durationMs;
      }
    }
  }

  lemma SegmentAppended(g: Signer, segs: seq<Row>, i: nat, above: seq<string>)
    requires i < |segs|
    ensures above + SegmentLines(g, segs[..i + 1])
         == above + SegmentLines(g, segs[..i]) + [ExtInf(segs[i].durationMs), Url(g, segs[i].objectKey)]
  {
    assert segs[..i + 1][..i] == segs[..i];
  }

  /** The byte buffer that `Build` prints into. */
  class Buffer {
    var text: string
    ghost var lines: seq<string>

    ghost predicate Valid()
      reads this
    {
      text == Unlines(lines)
    }

    constructor ()
      ensures Valid() && lines == []
    {
      text, lines := "", [];
    }

    method Println(line: string)
      requires Valid()
      modifies this
      ensures Valid() && lines == old(lines) + [line]
    {
      UnlinesSnoc(lines, line);
      text, lines := text + line + "\n", lines + [line];
    }
  }

  method PrintHeader(b: Buffer, target: int)
    requires b.Valid() && b.lines == []
    modifies b
    ensures b.Valid() && b.lines == Header(target)
  {
    b.Println("#EXTM3U");
    b.Println("#EXT-X-VERSION:3");
    b.Println("#EXT-X-TARGETDURATION:" + Printed(target));
    b.Println("#EXT-X-MEDIA-SEQUENCE:0");
    b.Println("#EXT-X-PLAYLIST-TYPE:VOD");
  }

  method PrintSegments(b: Buffer, g: Signer, segs: seq<Row>)
    requires b.Valid()
    modifies b
    ensures b.Valid() && b.lines == old(b.lines) + SegmentLines(g, segs)
  {
    for i := 0 to |segs|
      invariant b.Valid() && b.lines == old(b.lines) + SegmentLines(g, segs[..i])
    {
      SegmentAppended(g, segs, i, old(b.lines));
      b.Println(ExtInf(segs[i].durationMs));
      b.Println(Url(g, segs[i].objectKey));
    }
    assert segs[..|segs|] == segs;
  }

  method Write(g: Signer, segs: seq<Row>, maxDur: int) returns (text: string)
    requires maxDur == Longest(segs)
    ensures text == Unlines(PlaylistLines(g, segs))
  {
    var b := new Buffer();
    PrintHeader(b, (maxDur + 999) / 1000);
    PrintSegments(b, g, segs);
    b.Println("#EXT-X-ENDLIST");
    text := b.text;
  }

  /** `Build`: errors first, then the rows of the window, then the text. */
  method Build(index: seq<Row>, channel: string, from: int, to: int, g: Signer) returns (r: Result)
    ensures r.Playlist? <==>
            from < to <= from + 86_400_000 && exists x :: x in index && x.channel == channel && from <= x.startedAt < to
    ensures r.Playlist? <==> from < to <= from + DAY && Window(index, channel, from, to) != []
    ensures r.Playlist? ==> r.text == Unlines(PlaylistLines(g, Window(index, channel, from, to)))
  {
    if to <= from {
      return Error("invalid window");
    }
    if to - from > DAY {
      return Error("window too large");
    }
    var segs, maxDur := Collect(index, channel, from, to);
    if |segs| == 0 {
      return Error("no segments in window");
    }
    var text := Write(g, segs, maxDur);
    return Playlist(text);
  }
}
