/**
 Reading media playlists: the recorder's `fetchMediaPlaylist`, and what it makes of the
 playlists that `Manifest` writes.
 */
module MediaPlaylist {
  import opened Text
  import opened Manifest

  datatype Ref = Ref(uri: string, durationMs: int)

  datatype Reading = Reading(segs: seq<Ref>, target: int, pending: int)

  const TARGET := "#EXT-X-TARGETDURATION:"
  const EXTINF := "#EXTINF:"

  const Nothing := Reading([], 0, 0)

  /** The text before the first comma. */
  function BeforeComma(s: string): string
  {
    var c := IndexOf(s, ',');
    if c >= 0 then s[..c] else s
  }

  /** One line. `resolve` makes a reference absolute against the playlist's own address. */
  function Step(st: Reading, raw: string, resolve: string -> string): Reading
  {
    var line := Trim(raw);
    if TARGET <= line then st.(target := Atoi(line[|TARGET|..]).value)
    else if EXTINF <= line then st.(pending := Millis(Trim(BeforeComma(line[|EXTINF|..]))))
    else if "#" <= line || line == "" then st
    else Reading(st.segs + [Ref(resolve(line), st.pending)], st.target, 0)
  }

  type LineStep = (Reading, string) -> Reading

  function Fold(st: Reading, lines: seq<string>, step: LineStep): Reading
  {
    if lines == [] then st else step(Fold(st, lines[..|lines| - 1], step), lines[|lines| - 1])
  }

  /** Reading with references resolved by `resolve`. */
  function Reader(resolve: string -> string): LineStep { (st, line) => Step(st, line, resolve) }

  lemma FoldNext(lines: seq<string>, i: nat, step: LineStep)
    requires i < |lines|
    ensures Fold(Nothing, lines[..i + 1], step) == step(Fold(Nothing, lines[..i], step), lines[i])
  {
    assert lines[..i + 1][..i] == lines[..i];
  }

  /** The scan over a response body. */
  method FetchMediaPlaylist(body: string, resolve: string -> string) returns (segs: seq<Ref>, targetDuration: int)
    ensures var r := Fold(Nothing, Lines(body), Reader(resolve)); segs == r.segs && targetDuration == r.target
  {
    segs, targetDuration := [], 0;
    var pendingDur := 0;
    var lines := Lines(body);
    for i := 0 to |lines|
      invariant Fold(Nothing, lines[..i], Reader(resolve)) == Reading(segs, targetDuration, pendingDur)
    {
      FoldNext(lines, i, Reader(resolve));
      var line := Trim(lines[i]);
      if TARGET <= line {
        var n := Atoi(line[|TARGET|..]);
        targetDuration := n.value;
      } else if EXTINF <= line {
        var rest := line[|EXTINF|..];
        var c := IndexOf(rest, ',');
        if c >= 0 {
          rest := rest[..c];
        }
        pendingDur := Millis(Trim(rest));
      } else if "#" <= line {
      } else if line == "" {
      } else {
        segs := segs + [Ref(resolve(line), pendingDur)];
        pendingDur := 0;
      }
    }
    assert lines[..|lines|] == lines;
  }

  // ---------------------------------------------------------------- what any playlist is read as

  predicate IsTarget(raw: string) { "#EXT-X-TARGETDURATION:" <= Trim(raw) }

  predicate IsInfo(raw: string) { "#EXTINF:" <= Trim(raw) }

  /** A line that names a segment. */
  predicate IsUri(raw: string) { Trim(raw) != "" && Trim(raw)[0] != '#' }

  /** The duration that an #EXTINF line gives: the text up to the first comma. */
  function DurationOf(raw: string): int
    requires IsInfo(raw)
  {
    Millis(Trim(BeforeComma(Trim(raw)[8..])))
  }

  lemma TagsDiffer(raw: string)
    ensures IsInfo(raw) ==> !IsTarget(raw)
    ensures IsInfo(raw) || IsTarget(raw) ==> !IsUri(raw)
  {
    var line := Trim(raw);
    assert IsInfo(raw) ==> line[4] == "#EXTINF:"[4] == 'I' && line[0] == '#';
    assert IsTarget(raw) ==> line[4] == TARGET[4] == '-' && line[0] == '#';
  }

  lemma StepCases(st: Reading, raw: string, resolve: string -> string)
    ensures IsInfo(raw) ==> Step(st, raw, resolve) == st.(pending := DurationOf(raw))
    ensures IsUri(raw) ==> Step(st, raw, resolve) == Reading(st.segs + [Ref(resolve(Trim(raw)), st.pending)], st.target, 0)
    ensures !IsInfo(raw) && !IsUri(raw) ==> Step(st, raw, resolve).segs == st.segs && Step(st, raw, resolve).pending == st.pending
    ensures Step(st, raw, resolve).target == if IsTarget(raw) then Atoi(Trim(raw)[22..]).value else st.target
  {
    TagsDiffer(raw);
    assert IsUri(raw) <==> Trim(raw) != "" && !("#" <= Trim(raw));
  }

  ghost predicate Silent(lines: seq<string>, i: int, k: int)
    requires 0 <= i <= k <= |lines|
  {
    forall m :: i <= m < k ==> !IsInfo(lines[m]) && !IsUri(lines[m])
  }

  /** What a reading does to the duration that is waiting: `info` gives one, `takes` says where it is taken. */
  ghost predicate Waits(step: LineStep, info: string -> bool, takes: string -> bool, duration: string -> int)
  {
    forall st, raw :: step(st, raw).pending == if info(raw) then duration(raw) else if takes(raw) then 0 else st.pending
  }

  lemma {:induction false} PendingAt(lines: seq<string>, j: int, i: nat, step: LineStep,
                                     info: string -> bool, takes: string -> bool, duration: string -> int)
    requires -1 <= j < i <= |lines| && Waits(step, info, takes, duration)
    requires (j >= 0 ==> info(lines[j]) || takes(lines[j])) && forall m :: j < m < i ==> !info(lines[m]) && !takes(lines[m])
    ensures Fold(Nothing, lines[..i], step).pending == if j >= 0 && info(lines[j]) then duration(lines[j]) else 0
    decreases i
  {
    if i > 0 {
      FoldNext(lines, i - 1, step);
      if j < i - 1 {
        PendingAt(lines, j, i - 1, step, info, takes, duration);
      }
    }
  }

  /** The duration waiting at line i: that of the last #EXTINF line, unless a segment took it or there was none. */
  lemma PendingHere(lines: seq<string>, j: int, i: nat, resolve: string -> string)
    requires -1 <= j < i <= |lines| && (j >= 0 ==> IsInfo(lines[j]) || IsUri(lines[j])) && Silent(lines, j + 1, i)
    ensures Fold(Nothing, lines[..i], Reader(resolve)).pending == if j >= 0 && IsInfo(lines[j]) then DurationOf(lines[j]) else 0
  {
    var duration := (raw: string) => if IsInfo(raw) then DurationOf(raw) else 0;
    forall st, raw
      ensures Reader(resolve)(st, raw).pending == if IsInfo(raw) then duration(raw) else if IsUri(raw) then 0 else st.pending
    {
      PendingNext(st, raw, resolve);
    }
    PendingAt(lines, j, i, Reader(resolve), IsInfo, IsUri, duration);
  }

  lemma PendingNext(st: Reading, raw: string, resolve: string -> string)
    ensures Reader(resolve)(st, raw).pending == if IsInfo(raw) then DurationOf(raw) else if IsUri(raw) then 0 else st.pending
  {
    TagsDiffer(raw);
    StepCases(st, raw, resolve);
  }

  lemma {:induction false} SegsGrow(lines: seq<string>, i: nat, resolve: string -> string)
    requires i <= |lines|
    ensures Fold(Nothing, lines[..i], Reader(resolve)).segs <= Fold(Nothing, lines, Reader(resolve)).segs
    decreases |lines| - i
  {
    if i == |lines| {
      assert lines[..i] == lines;
    } else {
      SegsGrow(lines, i + 1, resolve);
      FoldNext(lines, i, Reader(resolve));
      StepCases(Fold(Nothing, lines[..i], Reader(resolve)), lines[i], resolve);
    }
  }

  /** How any playlist is read: the line i, which names a segment, becomes segment n, n being those before it; its
      duration is that of the #EXTINF line before it, if that comes after the segment before, and 0 otherwise. */
  lemma SegmentRead(lines: seq<string>, j: int, i: nat, resolve: string -> string)
    requires -1 <= j < i < |lines| && IsUri(lines[i]) && (j >= 0 ==> IsInfo(lines[j]) || IsUri(lines[j])) && Silent(lines, j + 1, i)
    ensures var segs, n := Fold(Nothing, lines, Reader(resolve)).segs, |Fold(Nothing, lines[..i], Reader(resolve)).segs|;
            n < |segs|
            && segs[n] == Ref(resolve(Trim(lines[i])), if j >= 0 && IsInfo(lines[j]) then DurationOf(lines[j]) else 0)
  {
    PendingHere(lines, j, i, resolve);
    FoldNext(lines, i, Reader(resolve));
    StepCases(Fold(Nothing, lines[..i], Reader(resolve)), lines[i], resolve);
    SegsGrow(lines, i + 1, resolve);
  }

  /** The lines that name segments, and the target that the last #EXT-X-TARGETDURATION line gives, or 0. */
  function Uris(lines: seq<string>): nat
  {
    if lines == [] then 0 else Uris(lines[..|lines| - 1]) + if IsUri(lines[|lines| - 1]) then 1 else 0
  }

  function LastTarget(lines: seq<string>): int
  {
    if lines == [] then 0
    else if "#EXT-X-TARGETDURATION:" <= Trim(lines[|lines| - 1]) then Atoi(Trim(lines[|lines| - 1])[22..]).value
    else LastTarget(lines[..|lines| - 1])
  }

  lemma {:induction false} SegmentsCounted(lines: seq<string>, resolve: string -> string)
    ensures var r := Fold(Nothing, lines, Reader(resolve)); |r.segs| == Uris(lines) && r.target == LastTarget(lines)
  {
    if lines != [] {
      var last := |lines| - 1;
      SegmentsCounted(lines[..last], resolve);
      TagsDiffer(lines[last]);
      StepCases(Fold(Nothing, lines[..last], Reader(resolve)), lines[last], resolve);
    }
  }

  // ---------------------------------------------------------------- reading what was written

  /** An address that survives on a line of its own, and tokens as base64url gives them. */
  ghost predicate Sound(g: Signer)
  {
    && g.publicUrl != "" && !IsSpace(g.publicUrl[0]) && g.publicUrl[0] != '#' && '\n' !in g.publicUrl
    && forall key: string, viewer: string, expiry: int, c :: c in g.sign(key, viewer, expiry) ==> !IsSpace(c)
  }

  /** Durations as the index column holds them, keys without line breaks, addresses that are absolute already. */
  ghost predicate Readable(g: Signer, rows: seq<Row>, resolve: string -> string)
  {
    forall i :: 0 <= i < |rows| ==>
      && -0x8000_0000 <= rows[i].durationMs < 0x8000_0000
      && '\n' !in rows[i].objectKey
      && resolve(Url(g, rows[i].objectKey)) == Url(g, rows[i].objectKey)
  }

  lemma CommentSkipped(st: Reading, line: string, resolve: string -> string)
    requires Trimmed(line) && "#" <= line && !(TARGET <= line) && !(EXTINF <= line)
    ensures Step(st, line, resolve) == st
  {
    TrimOfTrimmed(line);
  }

  lemma TargetRead(st: Reading, target: int, resolve: string -> string)
    requires -MAX <= target <= MAX
    ensures Step(st, TARGET + Printed(target), resolve) == st.(target := target)
  {
    var line := TARGET + Printed(target);
    PrintedChars(target);
    assert line[|line| - 1] == Printed(target)[|Printed(target)| - 1];
    assert line[0] == '#';
    TrimOfTrimmed(line);
    assert line[|TARGET|..] == Printed(target);
    AtoiOfPrinted(target);
  }

  lemma ExtInfFields(ms: int)
    ensures var line := ExtInf(ms);
            Trim(line) == line && !(TARGET <= line) && EXTINF <= line && BeforeComma(line[|EXTINF|..]) == Seconds(ms)
  {
    var line, s := ExtInf(ms), Seconds(ms);
    assert line[0] == '#' && line[|line| - 1] == ',';
    TrimOfTrimmed(line);
    assert line[4] == 'I' && TARGET[4] == '-';
    SecondsChars(ms);
    assert line[|EXTINF|..] == s + [','] + [];
    FirstIndexAfter(s, ',', []);
    assert (s + [','] + [])[..|s|] == s;
  }

  lemma ExtInfRead(st: Reading, ms: int, resolve: string -> string)
    ensures Step(st, ExtInf(ms), resolve) == st.(pending := ms)
  {
    ExtInfFields(ms);
    SecondsChars(ms);
    TrimOfTrimmed(Seconds(ms));
    MillisOfSeconds(ms);
  }

  lemma UrlShape(g: Signer, key: string)
    requires Sound(g) && '\n' !in key
    ensures var u := Url(g, key); u != "" && Trimmed(u) && u[0] != '#' && PlainLine(u)
  {
    var token := g.sign(key, g.viewer, g.expiry);
    var u := Url(g, key);
    PrintedChars(g.expiry);
    assert u[0] == g.publicUrl[0];
    var front := g.publicUrl + "/" + key + "?vex=" + Printed(g.expiry);
    assert u == front + "&vt=" + token;
    assert u[|u| - 1] == if token == "" then '=' else token[|token| - 1];
    assert token != "" ==> token[|token| - 1] in token;
    assert '\n' !in front;
    assert forall c :: c in token ==> !IsSpace(c);
    assert IsSpace('\n');
  }

  lemma UrlRead(st: Reading, g: Signer, key: string, resolve: string -> string)
    requires Sound(g) && '\n' !in key && resolve(Url(g, key)) == Url(g, key)
    ensures Step(st, Url(g, key), resolve) == Reading(st.segs + [Ref(Url(g, key), st.pending)], st.target, 0)
  {
    UrlShape(g, key);
    TrimOfTrimmed(Url(g, key));
  }

  lemma {:induction false} FoldAppend(st: Reading, a: seq<string>, b: seq<string>, step: LineStep)
    ensures Fold(st, a + b, step) == Fold(Fold(st, a, step), b, step)
  {
    if b == [] {
      assert a + b == a;
    } else {
      assert (a + b)[..|a + b| - 1] == a + b[..|b| - 1];
      FoldAppend(st, a, b[..|b| - 1], step);
    }
  }

  lemma FoldTwo(st: Reading, a: string, b: string, step: LineStep)
    ensures Fold(st, [a, b], step) == step(step(st, a), b)
  {
    FoldAppend(st, [a], [b], step);
    FoldOne(st, a, step);
    FoldOne(step(st, a), b, step);
    assert [a] + [b] == [a, b];
  }

  lemma FoldOne(st: Reading, a: string, step: LineStep)
    ensures Fold(st, [a], step) == step(st, a)
  {
    assert [a][..0] == [];
    assert Fold(st, [a][..0], step) == st;
  }

  /** The line that sets the target, among comments. */
  lemma FoldHeader(h: seq<string>, target: int, step: LineStep)
    requires |h| == 5
    requires var done := Nothing.(target := target);
             && step(Nothing, h[0]) == step(Nothing, h[1]) == Nothing
             && step(Nothing, h[2]) == step(done, h[3]) == step(done, h[4]) == done
    ensures Fold(Nothing, h, step) == Nothing.(target := target)
  {
    assert h == [h[0], h[1]] + [h[2], h[3]] + [h[4]];
    FoldAppend(Nothing, [h[0], h[1]] + [h[2], h[3]], [h[4]], step);
    FoldAppend(Nothing, [h[0], h[1]], [h[2], h[3]], step);
    FoldTwo(Nothing, h[0], h[1], step);
    FoldTwo(Nothing, h[2], h[3], step);
    FoldOne(Nothing.(target := target), h[4], step);
  }

  lemma OtherTagSkipped(st: Reading, tag: string, resolve: string -> string)
    requires tag in ["#EXTM3U", "#EXT-X-VERSION:3", "#EXT-X-MEDIA-SEQUENCE:0", "#EXT-X-PLAYLIST-TYPE:VOD", "#EXT-X-ENDLIST"]
    ensures Step(st, tag, resolve) == st
  {
    assert tag[4] == 'M' || (tag[4] == '-' && tag[7] in "VMPE");
    CommentSkipped(st, tag, resolve);
  }

  lemma HeaderRead(target: int, resolve: string -> string)
    requires -MAX <= target <= MAX
    ensures Fold(Nothing, Header(target), Reader(resolve)) == Nothing.(target := target)
  {
    var done := Nothing.(target := target);
    OtherTagSkipped(Nothing, "#EXTM3U", resolve);
    OtherTagSkipped(Nothing, "#EXT-X-VERSION:3", resolve);
    TargetRead(Nothing, target, resolve);
    OtherTagSkipped(done, "#EXT-X-MEDIA-SEQUENCE:0", resolve);
    OtherTagSkipped(done, "#EXT-X-PLAYLIST-TYPE:VOD", resolve);
    FoldHeader(Header(target), target, Reader(resolve));
  }

  function RefOf(g: Signer): Row -> Ref { (r: Row) => Ref(Url(g, r.objectKey), r.durationMs) }

  function Each(rows: seq<Row>, ref: Row -> Ref): (refs: seq<Ref>)
    ensures |refs| == |rows| && forall i :: 0 <= i < |rows| ==> refs[i] == ref(rows[i])
  {
    if rows == [] then [] else Each(rows[..|rows| - 1], ref) + [ref(rows[|rows| - 1])]
  }

  function Refs(g: Signer, rows: seq<Row>): seq<Ref> { Each(rows, RefOf(g)) }

  /** The lines of one row make one segment, and nothing stays pending. */
  ghost predicate ReadsRow(step: LineStep, lines: Row -> seq<string>, ref: Row -> Ref, r: Row)
  {
    forall st: Reading {:trigger Fold(st, lines(r), step)} :: st.pending == 0 ==> Fold(st, lines(r), step) == Reading(st.segs + [ref(r)], st.target, 0)
  }

  lemma {:induction false} RowsRead(st: Reading, rows: seq<Row>, lines: Row -> seq<string>, ref: Row -> Ref, step: LineStep)
    requires st.pending == 0 && forall i :: 0 <= i < |rows| ==> ReadsRow(step, lines, ref, rows[i])
    ensures Fold(st, Flat(rows, lines), step) == Reading(st.segs + Each(rows, ref), st.target, 0)
  {
    if rows == [] {
      assert st.segs + Each(rows, ref) == st.segs;
    } else {
      var before, r := rows[..|rows| - 1], rows[|rows| - 1];
      RowsRead(st, before, lines, ref, step);
      FoldAppend(st, Flat(before, lines), lines(r), step);
      var mid := Reading(st.segs + Each(before, ref), st.target, 0);
      assert ReadsRow(step, lines, ref, rows[|rows| - 1]);
      assert Fold(mid, lines(r), step) == Reading(mid.segs + [ref(r)], mid.target, 0);
      assert mid.segs + [ref(r)] == st.segs + (Each(before, ref) + [ref(r)]);
    }
  }

  lemma PairRead(g: Signer, r: Row, resolve: string -> string)
    requires Sound(g) && '\n' !in r.objectKey && resolve(Url(g, r.objectKey)) == Url(g, r.objectKey)
    ensures ReadsRow(Reader(resolve), SegmentPair(g), RefOf(g), r)
  {
    var step := Reader(resolve);
    forall st: Reading | st.pending == 0
      ensures Fold(st, SegmentPair(g)(r), step) == Reading(st.segs + [RefOf(g)(r)], st.target, 0)
    {
      FoldTwo(st, ExtInf(r.durationMs), Url(g, r.objectKey), step);
      ExtInfRead(st, r.durationMs, resolve);
      UrlRead(st.(pending := r.durationMs), g, r.objectKey, resolve);
    }
  }

  lemma {:induction false} LongestRange(rows: seq<Row>)
    requires forall i :: 0 <= i < |rows| ==> rows[i].durationMs < 0x8000_0000
    ensures 0 <= Longest(rows) < 0x8000_0000
  {
    if rows != [] {
      LongestRange(rows[..|rows| - 1]);
    }
  }

  lemma ExtInfPlain(ms: int)
    ensures PlainLine(ExtInf(ms))
  {
    SecondsChars(ms);
    assert '\n' !in EXTINF && '\n' !in Seconds(ms);
  }

  lemma {:induction false} SegmentLinesPlain(g: Signer, rows: seq<Row>)
    requires Sound(g) && forall i :: 0 <= i < |rows| ==> '\n' !in rows[i].objectKey
    ensures forall i :: 0 <= i < |SegmentLines(g, rows)| ==> PlainLine(SegmentLines(g, rows)[i])
  {
    if rows != [] {
      var before, r := SegmentLines(g, rows[..|rows| - 1]), rows[|rows| - 1];
      SegmentLinesPlain(g, rows[..|rows| - 1]);
      ExtInfPlain(r.durationMs);
      UrlShape(g, r.objectKey);
      assert SegmentLines(g, rows) == before + [ExtInf(r.durationMs), Url(g, r.objectKey)];
    }
  }

  lemma HeaderPlain(target: int)
    ensures forall i :: 0 <= i < |Header(target)| ==> PlainLine(Header(target)[i])
  {
    PrintedChars(target);
    TargetPlain(Printed(target));
  }

  lemma TargetPlain(numeral: string)
    requires numeral != [] && forall c :: c in numeral ==> IsDigit(c) || c == '-'
    ensures PlainLine(TARGET + numeral)
  {
    assert numeral[|numeral| - 1] in numeral;
  }

  lemma PlaylistPlain(g: Signer, rows: seq<Row>)
    requires Sound(g) && forall i :: 0 <= i < |rows| ==> '\n' !in rows[i].objectKey
    ensures Lines(Unlines(PlaylistLines(g, rows))) == PlaylistLines(g, rows)
  {
    HeaderPlain(TargetDuration(rows));
    SegmentLinesPlain(g, rows);
    LinesOfUnlines(PlaylistLines(g, rows));
  }

  lemma BodyRead(g: Signer, rows: seq<Row>, st: Reading, resolve: string -> string)
    requires Sound(g) && Readable(g, rows, resolve) && st.pending == 0
    ensures Fold(st, SegmentLines(g, rows), Reader(resolve)) == Reading(st.segs + Refs(g, rows), st.target, 0)
  {
    forall i | 0 <= i < |rows|
      ensures ReadsRow(Reader(resolve), SegmentPair(g), RefOf(g), rows[i])
    {
      PairRead(g, rows[i], resolve);
    }
    RowsRead(st, rows, SegmentPair(g), RefOf(g), Reader(resolve));
  }

  lemma EndRead(st: Reading, resolve: string -> string)
    ensures Fold(st, ["#EXT-X-ENDLIST"], Reader(resolve)) == st
  {
    OtherTagSkipped(st, "#EXT-X-ENDLIST", resolve);
    FoldOne(st, "#EXT-X-ENDLIST", Reader(resolve));
  }

  /** A written playlist reads back as exactly the segments written, in order, with their addresses and durations,
      and with the target duration that was written. */
  lemma ReadsWhatWasWritten(g: Signer, rows: seq<Row>, resolve: string -> string)
    requires Sound(g) && Readable(g, rows, resolve)
    ensures Fold(Nothing, Lines(Unlines(PlaylistLines(g, rows))), Reader(resolve)) == Reading(Refs(g, rows), TargetDuration(rows), 0)
  {
    var target := TargetDuration(rows);
    var top := Nothing.(target := target);
    LongestRange(rows);
    PlaylistPlain(g, rows);
    HeaderRead(target, resolve);
    BodyRead(g, rows, top, resolve);
    EndRead(Reading(Refs(g, rows), target, 0), resolve);
    Assemble(target, SegmentLines(g, rows), Refs(g, rows), Reader(resolve));
  }

  lemma Assemble(target: int, body: seq<string>, refs: seq<Ref>, step: LineStep)
    requires var top := Nothing.(target := target);
             && Fold(Nothing, Header(target), step) == top
             && Fold(top, body, step) == Reading(top.segs + refs, target, 0)
             && Fold(Reading(refs, target, 0), ["#EXT-X-ENDLIST"], step) == Reading(refs, target, 0)
    ensures Fold(Nothing, Header(target) + body + ["#EXT-X-ENDLIST"], step) == Reading(refs, target, 0)
  {
    FoldAppend(Nothing, Header(target) + body, ["#EXT-X-ENDLIST"], step);
    FoldAppend(Nothing, Header(target), body, step);
    assert [] + refs == refs;
  }

  /** Seconds, rounded to the nearest. */
  function Rounded(ms: int): int { (ms + 500) / 1000 }

  /** The target duration is no smaller than any EXTINF duration rounded to the nearest second, and less than one
      second above the longest of them: section 4.3.3.1 of RFC 8216, with nothing to spare. */
  lemma TargetDurationTight(rows: seq<Row>, i: nat)
    requires i < |rows|
    ensures Rounded(rows[i].durationMs) <= TargetDuration(rows)
    ensures TargetDuration(rows) == 0 || exists r :: r in rows && 1000 * TargetDuration(rows) < r.durationMs + 1000
  {
    LongestBounds(rows, i);
    LongestAttained(rows);
  }

  /** From the index through the text and back. */
  method BuildAndFetch(index: seq<Row>, channel: string, from: int, to: int, g: Signer, resolve: string -> string)
    returns (ok: bool, segs: seq<Ref>, target: int)
    requires Sound(g) && Readable(g, index, resolve)
    ensures ok <==> from < to <= from + DAY && Window(index, channel, from, to) != []
    ensures ok ==> segs == Refs(g, Window(index, channel, from, to)) && target == TargetDuration(Window(index, channel, from, to))
  {
    var r := Build(index, channel, from, to, g);
    ok := r.Playlist?;
    segs, target := [], 0;
    if ok {
      WindowReadable(g, index, channel, from, to, resolve);
      ReadsWhatWasWritten(g, Window(index, channel, from, to), resolve);
      segs, target := FetchMediaPlaylist(r.text, resolve);
    }
  }

  lemma WindowReadable(g: Signer, index: seq<Row>, channel: string, from: int, to: int, resolve: string -> string)
    requires Readable(g, index, resolve)
    ensures Readable(g, Window(index, channel, from, to), resolve)
  {
    var rows := Window(index, channel, from, to);
    forall i | 0 <= i < |rows|
      ensures rows[i] in index
    {
      assert rows[i] in rows;
    }
  }
}
