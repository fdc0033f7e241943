/**
 The playlist parser of the ingestion service: #EXTINF lines with a duration, quoted or bare
 attributes and a display name, followed by the line of the stream's URL.
 */
module ExtInf {
  import opened Text

  /** A channel as it is emitted. `fields` and `numbers` are the promoted attributes, by their lower-case names. */
  datatype Entry = Entry(
    name: string,
    url: string,
    duration: int,
    line: int,
    attrs: map<string, string>,
    fields: map<string, string>,
    numbers: map<string, int>)

  /** The attributes that are promoted: as text, or as a number if it is one. */
  datatype Names = Names(fields: set<string>, numbers: set<string>)

  const PROMOTED := Names(
    {"tvg-id", "tvg-name", "tvg-logo", "tvg-language", "tvg-country", "group-title", "catchup", "catchup-source"},
    {"tvg-chno", "catchup-days"})

  /** Lower-casing, the order in which a map is walked, what an option line does to an entry, and the promoted names:
      in the parser `PROMOTED`, here any. */
  datatype World = World(
    lower: string -> string,
    order: map<string, string> -> seq<string>,
    option: (string, Entry) -> Entry,
    names: Names)

  /** A walk visits every key of the map, and nothing else. */
  ghost predicate Walks(w: World)
  {
    forall m: map<string, string> :: forall k :: k in w.order(m) <==> k in m
  }

  // ---------------------------------------------------------------- splitting

  datatype Halves = Halves(before: string, after: string)

  function Longer(i: int): int { if i < 0 then i else i + 1 }

  /** The position of the first blank or comma, or -1. */
  function Stop(s: string): (r: int)
    ensures -1 <= r < |s|
  {
    if s == "" then -1 else if s[0] == ' ' || s[0] == ',' then 0 else Longer(Stop(s[1..]))
  }

  function DurationSplit(s: string): Halves { if Stop(s) < 0 then Halves(s, "") else Halves(s[..Stop(s)], s[Stop(s)..]) }

  /** The position of the first comma outside double quotes, or -1; `inQuote` says whether s starts inside. */
  function Separator(s: string, inQuote: bool): (r: int)
    ensures -1 <= r < |s|
  {
    if s == "" then -1
    else if s[0] == ',' && !inQuote then 0
    else Longer(Separator(s[1..], inQuote != (s[0] == '"')))
  }

  /** Whether the end of s lies inside double quotes. */
  function Inside(s: string, inQuote: bool): bool
  {
    if s == "" then inQuote else Inside(s[1..], inQuote != (s[0] == '"'))
  }

  function DropAny(s: string, cut: set<char>): string { if s != "" && s[0] in cut then DropAny(s[1..], cut) else s }

  function NameSplit(s: string): Halves
  {
    var i := Separator(s, false);
    if i < 0 then Halves("", DropAny(s, {' ', ','})) else Halves(s[..i], s[i + 1..])
  }

  lemma {:induction false} StopSkips(s: string, i: nat)
    requires i <= |s| && forall k :: 0 <= k < i ==> s[k] != ' ' && s[k] != ','
    ensures Stop(s) == if Stop(s[i..]) < 0 then -1 else i + Stop(s[i..])
  {
    if i > 0 {
      assert s[1..][i - 1..] == s[i..];
      StopSkips(s[1..], i - 1);
    }
  }

  /** Cut before the first blank or comma. */
  method SplitDuration(s: string) returns (r: Halves)
    ensures r == DurationSplit(s)
    ensures r.before + r.after == s && (r.after == "" || r.after[0] == ' ' || r.after[0] == ',')
    ensures forall k :: 0 <= k < |r.before| ==> r.before[k] != ' ' && r.before[k] != ','
  {
    for i := 0 to |s|
      invariant forall k :: 0 <= k < i ==> s[k] != ' ' && s[k] != ','
    {
      if s[i] == ' ' || s[i] == ',' {
        StopSkips(s, i);
        return Halves(s[..i], s[i..]);
      }
    }
    StopSkips(s, |s|);
    return Halves(s, "");
  }

  /** Text without a separator of its own only moves the search, and may change the side of the quotes. */
  lemma {:induction false} SeparatorAfter(a: string, b: string, inQuote: bool)
    requires Separator(a, inQuote) < 0
    ensures Inside(a + b, inQuote) == Inside(b, Inside(a, inQuote))
    ensures var r := Separator(b, Inside(a, inQuote)); Separator(a + b, inQuote) == if r < 0 then -1 else |a| + r
  {
    if a == "" {
      assert a + b == b;
    } else {
      assert (a + b)[1..] == a[1..] + b;
      SeparatorAfter(a[1..], b, inQuote != (a[0] == '"'));
    }
  }

  /** The positions of the double quotes. */
  function Quotes(s: string): set<int> { set i | 0 <= i < |s| && s[i] == '"' }

  /** Inside quotes is where an odd number of them has come before. */
  lemma {:induction false} InsideExactly(s: string)
    ensures Inside(s, false) <==> |Quotes(s)| % 2 == 1
  {
    if s == "" {
      assert Quotes(s) == {};
    } else {
      var n := |s| - 1;
      InsideExactly(s[..n]);
      assert s == s[..n] + [s[n]];
      InsideSnoc(s[..n], s[n], false);
      QuotesSnoc(s[..n], s[n]);
    }
  }

  lemma QuotesSnoc(s: string, c: char)
    ensures |Quotes(s + [c])| == |Quotes(s)| + if c == '"' then 1 else 0
  {
    assert Quotes(s + [c]) == Quotes(s) + if c == '"' then {|s|} else {};
  }

  lemma {:induction false} InsideSnoc(s: string, c: char, inQuote: bool)
    ensures Inside(s + [c], inQuote) == (Inside(s, inQuote) != (c == '"'))
  {
    if s == "" {
      assert s + [c] == [c] && [c][1..] == "";
    } else {
      assert (s + [c])[1..] == s[1..] + [c];
      InsideSnoc(s[1..], c, inQuote != (s[0] == '"'));
    }
  }

  /** The separator is the first comma that an even number of quotes comes before, if there is one. */
  lemma {:induction false} SeparatorExactly(s: string, inQuote: bool)
    ensures var r := Separator(s, inQuote);
            && (r >= 0 ==> s[r] == ',' && !Inside(s[..r], inQuote))
            && forall k :: 0 <= k < (if r < 0 then |s| else r) ==> s[k] != ',' || Inside(s[..k], inQuote)
  {
    if s != "" {
      var q := inQuote != (s[0] == '"');
      SeparatorExactly(s[1..], q);
      assert s[..0] == "";
      forall k | 1 <= k <= |s|
        ensures Inside(s[..k], inQuote) == Inside(s[1..][..k - 1], q)
      {
        assert s[..k][1..] == s[1..][..k - 1];
      }
      assert forall k :: 1 <= k < |s| ==> s[k] == s[1..][k - 1];
    }
  }

  lemma {:induction false} DropAnyExactly(s: string, cut: set<char>)
    ensures var r := DropAny(s, cut);
            |r| <= |s| && r == s[|s| - |r|..] && (r == "" || r[0] !in cut) && forall k :: 0 <= k < |s| - |r| ==> s[k] in cut
  {
    if s != "" && s[0] in cut {
      DropAnyExactly(s[1..], cut);
      assert forall k :: 1 <= k < |s| ==> s[k] == s[1..][k - 1];
    }
  }

  /** An even number of quotes comes before position k. */
  predicate Outside(s: string, k: int)
    requires 0 <= k <= |s|
  {
    |Quotes(s[..k])| % 2 == 0
  }

  lemma OutsideExactly(s: string)
    ensures forall k :: 0 <= k <= |s| ==> (Outside(s, k) <==> !Inside(s[..k], false))
  {
    forall k | 0 <= k <= |s|
      ensures Outside(s, k) <==> !Inside(s[..k], false)
    {
      InsideExactly(s[..k]);
    }
  }

  /** Attributes and name are cut at the first comma that an even number of quotes comes before. */
  lemma NameSplitAt(s: string, i: nat)
    requires i < |s| && s[i] == ',' && Outside(s, i) && forall k :: 0 <= k < i && s[k] == ',' ==> !Outside(s, k)
    ensures NameSplit(s) == Halves(s[..i], s[i + 1..])
  {
    SeparatorExactly(s, false);
    OutsideExactly(s);
  }

  /** Without such a comma there are no attributes, and the name is what follows the leading blanks and commas. */
  lemma NameSplitNowhere(s: string)
    requires forall k :: 0 <= k < |s| && s[k] == ',' ==> !Outside(s, k)
    ensures var name := NameSplit(s).after;
            && NameSplit(s).before == "" && |name| <= |s| && name == s[|s| - |name|..]
            && (name == "" || (name[0] != ' ' && name[0] != ','))
            && forall k :: 0 <= k < |s| - |name| ==> s[k] == ' ' || s[k] == ','
  {
    SeparatorExactly(s, false);
    OutsideExactly(s);
    DropAnyExactly(s, {' ', ','});
  }

  method SplitNameFromAttrs(s: string) returns (r: Halves)
    ensures r == NameSplit(s)
  {
    var inQuote := false;
    for i := 0 to |s|
      invariant Separator(s[..i], false) < 0 && Inside(s[..i], false) == inQuote
    {
      assert s == s[..i] + s[i..] && s[..i + 1] == s[..i] + [s[i]];
      SeparatorAfter(s[..i], s[i..], false);
      SeparatorAfter(s[..i], [s[i]], false);
      if s[i] == '"' {
        inQuote := !inQuote;
      } else if s[i] == ',' {
        if !inQuote {
          return Halves(s[..i], s[i + 1..]);
        }
      }
    }
    assert s[..|s|] == s;
    return Halves("", DropAny(s, {' ', ','}));
  }

  // ---------------------------------------------------------------- attributes

  /** The value that s starts with, and what follows it. */
  function Value(s: string): Halves
    requires s != ""
  {
    if s[0] == '"' then
      var end := IndexOf(s[1..], '"');
      if end < 0 then Halves(s[1..], "") else Halves(s[1..1 + end], s[2 + end..])
    else
      var sp := IndexOf(s, ' ');
      if sp < 0 then Halves(s, "") else Halves(s[..sp], s[sp + 1..])
  }

  /** A value in quotes ends at the next quote, or at the end of the text. */
  lemma QuotedValue(v: string, rest: string)
    requires '"' !in v
    ensures Value("\"" + v + "\"" + rest) == Halves(v, rest) && Value("\"" + v) == Halves(v, "")
  {
    var q := "\"" + v + "\"" + rest;
    assert q[1..] == v + ['"'] + rest && ("\"" + v)[1..] == v;
    FirstIndexAfter(v, '"', rest);
    assert q[1..1 + |v|] == v && q[2 + |v|..] == rest;
  }

  /** A bare value ends at the next blank, or at the end of the text. */
  lemma BareValue(v: string, rest: string)
    requires v != "" && v[0] != '"' && ' ' !in v
    ensures Value(v + " " + rest) == Halves(v, rest) && Value(v) == Halves(v, "")
  {
    var b := v + " " + rest;
    FirstIndexAfter(v, ' ', rest);
    assert b[..|v|] == v && b[|v| + 1..] == rest;
  }

  function DropBlanks(s: string): (r: string)
    ensures |r| <= |s|
  {
    if s != "" && s[0] == ' ' then DropBlanks(s[1..]) else s
  }

  function Noted(out: map<string, string>, key: string, value: string): map<string, string>
  {
    if key == "" then out else out[key := value]
  }

  function AttrsFrom(s: string, out: map<string, string>): map<string, string>
    decreases |s|
  {
    var eq := IndexOf(s, '=');
    if eq < 0 || s[eq + 1..] == "" then out
    else
      var v := Value(s[eq + 1..]);
      AttrsFrom(DropBlanks(v.after), Noted(out, Trim(s[..eq]), v.before))
  }

  method TakeValue(rest: string) returns (value: string, after: string)
    requires rest != ""
    ensures Value(rest) == Halves(value, after) && |after| <= |rest|
  {
    if rest[0] == '"' {
      var end := IndexOf(rest[1..], '"');
      if end < 0 {
        return rest[1..], "";
      }
      return rest[1..1 + end], rest[2 + end..];
    }
    var sp := IndexOf(rest, ' ');
    if sp < 0 {
      return rest, "";
    }
    return rest[..sp], rest[sp + 1..];
  }

  /** A value without a key is read over. */
  lemma KeylessIgnored(s: string, out: map<string, string>)
    requires s != ""
    ensures AttrsFrom(['='] + s, out) == AttrsFrom(DropBlanks(Value(s).after), out)
  {
    var t := ['='] + s;
    FirstIndexAfter("", '=', s);
    assert "" + ['='] + s == t && t[..0] == "" && t[1..] == s && Trim("") == "";
    AttrsNext(t, 0, s, out);
  }

  lemma AttrsNext(t: string, eq: nat, rest: string, out: map<string, string>)
    requires IndexOf(t, '=') == eq && t[eq + 1..] == rest && rest != ""
    ensures AttrsFrom(t, out) == AttrsFrom(DropBlanks(Value(rest).after), Noted(out, Trim(t[..eq]), Value(rest).before))
  {
  }

  method ParseAttrs(text: string) returns (out: map<string, string>)
    ensures out == AttrsFrom(Trim(text), map[])
  {
    out := map[];
    var s := Trim(text);
    while |s| > 0
      invariant AttrsFrom(s, out) == AttrsFrom(Trim(text), map[])
      decreases |s|
    {
      var eq := IndexOf(s, '=');
      if eq < 0 {
        break;
      }
      var key := Trim(s[..eq]);
      var rest := s[eq + 1..];
      if |rest| == 0 {
        break;
      }
      var value, after := TakeValue(rest);
      AttrsNext(s, eq, rest, out);
      if key != "" {
        out := out[key := value];
      }
      s := DropBlanks(after);
    }
  }

  // ---------------------------------------------------------------- one entry

  predicate HasPrefix(s: string, p: string) { |s| >= |p| && s[..|p|] == p }

  function TrimPrefix(s: string, p: string): string { if HasPrefix(s, p) then s[|p|..] else s }

  datatype Promoted = Promoted(fields: map<string, string>, numbers: map<string, int>)

  function Add(p: Promoted, names: Names, name: string, value: string): Promoted
  {
    if name in names.fields then p.(fields := p.fields[name := value])
    else if name in names.numbers && Atoi(value).ok then p.(numbers := p.numbers[name := Atoi(value).value])
    else p
  }

  function Promote(w: World, names: Names, attrs: map<string, string>, keys: seq<string>): Promoted
    requires forall k :: k in keys ==> k in attrs
  {
    if keys == [] then Promoted(map[], map[])
    else
      var key := keys[|keys| - 1];
      Add(Promote(w, names, attrs, keys[..|keys| - 1]), names, w.lower(key), attrs[key])
  }

  /** Names are promoted whatever their case: the field holds the value of some attribute whose lower-case key it is. */
  ghost predicate Gives(w: World, attrs: map<string, string>, keys: seq<string>, name: string, value: string)
  {
    exists k :: k in keys && k in attrs && w.lower(k) == name && attrs[k] == value
  }

  lemma {:induction false} PromotedFieldsExactly(w: World, names: Names, attrs: map<string, string>, keys: seq<string>, name: string)
    requires forall k :: k in keys ==> k in attrs
    ensures var fields := Promote(w, names, attrs, keys).fields;
            && (name in fields <==> name in names.fields && exists k :: k in keys && w.lower(k) == name)
            && (name in fields ==> Gives(w, attrs, keys, name, fields[name]))
  {
    if keys != [] {
      var before, key := keys[..|keys| - 1], keys[|keys| - 1];
      assert keys == before + [key];
      PromotedFieldsExactly(w, names, attrs, before, name);
      var fields := Promote(w, names, attrs, before).fields;
      if name in fields {
        var k :| k in before && k in attrs && w.lower(k) == name && attrs[k] == fields[name];
        assert k in keys;
      }
      assert key in keys;
    }
  }

  lemma {:induction false} PromotedNumbersExactly(w: World, names: Names, attrs: map<string, string>, keys: seq<string>, name: string)
    requires forall k :: k in keys ==> k in attrs
    ensures var numbers := Promote(w, names, attrs, keys).numbers;
            name in numbers ==>
              name in names.numbers && exists k :: k in keys && w.lower(k) == name && Atoi(attrs[k]) == Number(numbers[name], true)
  {
    if keys != [] {
      var before, key := keys[..|keys| - 1], keys[|keys| - 1];
      assert keys == before + [key];
      PromotedNumbersExactly(w, names, attrs, before, name);
      var numbers := Promote(w, names, attrs, before).numbers;
      if name in numbers {
        var k :| k in before && w.lower(k) == name && Atoi(attrs[k]) == Number(numbers[name], true);
        assert k in keys;
      }
      assert key in keys;
    }
  }

  method PromoteAttrs(w: World, names: Names, attrs: map<string, string>, keys: seq<string>)
    returns (fields: map<string, string>, numbers: map<string, int>)
    requires forall k :: k in keys ==> k in attrs
    ensures Promoted(fields, numbers) == Promote(w, names, attrs, keys)
  {
    fields, numbers := map[], map[];
    for i := 0 to |keys|
      invariant Promote(w, names, attrs, keys[..i]) == Promoted(fields, numbers)
    {
      assert keys[..i + 1][..i] == keys[..i];
      var name, v := w.lower(keys[i]), attrs[keys[i]];
      if name in names.fields {
        fields := fields[name := v];
      } else if name in names.numbers && Atoi(v).ok {
        numbers := numbers[name := Atoi(v).value];
      }
    }
    assert keys[..|keys|] == keys;
  }

  ghost function ParsedExtInf(w: World, line: string, lineNum: int): Entry
    requires Walks(w)
  {
    var d := DurationSplit(TrimPrefix(line, "#EXTINF:"));
    var n := NameSplit(d.after);
    var attrs := AttrsFrom(Trim(n.before), map[]);
    var p := Promote(w, w.names, attrs, w.order(attrs));
    Entry(Trim(n.after), "", if Atoi(d.before).ok then Atoi(d.before).value else 0, lineNum, attrs, p.fields, p.numbers)
  }

  method ParseExtInf(w: World, line: string, lineNum: int) returns (e: Entry)
    requires Walks(w)
    ensures e == ParsedExtInf(w, line, lineNum)
  {
    var d := SplitDuration(TrimPrefix(line, "#EXTINF:"));
    var n := SplitNameFromAttrs(d.after);
    var attrs := ParseAttrs(n.before);
    var fields, numbers := PromoteAttrs(w, w.names, attrs, w.order(attrs));
    var duration := 0;
    if Atoi(d.before).ok {
      duration := Atoi(d.before).value;
    }
    e := Entry(Trim(n.after), "", duration, lineNum, attrs, fields, numbers);
  }

  /** The duration is the text before the first blank or comma, if that is an integer in range, and otherwise 0. */
  lemma DurationExactly(w: World, d: string, after: string, lineNum: int)
    requires Walks(w) && (forall k :: 0 <= k < |d| ==> d[k] != ' ' && d[k] != ',')
    requires after == "" || after[0] == ' ' || after[0] == ','
    ensures var e := ParsedExtInf(w, "#EXTINF:" + (d + after), lineNum);
            && (d != "" && AllDigits(d) && Text.Value(d) <= MAX ==> e.duration == Text.Value(d))
            && (d == "" || (AllDigits(d) && Text.Value(d) > MAX) ==> e.duration == 0)
            && (d != "" && !AllDigits(d) && d[0] != '-' && d[0] != '+' ==> e.duration == 0)
  {
    assert ("#EXTINF:" + (d + after))[8..] == d + after && ("#EXTINF:" + (d + after))[..8] == "#EXTINF:";
    SplitBefore(d, after);
    if d != "" {
      AtoiExactly(d);
    }
  }

  lemma SplitBefore(d: string, after: string)
    requires (forall k :: 0 <= k < |d| ==> d[k] != ' ' && d[k] != ',') && (after == "" || after[0] == ' ' || after[0] == ',')
    ensures DurationSplit(d + after) == Halves(d, after)
  {
    var s := d + after;
    assert s[|d|..] == after && s[..|d|] == d;
    StopSkips(s, |d|);
    assert after == "" ==> s == d;
  }

  // ---------------------------------------------------------------- printing

  datatype Attr = Attr(key: string, value: string, quoted: bool)

  function ShownValue(a: Attr): string { if a.quoted then "\"" + a.value + "\"" else a.value }

  function ShownAttr(a: Attr): string { a.key + "=" + ShownValue(a) }

  function ShownAttrs(attrs: seq<Attr>): string
  {
    if attrs == [] then "" else ShownAttr(attrs[0]) + (if |attrs| == 1 then "" else " " + ShownAttrs(attrs[1..]))
  }

  function AttrPart(attrs: seq<Attr>): string { if attrs == [] then "" else " " + ShownAttrs(attrs) }

  function ShownExtInf(duration: int, attrs: seq<Attr>, name: string): string
  {
    "#EXTINF:" + (Printed(duration) + (AttrPart(attrs) + ([','] + name)))
  }

  function AttrMap(attrs: seq<Attr>, out: map<string, string>): map<string, string>
  {
    if attrs == [] then out else AttrMap(attrs[1..], out[attrs[0].key := attrs[0].value])
  }

  /** A key without space, '=', ',' or '"'. */
  predicate PlainKey(k: string) { k != "" && forall i :: 0 <= i < |k| ==> !IsSpace(k[i]) && k[i] != '=' && k[i] != ',' && k[i] != '"' }

  /** A value without '"'; without quotes around it, also without space and ',', and not empty. */
  predicate PlainValue(v: string, quoted: bool)
  {
    && (forall i :: 0 <= i < |v| ==> v[i] != '"' && (!quoted ==> !IsSpace(v[i]) && v[i] != ','))
    && (!quoted ==> v != "")
  }

  predicate PlainAttr(a: Attr) { PlainKey(a.key) && PlainValue(a.value, a.quoted) }

  predicate PlainAttrs(attrs: seq<Attr>) { forall i :: 0 <= i < |attrs| ==> PlainAttr(attrs[i]) }

  // ---------------------------------------------------------------- attributes are read back

  lemma ShownAttrEnds(a: Attr)
    requires PlainAttr(a)
    ensures var s := ShownAttr(a); s != "" && !IsSpace(s[0]) && !IsSpace(s[|s| - 1])
  {
    var s := ShownAttr(a);
    assert s[0] == a.key[0];
    assert s[|s| - 1] == if a.quoted then '"' else a.value[|a.value| - 1];
  }

  lemma {:induction false} ShownAttrsEnds(attrs: seq<Attr>)
    requires PlainAttrs(attrs) && attrs != []
    ensures var s := ShownAttrs(attrs); s != "" && !IsSpace(s[0]) && !IsSpace(s[|s| - 1])
  {
    ShownAttrEnds(attrs[0]);
    if |attrs| > 1 {
      ShownAttrsEnds(attrs[1..]);
      var s, t := ShownAttrs(attrs), ShownAttrs(attrs[1..]);
      assert s == ShownAttr(attrs[0]) + " " + t;
      assert s[|s| - 1] == t[|t| - 1] && s[0] == ShownAttr(attrs[0])[0];
    }
  }

  lemma QuotedRead(v: string, tail: string)
    requires '"' !in v
    ensures Value("\"" + v + "\"" + tail) == Halves(v, tail)
  {
    var s := "\"" + v + "\"" + tail;
    assert s[1..] == v + ['"'] + tail;
    FirstIndexAfter(v, '"', tail);
    assert s[1..1 + |v|] == v && s[2 + |v|..] == tail;
  }

  lemma BareRead(v: string, tail: string)
    requires v != "" && v[0] != '"' && ' ' !in v
    ensures Value(v + [' '] + tail) == Halves(v, tail)
  {
    var s := v + [' '] + tail;
    FirstIndexAfter(v, ' ', tail);
    assert s[..|v|] == v && s[|v| + 1..] == tail && s[0] == v[0];
  }

  lemma ValueRead(v: string, quoted: bool, tail: string)
    requires PlainValue(v, quoted) && (tail == "" || tail[0] == ' ')
    ensures var s := (if quoted then "\"" + v + "\"" else v) + tail;
            s != "" && Value(s).before == v && DropBlanks(Value(s).after) == DropBlanks(tail)
  {
    if quoted {
      QuotedRead(v, tail);
    } else if tail == "" {
      assert v + tail == v && ' ' !in v;
    } else {
      assert v + tail == v + [' '] + tail[1..];
      BareRead(v, tail[1..]);
    }
  }

  lemma TrimmedKey(k: string)
    requires PlainKey(k)
    ensures Trim(k) == k && '=' !in k
  {
    TrimOfTrimmed(k);
  }

  lemma KeyRead(key: string, rest: string, out: map<string, string>)
    requires PlainKey(key) && rest != ""
    ensures AttrsFrom(key + ['='] + rest, out) == AttrsFrom(DropBlanks(Value(rest).after), out[key := Value(rest).before])
  {
    var s := key + ['='] + rest;
    TrimmedKey(key);
    FirstIndexAfter(key, '=', rest);
    assert s[..|key|] == key && s[|key| + 1..] == rest;
  }

  lemma AttrRead(a: Attr, tail: string, out: map<string, string>)
    requires PlainAttr(a) && (tail == "" || tail[0] == ' ')
    ensures AttrsFrom(ShownAttr(a) + tail, out) == AttrsFrom(DropBlanks(tail), out[a.key := a.value])
  {
    var v := ShownValue(a);
    assert (a.key + ['='] + v) + tail == a.key + ['='] + (v + tail);
    ValueRead(a.value, a.quoted, tail);
    KeyRead(a.key, v + tail, out);
  }

  lemma {:induction false} AttrsRead(attrs: seq<Attr>, out: map<string, string>)
    requires PlainAttrs(attrs)
    ensures AttrsFrom(ShownAttrs(attrs), out) == AttrMap(attrs, out)
  {
    if attrs != [] {
      var a := attrs[0];
      var more := out[a.key := a.value];
      if |attrs| == 1 {
        assert ShownAttrs(attrs) == ShownAttr(a) + "";
        AttrRead(a, "", out);
        assert attrs[1..] == [];
      } else {
        var t := ShownAttrs(attrs[1..]);
        ShownAttrsEnds(attrs[1..]);
        AttrRead(a, " " + t, out);
        assert (" " + t)[1..] == t;
        assert t[0] != ' ';
        AttrsRead(attrs[1..], more);
      }
    }
  }

  lemma AttrPartRead(attrs: seq<Attr>)
    requires PlainAttrs(attrs)
    ensures AttrsFrom(Trim(AttrPart(attrs)), map[]) == AttrMap(attrs, map[])
  {
    AttrsRead(attrs, map[]);
    if attrs != [] {
      var t := ShownAttrs(attrs);
      ShownAttrsEnds(attrs);
      assert (" " + t)[1..] == t;
      TrimOfTrimmed(t);
    }
  }

  // ---------------------------------------------------------------- lines are split where they were joined

  /** Text that closes its quotes and has no comma outside them. */
  predicate Closed(s: string) { Separator(s, false) < 0 && !Inside(s, false) }

  lemma ClosedConcat(a: string, b: string)
    requires Closed(a) && Closed(b)
    ensures Closed(a + b)
  {
    SeparatorAfter(a, b, false);
  }

  lemma {:induction false} NoSpecialClosed(s: string, inQuote: bool)
    requires forall i :: 0 <= i < |s| ==> s[i] != '"' && (inQuote || s[i] != ',')
    ensures Separator(s, inQuote) < 0 && Inside(s, inQuote) == inQuote
  {
    if s != "" {
      NoSpecialClosed(s[1..], inQuote);
    }
  }

  lemma QuotedClosed(v: string)
    requires PlainValue(v, true)
    ensures Closed("\"" + v + "\"")
  {
    NoSpecialClosed(v, true);
    SeparatorAfter(v, "\"", true);
    assert ("\"" + v + "\"")[1..] == v + "\"";
  }

  lemma AttrClosed(a: Attr)
    requires PlainAttr(a)
    ensures Closed(ShownAttr(a))
  {
    NoSpecialClosed(a.key, false);
    NoSpecialClosed("=", false);
    ClosedConcat(a.key, "=");
    if a.quoted {
      QuotedClosed(a.value);
    } else {
      NoSpecialClosed(a.value, false);
    }
    ClosedConcat(a.key + "=", ShownValue(a));
  }

  lemma {:induction false} AttrsClosed(attrs: seq<Attr>)
    requires PlainAttrs(attrs)
    ensures Closed(ShownAttrs(attrs))
  {
    if attrs != [] {
      AttrClosed(attrs[0]);
      if |attrs| == 1 {
        assert ShownAttrs(attrs) == ShownAttr(attrs[0]);
      } else {
        AttrsClosed(attrs[1..]);
        NoSpecialClosed(" ", false);
        ClosedConcat(" ", ShownAttrs(attrs[1..]));
        ClosedConcat(ShownAttr(attrs[0]), " " + ShownAttrs(attrs[1..]));
      }
    }
  }

  lemma NameRead(attrs: seq<Attr>, name: string)
    requires PlainAttrs(attrs)
    ensures NameSplit(AttrPart(attrs) + ([','] + name)) == Halves(AttrPart(attrs), name)
  {
    AttrsClosed(attrs);
    NoSpecialClosed(" ", false);
    if attrs != [] {
      ClosedConcat(" ", ShownAttrs(attrs));
    }
    SplitAtComma(AttrPart(attrs), name);
  }

  lemma SplitAtComma(a: string, name: string)
    requires Separator(a, false) < 0 && !Inside(a, false)
    ensures NameSplit(a + ([','] + name)) == Halves(a, name)
  {
    var s := a + ([','] + name);
    SeparatorAfter(a, [','] + name, false);
    assert s[..|a|] == a && s[|a| + 1..] == name;
  }

  lemma DurationRead(d: int, after: string)
    requires after != "" && (after[0] == ' ' || after[0] == ',')
    ensures DurationSplit(Printed(d) + after) == Halves(Printed(d), after)
  {
    var p := Printed(d);
    PrintedChars(d);
    forall k | 0 <= k < |p|
      ensures (p + after)[k] != ' ' && (p + after)[k] != ','
    {
      assert p[k] in p;
    }
    assert (p + after)[|p|..] == after && (p + after)[..|p|] == p;
    StopSkips(p + after, |p|);
  }

  // ---------------------------------------------------------------- promoted attributes

  /** Distinct keys that are already lower-case. */
  ghost predicate LowerKeys(w: World, attrs: map<string, string>) { forall k :: k in attrs ==> w.lower(k) == k }

  ghost function Fields(names: Names, attrs: map<string, string>): map<string, string>
  {
    map k | k in attrs && k in names.fields :: attrs[k]
  }

  ghost function Numbers(names: Names, attrs: map<string, string>): map<string, int>
  {
    map k | k in attrs && k in names.numbers && k !in names.fields && Atoi(attrs[k]).ok :: Atoi(attrs[k]).value
  }

  ghost function Only(attrs: map<string, string>, keys: seq<string>): map<string, string>
  {
    map k | k in attrs && k in keys :: attrs[k]
  }

  lemma AddLower(names: Names, m: map<string, string>, key: string, value: string)
    requires key in m ==> m[key] == value
    ensures Add(Promoted(Fields(names, m), Numbers(names, m)), names, key, value) ==
            Promoted(Fields(names, m[key := value]), Numbers(names, m[key := value]))
  {
    FieldsNext(names, m, key, value);
    NumbersNext(names, m, key, value);
  }

  lemma FieldsNext(names: Names, m: map<string, string>, key: string, value: string)
    ensures Fields(names, m[key := value]) == if key in names.fields then Fields(names, m)[key := value] else Fields(names, m)
  {
  }

  lemma NumbersNext(names: Names, m: map<string, string>, key: string, value: string)
    requires key in m ==> m[key] == value
    ensures Numbers(names, m[key := value]) ==
            if key in names.numbers && key !in names.fields && Atoi(value).ok then Numbers(names, m)[key := Atoi(value).value]
            else Numbers(names, m)
  {
  }

  lemma {:induction false} PromoteLower(w: World, names: Names, attrs: map<string, string>, keys: seq<string>)
    requires LowerKeys(w, attrs) && forall k :: k in keys ==> k in attrs
    ensures Promote(w, names, attrs, keys) == Promoted(Fields(names, Only(attrs, keys)), Numbers(names, Only(attrs, keys)))
  {
    if keys == [] {
      assert Only(attrs, keys) == map[];
    } else {
      var n := |keys| - 1;
      var before, key := keys[..n], keys[n];
      PromoteLower(w, names, attrs, before);
      OnlyMore(attrs, before, key);
      assert keys == before + [key];
      AddLower(names, Only(attrs, before), key, attrs[key]);
    }
  }

  lemma OnlyMore(attrs: map<string, string>, keys: seq<string>, key: string)
    requires key in attrs
    ensures Only(attrs, keys + [key]) == Only(attrs, keys)[key := attrs[key]]
  {
  }

  lemma PromoteAll(w: World, names: Names, attrs: map<string, string>)
    requires Walks(w) && LowerKeys(w, attrs)
    ensures Promote(w, names, attrs, w.order(attrs)) == Promoted(Fields(names, attrs), Numbers(names, attrs))
  {
    PromoteLower(w, names, attrs, w.order(attrs));
    assert Only(attrs, w.order(attrs)) == attrs;
  }

  /** What an entry with these attributes looks like. */
  ghost function Described(names: Names, duration: int, attrs: map<string, string>, name: string, lineNum: int): Entry
  {
    Entry(name, "", duration, lineNum, attrs, Fields(names, attrs), Numbers(names, attrs))
  }

  /** The round trip of one line: a printed integer duration, attributes and name are all read back, with commas and
      '=' allowed in values and commas in the name, in whatever order the attributes are walked. */
  lemma ExtInfRoundTrip(w: World, duration: int, attrs: seq<Attr>, name: string, lineNum: int)
    requires Walks(w) && -MAX - 1 <= duration <= MAX && PlainAttrs(attrs) && Trimmed(name)
    requires LowerKeys(w, AttrMap(attrs, map[]))
    ensures ParsedExtInf(w, ShownExtInf(duration, attrs, name), lineNum) ==
            Described(w.names, duration, AttrMap(attrs, map[]), name, lineNum)
  {
    var line, after := ShownExtInf(duration, attrs, name), AttrPart(attrs) + ([','] + name);
    assert line[..8] == "#EXTINF:" && line[8..] == Printed(duration) + after;
    DurationRead(duration, after);
    NameRead(attrs, name);
    AttrPartRead(attrs);
    AtoiOfPrinted(duration);
    TrimOfTrimmed(name);
    var m := AttrMap(attrs, map[]);
    PromoteAll(w, w.names, m);
  }

  ghost predicate TextName(k: string)
  {
    k == "tvg-id" || k == "tvg-name" || k == "tvg-logo" || k == "tvg-language" || k == "tvg-country" || k == "group-title"
    || k == "catchup" || k == "catchup-source"
  }

  lemma PromotedNames(k: string)
    ensures k in PROMOTED.fields <==> TextName(k)
    ensures k in PROMOTED.numbers <==> k == "tvg-chno" || k == "catchup-days"
  {
  }

  lemma NumbersAreNoTexts()
    ensures !TextName("tvg-chno") && !TextName("catchup-days")
  {
    assert "tvg-chno"[4] == 'c' && "tvg-name"[4] == 'n' && "tvg-logo"[4] == 'l';
    assert "tvg-language"[0] != "catchup-days"[0];
  }

  lemma DescribedKeys(names: Names, m: map<string, string>, k: string)
    ensures k in Fields(names, m) <==> k in m && k in names.fields
    ensures k in Fields(names, m) ==> Fields(names, m)[k] == m[k]
    ensures k in Numbers(names, m) <==> k in m && k in names.numbers && k !in names.fields && Atoi(m[k]).ok
    ensures k in Numbers(names, m) ==> Numbers(names, m)[k] == Atoi(m[k]).value
  {
  }

  /** Which attributes become fields of their own, and how, whatever others there are: the eight names of texts, and of
      the two numbers those that are integers. */
  lemma PromotedExactly(w: World, duration: int, attrs: seq<Attr>, name: string, lineNum: int, k: string)
    requires Walks(w) && -MAX - 1 <= duration <= MAX && PlainAttrs(attrs) && Trimmed(name) && w.names == PROMOTED
    requires LowerKeys(w, AttrMap(attrs, map[]))
    ensures var e, m := ParsedExtInf(w, ShownExtInf(duration, attrs, name), lineNum), AttrMap(attrs, map[]);
            && (k in e.fields <==> k in m && TextName(k))
            && (k in e.numbers <==> k in m && (k == "tvg-chno" || k == "catchup-days") && Atoi(m[k]).ok)
            && (k in e.fields ==> e.fields[k] == m[k]) && (k in e.numbers ==> e.numbers[k] == Atoi(m[k]).value)
  {
    var names, m := w.names, AttrMap(attrs, map[]);
    ExtInfRoundTrip(w, duration, attrs, name, lineNum);
    DescribedKeys(names, m, k);
    PromotedNames(k);
    NumbersAreNoTexts();
  }

  // ---------------------------------------------------------------- a whole playlist

  function TrimEnd(s: string): string
  {
    if s != "" && (s[|s| - 1] == '\r' || s[|s| - 1] == '\n') then TrimEnd(s[..|s| - 1]) else s
  }

  /** Text up to the first line end, and what follows it. */
  function HeadLine(s: string): string { if IndexOf(s, '\n') < 0 then s else s[..IndexOf(s, '\n')] }

  function TailLines(s: string): (r: string)
    requires s != ""
    ensures |r| < |s|
  {
    if IndexOf(s, '\n') < 0 then "" else s[IndexOf(s, '\n') + 1..]
  }

  /** The lines of a text as the parser reads them: a last line without an end counts too. */
  function RawLines(s: string): seq<string>
    decreases |s|
  {
    if s == "" then [] else [TrimEnd(HeadLine(s))] + RawLines(TailLines(s))
  }

  datatype State = State(line: int, pending: Entry, have: bool, out: seq<Entry>)

  const BLANK := Entry("", "", 0, 0, map[], map[], map[])

  predicate NoGroup(e: Entry) { "group-title" !in e.fields || e.fields["group-title"] == "" }

  datatype Tag = Header | Info | Group | Option | Comment | Url

  function Tags(): seq<(string, Tag)>
  {
    [("#EXTM3U", Header), ("#EXTINF", Info), ("#EXTGRP:", Group), ("#EXTVLCOPT:", Option), ("#KODIPROP:", Option), ("#", Comment)]
  }

  /** The first of the tags that the line starts with. */
  function TagOf(line: string, tags: seq<(string, Tag)>): Tag
  {
    if tags == [] then Url else if HasPrefix(line, tags[0].0) then tags[0].1 else TagOf(line, tags[1..])
  }

  /** What the parser knows of single lines. */
  datatype Grammar = Grammar(tag: string -> Tag, parse: (string, int) -> Entry, option: (string, Entry) -> Entry)

  ghost function GrammarOf(w: World): Grammar
    requires Walks(w)
  {
    Grammar(line => TagOf(line, Tags()), (line, lineNum) => ParsedExtInf(w, line, lineNum), w.option)
  }

  function Handle(g: Grammar, st: State, line: string): State
  {
    match g.tag(line)
    case Header => st
    case Info => st.(pending := g.parse(line, st.line), have := true)
    case Group =>
      if st.have && NoGroup(st.pending) then
        st.(pending := st.pending.(fields := st.pending.fields["group-title" := Trim(TrimPrefix(line, "#EXTGRP:"))]))
      else st
    case Option => if st.have then st.(pending := g.option(line, st.pending)) else st
    case Comment => st
    case Url => if st.have then State(st.line, BLANK, false, st.out + [st.pending.(url := line)]) else st
  }

  lemma TagCases(line: string)
    ensures TagOf(line, Tags()) ==
            if HasPrefix(line, "#EXTM3U") then Header
            else if HasPrefix(line, "#EXTINF") then Info
            else if HasPrefix(line, "#EXTGRP:") then Group
            else if HasPrefix(line, "#EXTVLCOPT:") || HasPrefix(line, "#KODIPROP:") then Option
            else if HasPrefix(line, "#") then Comment
            else Url
  {
    var t := Tags();
    assert t[1..][0] == t[1] && t[1..][1..][0] == t[2] && t[1..][1..][1..][0] == t[3];
    assert t[1..][1..][1..][1..] == t[4..] && t[4..][1..] == t[5..] && t[5..][1..] == [];
    assert TagOf(line, t[5..]) == if HasPrefix(line, "#") then Comment else Url;
    assert TagOf(line, t[4..]) == if HasPrefix(line, "#KODIPROP:") then Option else if HasPrefix(line, "#") then Comment else Url;
    assert TagOf(line, t[1..][1..]) ==
           if HasPrefix(line, "#EXTGRP:") then Group else if HasPrefix(line, "#EXTVLCOPT:") then Option else TagOf(line, t[4..]);
  }

  function NextLine(g: Grammar, st: State, line: string): State
  {
    var st1 := st.(line := st.line + 1);
    if line == "" then st1 else Handle(g, st1, line)
  }

  function HandleAll(g: Grammar, st: State, lines: seq<string>): State
    decreases |lines|
  {
    if lines == [] then st else HandleAll(g, NextLine(g, st, lines[0]), lines[1..])
  }

  lemma HandleCons(g: Grammar, st: State, line: string, lines: seq<string>)
    ensures HandleAll(g, st, [line] + lines) == HandleAll(g, NextLine(g, st, line), lines)
  {
    assert ([line] + lines)[1..] == lines;
  }

  /** What each kind of line does. Blank lines, the header and comments are passed over; an #EXTINF line starts an entry
      and drops one that waits; a group is only taken where the entry has none; a URL completes the entry that waits. */
  lemma LineByKind(w: World, st: State, line: string)
    requires Walks(w)
    ensures var n := NextLine(GrammarOf(w), st, line);
            && n.line == st.line + 1
            && (line == "" || "#EXTM3U" <= line ==> n == st.(line := st.line + 1))
            && ("#EXTINF" <= line ==> n.pending == ParsedExtInf(w, line, st.line + 1) && n.have && n.out == st.out)
            && ("#EXTGRP:" <= line && !st.have ==> n == st.(line := st.line + 1))
            && ("#EXTGRP:" <= line && st.have ==>
                  n == if "group-title" in st.pending.fields && st.pending.fields["group-title"] != "" then
                         st.(line := st.line + 1)
                       else
                         st.(line := st.line + 1,
                             pending := st.pending.(fields := st.pending.fields["group-title" := Trim(line[8..])])))
            && (line != "" && line[0] != '#' ==>
                  n == if st.have then State(st.line + 1, BLANK, false, st.out + [st.pending.(url := line)])
                       else st.(line := st.line + 1))
            && (IsOther(line) ==> n == st.(line := st.line + 1))
  {
    TagCases(line);
    LineTags(line);
  }

  /** A comment that is none of the tags. */
  predicate IsOther(line: string)
  {
    && "#" <= line && !("#EXTM3U" <= line) && !("#EXTINF" <= line) && !("#EXTGRP:" <= line)
    && !("#EXTVLCOPT:" <= line) && !("#KODIPROP:" <= line)
  }

  lemma PrefixIs(line: string, tag: string)
    ensures HasPrefix(line, tag) <==> tag <= line
  {
  }

  lemma LineTags(line: string)
    ensures forall tag: string :: HasPrefix(line, tag) <==> tag <= line
    ensures "#EXTINF" <= line ==> !("#EXTM3U" <= line)
    ensures "#EXTGRP:" <= line ==> !("#EXTM3U" <= line) && !("#EXTINF" <= line)
  {
    forall tag: string
      ensures HasPrefix(line, tag) <==> tag <= line
    {
      PrefixIs(line, tag);
    }
    assert "#EXTINF" <= line ==> line[4] == "#EXTINF"[4] == 'I';
    assert "#EXTM3U" <= line ==> line[4] == "#EXTM3U"[4] == 'M';
    assert "#EXTGRP:" <= line ==> line[4] == "#EXTGRP:"[4] == 'G';
  }

  /** At the end of the text an entry that still waits for its URL is emitted without one. */
  function Parsed(g: Grammar, text: string): seq<Entry>
  {
    var st := HandleAll(g, State(0, BLANK, false, []), RawLines(text));
    if st.have then st.out + [st.pending] else st.out
  }

  class Parser {
    var line: int
    var pending: Entry
    var have: bool

    constructor ()
      ensures line == 0 && pending == BLANK && !have
    {
      line, pending, have := 0, BLANK, false;
    }

    ghost function Now(out: seq<Entry>): State
      reads this
    {
      State(line, pending, have, out)
    }

    /** What the parser sends on is appended to `out`. */
    method HandleLine(w: World, text: string, out: seq<Entry>) returns (sent: seq<Entry>)
      requires Walks(w)
      modifies this
      ensures Now(sent) == Handle(GrammarOf(w), old(Now(out)), text)
    {
      TagCases(text);
      sent := out;
      if HasPrefix(text, "#EXTM3U") {
        return;
      } else if HasPrefix(text, "#EXTINF") {
        pending := ParseExtInf(w, text, line);
        have := true;
      } else if HasPrefix(text, "#EXTGRP:") {
        if have && NoGroup(pending) {
          pending := pending.(fields := pending.fields["group-title" := Trim(TrimPrefix(text, "#EXTGRP:"))]);
        }
      } else if HasPrefix(text, "#EXTVLCOPT:") || HasPrefix(text, "#KODIPROP:") {
        if have {
          pending := w.option(text, pending);
        }
      } else if HasPrefix(text, "#") {
        return;
      } else {
        if !have {
          return;
        }
        pending := pending.(url := text);
        sent := sent + [pending];
        pending := BLANK;
        have := false;
      }
    }

    method Feed(w: World, text: string, out: seq<Entry>) returns (sent: seq<Entry>)
      requires Walks(w)
      modifies this
      ensures Now(sent) == NextLine(GrammarOf(w), old(Now(out)), text)
    {
      line := line + 1;
      sent := out;
      if text != "" {
        sent := HandleLine(w, text, out);
      }
    }

    method ParseInto(w: World, text: string) returns (out: seq<Entry>)
      requires Walks(w) && line == 0 && pending == BLANK && !have
      modifies this
      ensures out == Parsed(GrammarOf(w), text)
    {
      out := [];
      var rest := text;
      ghost var g := GrammarOf(w);
      ghost var end := HandleAll(g, Now(out), RawLines(text));
      while rest != ""
        invariant HandleAll(g, Now(out), RawLines(rest)) == end
        decreases |rest|
      {
        var text := TrimEnd(HeadLine(rest));
        rest := TailLines(rest);
        HandleCons(g, Now(out), text, RawLines(rest));
        out := Feed(w, text, out);
      }
      if have {
        out := out + [pending];
      }
    }
  }

  /** A channel as a provider prints it. */
  datatype Channel = Channel(duration: int, attrs: seq<Attr>, name: string, url: string)

  predicate OneLine(s: string) { '\n' !in s && '\r' !in s }

  ghost predicate Printable(w: World, c: Channel)
  {
    && -MAX - 1 <= c.duration <= MAX && PlainAttrs(c.attrs) && Trimmed(c.name) && LowerKeys(w, AttrMap(c.attrs, map[]))
    && OneLine(c.name) && OneLine(c.url) && c.url != "" && c.url[0] != '#'
    && forall i :: 0 <= i < |c.attrs| ==> OneLine(c.attrs[i].value)
  }

  function InfoLine(c: Channel): string { ShownExtInf(c.duration, c.attrs, c.name) }

  function Shown(show: Channel -> string, cs: seq<Channel>): seq<string>
  {
    if cs == [] then [] else [show(cs[0]), cs[0].url] + Shown(show, cs[1..])
  }

  function Playlist(cs: seq<Channel>): string { Unlines(["#EXTM3U"] + Shown(InfoLine, cs)) }

  ghost function EntryOf(w: World, c: Channel, lineNum: int): Entry
  {
    Described(w.names, c.duration, AttrMap(c.attrs, map[]), c.name, lineNum).(url := c.url)
  }

  ghost function EntryFor(w: World): (Channel, int) -> Entry { (c, lineNum) => EntryOf(w, c, lineNum) }

  function Listed(entry: (Channel, int) -> Entry, cs: seq<Channel>, lineNum: int): seq<Entry>
  {
    if cs == [] then [] else [entry(cs[0], lineNum)] + Listed(entry, cs[1..], lineNum + 2)
  }

  /** The entries of the channels, whose first line is the second of the text. */
  ghost function Entries(w: World, cs: seq<Channel>): seq<Entry> { Listed(EntryFor(w), cs, 2) }

  predicate OneLines(ls: seq<string>) { ls == [] || (OneLine(ls[0]) && OneLines(ls[1..])) }

  lemma {:induction false} RawLinesOfUnlines(ls: seq<string>)
    requires OneLines(ls)
    ensures RawLines(Unlines(ls)) == ls
  {
    if ls != [] {
      var l, rest := ls[0], ls[1..];
      assert ls == [l] + rest;
      UnlinesCons(l, rest);
      var s := l + "\n" + Unlines(rest);
      FirstIndexAfter(l, '\n', Unlines(rest));
      assert s[..|l|] == l && s[|l| + 1..] == Unlines(rest);
      assert TrimEnd(l) == l by {
        assert l != "" ==> l[|l| - 1] in l;
      }
      RawLinesOfUnlines(rest);
    }
  }

  lemma OneLineConcat(a: string, b: string)
    requires OneLine(a) && OneLine(b)
    ensures OneLine(a + b)
  {
  }

  lemma AttrOneLine(a: Attr)
    requires PlainAttr(a) && OneLine(a.value)
    ensures OneLine(ShownAttr(a))
  {
    assert forall k :: k in a.key ==> !IsSpace(k);
    assert OneLine(a.key) && OneLine(a.key + "=");
    assert OneLine(ShownValue(a));
    OneLineConcat(a.key + "=", ShownValue(a));
  }

  lemma {:induction false} AttrsOneLine(attrs: seq<Attr>)
    requires PlainAttrs(attrs) && forall i :: 0 <= i < |attrs| ==> OneLine(attrs[i].value)
    ensures OneLine(ShownAttrs(attrs))
  {
    if attrs != [] {
      AttrOneLine(attrs[0]);
      if |attrs| > 1 {
        AttrsOneLine(attrs[1..]);
        OneLineConcat(" ", ShownAttrs(attrs[1..]));
        OneLineConcat(ShownAttr(attrs[0]), " " + ShownAttrs(attrs[1..]));
      }
    }
  }

  lemma ExtInfOneLine(w: World, c: Channel)
    requires Printable(w, c)
    ensures OneLine(ShownExtInf(c.duration, c.attrs, c.name))
  {
    AttrsOneLine(c.attrs);
    OneLineConcat(" ", ShownAttrs(c.attrs));
    PrintedChars(c.duration);
    OneLineConcat([','], c.name);
    OneLineConcat(AttrPart(c.attrs), [','] + c.name);
    OneLineConcat(Printed(c.duration), AttrPart(c.attrs) + ([','] + c.name));
    OneLineConcat("#EXTINF:", Printed(c.duration) + (AttrPart(c.attrs) + ([','] + c.name)));
  }

  lemma {:induction false} ChannelsOneLine(w: World, cs: seq<Channel>)
    requires forall i :: 0 <= i < |cs| ==> Printable(w, cs[i])
    ensures OneLines(Shown(InfoLine, cs))
  {
    if cs != [] {
      ExtInfOneLine(w, cs[0]);
      ChannelsOneLine(w, cs[1..]);
      var lines, rest := Shown(InfoLine, cs), Shown(InfoLine, cs[1..]);
      assert lines[1..][1..] == rest && lines[1..][0] == cs[0].url;
    }
  }

  // ---------------------------------------------------------------- what is printed is parsed, line by line

  /** The two lines of each channel are read as an #EXTINF line, whose entry is known, and a URL. */
  ghost predicate Reads(g: Grammar, show: Channel -> string, entry: (Channel, int) -> Entry, cs: seq<Channel>)
  {
    forall i :: 0 <= i < |cs| ==> ReadsOne(g, show, entry, cs[i])
  }

  ghost predicate ReadsOne(g: Grammar, show: Channel -> string, entry: (Channel, int) -> Entry, c: Channel)
  {
    && show(c) != "" && c.url != "" && g.tag(show(c)) == Info && g.tag(c.url) == Url
    && forall n: int :: g.parse(show(c), n).(url := c.url) == entry(c, n)
  }

  lemma InfoThenUrl(g: Grammar, info: string, url: string, st: State)
    requires info != "" && url != "" && g.tag(info) == Info && g.tag(url) == Url
    ensures NextLine(g, NextLine(g, st, info), url) ==
            State(st.line + 2, BLANK, false, st.out + [g.parse(info, st.line + 1).(url := url)])
  {
  }

  lemma TwoLines(g: Grammar, st: State, a: string, b: string, rest: seq<string>)
    ensures HandleAll(g, st, [a, b] + rest) == HandleAll(g, NextLine(g, NextLine(g, st, a), b), rest)
  {
    HandleCons(g, st, a, [b] + rest);
    HandleCons(g, NextLine(g, st, a), b, rest);
    assert [a, b] + rest == [a] + ([b] + rest);
  }

  lemma ChannelRead(g: Grammar, show: Channel -> string, entry: (Channel, int) -> Entry, c: Channel, rest: seq<string>, st: State)
    requires ReadsOne(g, show, entry, c)
    ensures HandleAll(g, st, [show(c), c.url] + rest) ==
            HandleAll(g, State(st.line + 2, BLANK, false, st.out + [entry(c, st.line + 1)]), rest)
  {
    TwoLines(g, st, show(c), c.url, rest);
    InfoThenUrl(g, show(c), c.url, st);
    assert g.parse(show(c), st.line + 1).(url := c.url) == entry(c, st.line + 1);
  }

  lemma {:induction false} ChannelsRead(g: Grammar, show: Channel -> string, entry: (Channel, int) -> Entry,
                                        cs: seq<Channel>, st: State)
    requires Reads(g, show, entry, cs) && st.pending == BLANK && !st.have
    ensures HandleAll(g, st, Shown(show, cs)) ==
            State(st.line + 2 * |cs|, BLANK, false, st.out + Listed(entry, cs, st.line + 1))
  {
    if cs == [] {
      assert st.out + [] == st.out;
    } else {
      var e := entry(cs[0], st.line + 1);
      ChannelRead(g, show, entry, cs[0], Shown(show, cs[1..]), st);
      ChannelsRead(g, show, entry, cs[1..], State(st.line + 2, BLANK, false, st.out + [e]));
      assert st.out + [e] + Listed(entry, cs[1..], st.line + 3) == st.out + Listed(entry, cs, st.line + 1);
    }
  }

  lemma HeaderThenRest(g: Grammar, header: string, rest: seq<string>)
    requires header != "" && g.tag(header) == Header
    ensures HandleAll(g, State(0, BLANK, false, []), [header] + rest) == HandleAll(g, State(1, BLANK, false, []), rest)
  {
    HandleCons(g, State(0, BLANK, false, []), header, rest);
  }

  // ---------------------------------------------------------------- the printed lines

  lemma {:induction false} UrlTag(url: string, tags: seq<(string, Tag)>)
    requires url != "" && forall i :: 0 <= i < |tags| ==> tags[i].0 != "" && tags[i].0[0] != url[0]
    ensures TagOf(url, tags) == Url
  {
    if tags != [] {
      NoTag(url, tags[0].0);
      UrlTag(url, tags[1..]);
    }
  }

  lemma NoTag(s: string, tag: string)
    requires s != "" && tag != "" && s[0] != tag[0]
    ensures !HasPrefix(s, tag)
  {
    assert |s| >= |tag| ==> s[..|tag|][0] != tag[0];
  }

  lemma InfoTag(line: string)
    requires HasPrefix(line, "#EXTINF:")
    ensures TagOf(line, Tags()) == Info
  {
    TagCases(line);
    assert line[..7] == line[..8][..7] == "#EXTINF";
    assert "#EXTINF"[4] != "#EXTM3U"[4];
  }

  lemma InfoLinePrefix(c: Channel)
    ensures HasPrefix(InfoLine(c), "#EXTINF:")
  {
  }

  lemma HeaderTag()
    ensures TagOf("#EXTM3U", Tags()) == Header
  {
    TagCases("#EXTM3U");
  }

  lemma PrintedReads(w: World, cs: seq<Channel>, entry: (Channel, int) -> Entry)
    requires Walks(w) && forall i :: 0 <= i < |cs| ==> Printable(w, cs[i])
    requires forall c, n :: entry(c, n) == EntryOf(w, c, n)
    ensures Reads(GrammarOf(w), InfoLine, entry, cs)
  {
    forall i | 0 <= i < |cs|
      ensures ReadsOne(GrammarOf(w), InfoLine, entry, cs[i])
    {
      var c := cs[i];
      InfoLinePrefix(c);
      InfoTag(InfoLine(c));
      UrlTag(c.url, Tags());
      forall n: int
        ensures ParsedExtInf(w, InfoLine(c), n).(url := c.url) == entry(c, n)
      {
        ExtInfRoundTrip(w, c.duration, c.attrs, c.name, n);
      }
    }
  }

  lemma HeaderLine(lines: seq<string>)
    requires OneLines(lines)
    ensures RawLines(Unlines(["#EXTM3U"] + lines)) == ["#EXTM3U"] + lines
  {
    var all := ["#EXTM3U"] + lines;
    assert all[1..] == lines && OneLine(all[0]);
    RawLinesOfUnlines(all);
  }

  /** The round trip of a playlist: every printed channel is read back, in order, and nothing else. */
  lemma PlaylistRoundTrip(w: World, cs: seq<Channel>)
    requires Walks(w) && forall i :: 0 <= i < |cs| ==> Printable(w, cs[i])
    ensures Parsed(GrammarOf(w), Playlist(cs)) == Entries(w, cs)
  {
    ChannelsOneLine(w, cs);
    HeaderLine(Shown(InfoLine, cs));
    HeaderTag();
    HeaderThenRest(GrammarOf(w), "#EXTM3U", Shown(InfoLine, cs));
    PrintedReads(w, cs, EntryFor(w));
    ChannelsRead(GrammarOf(w), InfoLine, EntryFor(w), cs, State(1, BLANK, false, []));
  }

  /** A line ends before its carriage return. */
  lemma CrLfEnds(l: string, rest: string)
    requires '\n' !in l && (l == "" || l[|l| - 1] != '\r')
    ensures RawLines(l + "\r\n" + rest) == [l] + RawLines(rest)
  {
    var s := l + "\r\n" + rest;
    assert s == (l + "\r") + ['\n'] + rest;
    FirstIndexAfter(l + "\r", '\n', rest);
    assert s[..|l| + 1] == l + "\r" && s[|l| + 2..] == rest && (l + "\r")[..|l|] == l;
    assert TrimEnd(l + "\r") == TrimEnd(l) == l by {
      assert l != "" ==> l[|l| - 1] in l;
    }
  }

  /** A text that ends behind an #EXTINF line yields its entry, without a URL. */
  lemma LastEntryIsEmitted(w: World, line: string)
    requires Walks(w) && "#EXTINF" <= line && '\n' !in line && line[|line| - 1] != '\r'
    ensures Parsed(GrammarOf(w), line) == [ParsedExtInf(w, line, 1)]
  {
    assert IndexOf(line, '\n') < 0 && line[|line| - 1] in line;
    assert RawLines("") == [] && RawLines(line) == [line] + [];
    LineByKind(w, State(0, BLANK, false, []), line);
    HandleCons(GrammarOf(w), State(0, BLANK, false, []), line, []);
    assert [line] + [] == [line];
    assert [] + [ParsedExtInf(w, line, 1)] == [ParsedExtInf(w, line, 1)];
  }

  method PrintAndParse(lower: string -> string, order: map<string, string> -> seq<string>, option: (string, Entry) -> Entry,
                       cs: seq<Channel>)
    returns (out: seq<Entry>)
    requires Walks(World(lower, order, option, PROMOTED))
    requires forall i :: 0 <= i < |cs| ==> Printable(World(lower, order, option, PROMOTED), cs[i])
    ensures out == Entries(World(lower, order, option, PROMOTED), cs)
  {
    var w := World(lower, order, option, PROMOTED);
    PlaylistRoundTrip(w, cs);
    var p := new Parser();
    out := p.ParseInto(w, Playlist(cs));
  }
}
