/**
 The playback proxy: manifests are fetched from a ticket's origin and rewritten so that every
 link names a hash, and a table per ticket leads from the hash back to the URL. The table
 disappears half an hour after it was last written.
 */
module Proxy {
  import opened Text

  datatype Option<T> = None | Some(value: T)

  datatype Site = Site(scheme: string, host: string)

  /** URL parsing, reference resolution, the keyed hash and the query escape. */
  datatype World = World(
    site: string -> Option<Site>,
    resolve: (string, string) -> string,
    hash: (string, string) -> string,
    escape: string -> string)

  const HALF_HOUR := 1_800_000

  predicate IsHashChar(c: char) { 'a' <= c <= 'z' || 'A' <= c <= 'Z' || '0' <= c <= '9' || c == '-' || c == '_' }

  predicate IsHash(h: string) { forall i :: 0 <= i < |h| ==> IsHashChar(h[i]) }

  /** What is taken for granted: hashes are base64url text of any length and do not collide within a ticket, an escaped
      token is visible text, and a non-empty line without a line break resolves to the same kind of text. */
  ghost predicate Sound(w: World)
  {
    && (forall t, u :: IsHash(w.hash(t, u)))
    && (forall t, u, v :: w.hash(t, u) == w.hash(t, v) ==> u == v)
    && (forall s :: PlainLine(w.escape(s)))
    && (forall base, line :: line != "" && '\n' !in line ==> w.resolve(base, line) != "" && '\n' !in w.resolve(base, line))
  }

  predicate SameHost(w: World, a: string, b: string) { w.site(a).Some? && w.site(a) == w.site(b) }

  predicate HasPrefix(s: string, p: string) { |s| >= |p| && s[..|p|] == p }

  predicate HasSuffix(s: string, p: string) { |s| >= |p| && s[|s| - |p|..] == p }

  predicate Contains(s: string, part: string) { HasPrefix(s, part) || (s != "" && Contains(s[1..], part)) }

  // ---------------------------------------------------------------- the table

  datatype Table = Table(entries: map<string, string>, expires: int)

  type Tables = map<string, Table>

  function Live(tables: Tables, t: string, now: int): map<string, string>
  {
    if t in tables && now < tables[t].expires then tables[t].entries else map[]
  }

  function Remembered(tables: Tables, t: string, h: string, u: string, now: int): Tables
  {
    tables[t := Table(Live(tables, t, now)[h := u], now + HALF_HOUR)]
  }

  function Recalled(tables: Tables, t: string, h: string, now: int): Option<string>
  {
    var e := Live(tables, t, now);
    if h in e && e[h] != "" then Some(e[h]) else None
  }

  /** The reply of the store to one write: its time, and whether it took effect. */
  datatype Reply = Reply(at: int, ok: bool)

  class TicketService {
    var origins: map<string, string>
    var tables: Tables

    constructor ()
      ensures origins == map[] && tables == map[]
    {
      origins, tables := map[], map[];
    }

    method SwapOrigin(t: string, origin: string)
      modifies this
      ensures origins == old(origins)[t := origin] && tables == old(tables)
    {
      origins := origins[t := origin];
    }

    method RememberURL(t: string, h: string, u: string, reply: Reply)
      modifies this
      ensures tables == if reply.ok then Remembered(old(tables), t, h, u, reply.at) else old(tables)
      ensures origins == old(origins)
    {
      if reply.ok {
        var entries: map<string, string> := map[];
        if t in tables && reply.at < tables[t].expires {
          entries := tables[t].entries;
        }
        tables := tables[t := Table(entries[h := u], reply.at + HALF_HOUR)];
      }
    }

    method RecallURL(t: string, h: string, now: int) returns (r: Option<string>)
      ensures r == Recalled(tables, t, h, now)
    {
      if t !in tables || now >= tables[t].expires || h !in tables[t].entries {
        return None;
      }
      var u := tables[t].entries[h];
      if u == "" {
        return None;
      }
      return Some(u);
    }
  }

  // ---------------------------------------------------------------- rewriting

  datatype Kind = Master | Variant(hash: string)

  /** A manifest being served: for which ticket, with which origin loaded, and from which URL. */
  datatype Page = Page(kind: Kind, ticket: string, origin: string, base: string, token: string)

  predicate IsComment(line: string) { line == "" || line[0] == '#' }

  function LinkPath(kind: Kind, h: string, u: string): string
  {
    if kind.Master? && Contains(u, ".m3u8") then "v/" + h + ".m3u8" else "s/" + h + ".ts"
  }

  function Query(w: World, page: Page): string { "token=" + w.escape(page.token) }

  function Link(w: World, page: Page, u: string): string
  {
    LinkPath(page.kind, w.hash(page.ticket, u), u) + "?" + Query(w, page)
  }

  const REFUSED := "# REFUSED: cross-origin URI "

  /** The URL that a line is rewritten for, if it is. */
  function Target(w: World, page: Page, line: string): Option<string>
  {
    if IsComment(line) then None
    else var u := w.resolve(page.base, line); if SameHost(w, u, page.origin) then Some(u) else None
  }

  function Shown(w: World, page: Page, line: string): string
  {
    if IsComment(line) then line
    else if Target(w, page, line).Some? then Link(w, page, Target(w, page, line).value)
    else REFUSED + w.resolve(page.base, line)
  }

  function Noted(w: World, page: Page, line: string, reply: Reply, tables: Tables): Tables
  {
    var target := Target(w, page, line);
    if target.Some? && reply.ok then Remembered(tables, page.ticket, w.hash(page.ticket, target.value), target.value, reply.at)
    else tables
  }

  function AllShown(w: World, page: Page, lines: seq<string>): (r: seq<string>)
    ensures |r| == |lines| && forall k :: 0 <= k < |lines| ==> r[k] == Shown(w, page, lines[k])
  {
    if lines == [] then [] else AllShown(w, page, lines[..|lines| - 1]) + [Shown(w, page, lines[|lines| - 1])]
  }

  function AllNoted(w: World, page: Page, lines: seq<string>, reply: int -> Reply, tables: Tables): Tables
  {
    if lines == [] then tables
    else var n := |lines| - 1; Noted(w, page, lines[n], reply(n), AllNoted(w, page, lines[..n], reply, tables))
  }

  /** The rewriting of one URL line, as the master and the variant handler pass it on. */
  method RewriteUrl(w: World, page: Page, u: string, reply: Reply, tickets: TicketService) returns (text: string)
    modifies tickets
    ensures text == if SameHost(w, u, page.origin) then Link(w, page, u) else REFUSED + u
    ensures tickets.tables == if SameHost(w, u, page.origin) && reply.ok
                              then Remembered(old(tickets.tables), page.ticket, w.hash(page.ticket, u), u, reply.at)
                              else old(tickets.tables)
    ensures tickets.origins == old(tickets.origins)
  {
    if !SameHost(w, u, page.origin) {
      return REFUSED + u;
    }
    var h := w.hash(page.ticket, u);
    tickets.RememberURL(page.ticket, h, u, reply);
    if page.kind.Master? && Contains(u, ".m3u8") {
      return "v/" + h + ".m3u8" + "?" + ("token=" + w.escape(page.token));
    }
    return "s/" + h + ".ts" + "?" + ("token=" + w.escape(page.token));
  }

  method RewriteLine(w: World, page: Page, line: string, reply: Reply, tickets: TicketService) returns (text: string)
    modifies tickets
    ensures text == Shown(w, page, line) && tickets.tables == Noted(w, page, line, reply, old(tickets.tables))
    ensures tickets.origins == old(tickets.origins)
  {
    if line == "" || line[0] == '#' {
      return line;
    }
    text := RewriteUrl(w, page, w.resolve(page.base, line), reply, tickets);
  }

  lemma NextLine(w: World, page: Page, lines: seq<string>, k: int, reply: int -> Reply, tables: Tables)
    requires 0 <= k < |lines|
    ensures Unlines(AllShown(w, page, lines[..k + 1])) == Unlines(AllShown(w, page, lines[..k])) + Shown(w, page, lines[k]) + "\n"
    ensures AllNoted(w, page, lines[..k + 1], reply, tables) ==
            Noted(w, page, lines[k], reply(k), AllNoted(w, page, lines[..k], reply, tables))
  {
    assert lines[..k + 1][..k] == lines[..k];
    UnlinesSnoc(AllShown(w, page, lines[..k]), Shown(w, page, lines[k]));
  }

  /** One pass over the manifest: writes the new text and fills the table. */
  method RewriteManifest(w: World, page: Page, body: string, reply: int -> Reply, tickets: TicketService) returns (out: string)
    modifies tickets
    ensures out == Unlines(AllShown(w, page, Lines(body)))
    ensures tickets.tables == AllNoted(w, page, Lines(body), reply, old(tickets.tables)) && tickets.origins == old(tickets.origins)
  {
    var lines := Lines(body);
    out := "";
    for k := 0 to |lines|
      invariant out == Unlines(AllShown(w, page, lines[..k]))
      invariant tickets.tables == AllNoted(w, page, lines[..k], reply, old(tickets.tables)) && tickets.origins == old(tickets.origins)
    {
      NextLine(w, page, lines, k, reply, old(tickets.tables));
      var text := RewriteLine(w, page, lines[k], reply(k), tickets);
      out := out + text + "\n";
    }
    assert lines[..|lines|] == lines;
  }

  // ---------------------------------------------------------------- what the player reads

  predicate NoBreaks(ls: seq<string>) { forall k :: 0 <= k < |ls| ==> '\n' !in ls[k] }

  function Dropped(ls: seq<string>): (r: seq<string>)
    ensures |r| == |ls| && forall k :: 0 <= k < |ls| ==> r[k] == DropCr(ls[k])
  {
    if ls == [] then [] else [DropCr(ls[0])] + Dropped(ls[1..])
  }

  lemma {:induction false} LinesHaveNoBreaks(s: string)
    ensures NoBreaks(Lines(s))
    decreases |s|
  {
    var i := IndexOf(s, '\n');
    if i >= 0 {
      LinesHaveNoBreaks(s[i + 1..]);
    }
  }

  lemma {:induction false} WrittenLines(ls: seq<string>)
    requires NoBreaks(ls)
    ensures Lines(Unlines(ls)) == Dropped(ls)
  {
    if ls != [] {
      var l, rest := ls[0], ls[1..];
      assert ls == [l] + rest;
      UnlinesCons(l, rest);
      var s := l + "\n" + Unlines(rest);
      FirstIndexAfter(l, '\n', Unlines(rest));
      assert s[..|l|] == l && s[|l| + 1..] == Unlines(rest);
      WrittenLines(rest);
    }
  }

  lemma LinkIsPlain(w: World, page: Page, u: string)
    requires Sound(w)
    ensures PlainLine(Link(w, page, u)) && !IsComment(Link(w, page, u))
  {
    var h := w.hash(page.ticket, u);
    assert IsHash(h) && '\n' !in h;
    assert PlainLine(w.escape(page.token));
  }

  lemma ShownLine(w: World, page: Page, line: string)
    requires Sound(w) && '\n' !in line
    ensures '\n' !in Shown(w, page, line)
    ensures Target(w, page, line).Some? ==>
              DropCr(Shown(w, page, line)) == Link(w, page, Target(w, page, line).value) && !IsComment(Shown(w, page, line))
    ensures Target(w, page, line).None? ==> IsComment(DropCr(Shown(w, page, line)))
  {
    if Target(w, page, line).Some? {
      LinkIsPlain(w, page, Target(w, page, line).value);
    } else if !IsComment(line) {
      assert Shown(w, page, line)[0] == '#';
    }
  }

  lemma ShownLines(w: World, page: Page, lines: seq<string>)
    requires Sound(w) && NoBreaks(lines)
    ensures NoBreaks(AllShown(w, page, lines))
  {
    forall k | 0 <= k < |lines|
      ensures '\n' !in AllShown(w, page, lines)[k]
    {
      ShownLine(w, page, lines[k]);
    }
  }

  /** The player reads line for line what the origin sent: comments and blank lines as they were; for every line that
      resolves to a URL of the origin's own scheme and host, a link with the hash of that URL and the player's token;
      for every other line, a comment. */
  lemma PageLineForLine(w: World, page: Page, body: string, k: int)
    requires Sound(w) && 0 <= k < |Lines(body)|
    ensures var seen, line := Lines(Unlines(AllShown(w, page, Lines(body)))), Lines(body)[k];
            var u := w.resolve(page.base, line);
            var h := w.hash(page.ticket, u);
            && |seen| == |Lines(body)|
            && seen[k] == if line == "" || line[0] == '#' then DropCr(line)
                          else if w.site(u).Some? && w.site(u) == w.site(page.origin) then
                            (if page.kind.Master? && Contains(u, ".m3u8") then "v/" + h + ".m3u8" else "s/" + h + ".ts")
                            + "?token=" + w.escape(page.token)
                          else DropCr("# REFUSED: cross-origin URI " + u)
  {
    LinesHaveNoBreaks(body);
    SeenLine(w, page, Lines(body), k);
    SeenSpelled(w, page, Lines(body)[k]);
  }

  lemma SeenLine(w: World, page: Page, lines: seq<string>, k: int)
    requires Sound(w) && NoBreaks(lines) && 0 <= k < |lines|
    ensures var seen := Lines(Unlines(AllShown(w, page, lines))); |seen| == |lines| && seen[k] == DropCr(Shown(w, page, lines[k]))
  {
    ShownLines(w, page, lines);
    WrittenLines(AllShown(w, page, lines));
  }

  lemma SeenSpelled(w: World, page: Page, line: string)
    requires Sound(w)
    ensures var u := w.resolve(page.base, line);
            var h := w.hash(page.ticket, u);
            DropCr(Shown(w, page, line)) ==
            if line == "" || line[0] == '#' then DropCr(line)
            else if w.site(u).Some? && w.site(u) == w.site(page.origin) then
              (if page.kind.Master? && Contains(u, ".m3u8") then "v/" + h + ".m3u8" else "s/" + h + ".ts")
              + "?token=" + w.escape(page.token)
            else DropCr("# REFUSED: cross-origin URI " + u)
  {
    var u := w.resolve(page.base, line);
    if Target(w, page, line).Some? {
      LinkIsPlain(w, page, u);
      TokenQuery(LinkPath(page.kind, w.hash(page.ticket, u), u), w.escape(page.token));
    }
  }

  lemma TokenQuery(path: string, escaped: string)
    ensures path + "?" + ("token=" + escaped) == path + "?token=" + escaped
  {
  }

  lemma {:induction false} ContainsWithin(a: string, part: string, b: string)
    ensures Contains(a + part + b, part)
  {
    var s := a + part + b;
    if a == "" {
      assert s[..|part|] == part;
    } else {
      assert s[1..] == a[1..] + part + b;
      ContainsWithin(a[1..], part, b);
    }
  }

  lemma {:induction false} ContainsSplits(s: string, part: string) returns (a: string, b: string)
    requires Contains(s, part)
    ensures s == a + part + b
  {
    if HasPrefix(s, part) {
      a, b := "", s[|part|..];
    } else {
      a, b := ContainsSplits(s[1..], part);
      a := [s[0]] + a;
    }
  }

  /** A URL names a playlist if the extension stands anywhere in it. */
  lemma ContainsExactly(s: string, part: string)
    ensures Contains(s, part) <==> exists a: string, b: string {:trigger a + part + b} :: s == a + part + b
  {
    if Contains(s, part) {
      var a, b := ContainsSplits(s, part);
      assert s == a + part + b;
    }
    forall a: string, b: string | s == a + part + b
      ensures Contains(s, part)
    {
      ContainsWithin(a, part, b);
    }
  }

  // ---------------------------------------------------------------- routing

  datatype Route = ToMaster | ToVariant(hash: string) | ToSegment(hash: string) | NotFound

  datatype Request = BadPath | Request(ticket: string, route: Route)

  function TrimPrefix(s: string, p: string): string { if HasPrefix(s, p) then s[|p|..] else s }

  function TrimSuffix(s: string, p: string): string { if HasSuffix(s, p) then s[..|s| - |p|] else s }

  /** What stands before the first c. */
  function Before(s: string, c: char): string { if IndexOf(s, c) < 0 then s else s[..IndexOf(s, c)] }

  function RouteOf(rest: string): Route
  {
    if rest == "master.m3u8" then ToMaster
    else if HasPrefix(rest, "v/") && HasSuffix(rest, ".m3u8") then ToVariant(TrimSuffix(TrimPrefix(rest, "v/"), ".m3u8"))
    else if HasPrefix(rest, "s/") then ToSegment(Before(TrimPrefix(rest, "s/"), '.'))
    else NotFound
  }

  function RequestOf(path: string): Request
  {
    var s := TrimPrefix(path, "/play/");
    var i := IndexOf(s, '/');
    if i < 0 then BadPath else Request(s[..i], RouteOf(s[i + 1..]))
  }

  /** The directory of a path: all up to the last slash. */
  function Directory(path: string): string
  {
    if path == "" || path[|path| - 1] == '/' then path else Directory(path[..|path| - 1])
  }

  /** The path a player asks for when it follows a relative link of the page at `path`: sections 5.2.2 and 5.2.3
      of RFC 3986, for links with a relative path and no dot segments. */
  function Followed(path: string, link: string): string { Directory(path) + Before(link, '?') }

  function Under(t: string): string { "/play/" + t + "/" }

  function PathOf(page: Page): string
  {
    match page.kind
    case Master => Under(page.ticket) + "master.m3u8"
    case Variant(h) => Under(page.ticket) + "v/" + (h + ".m3u8")
  }

  datatype Response = BadRequest | Missing | OriginError | Manifest(text: string) | Bytes(url: string)

  /** The manifest that a request is answered with, if its route leads to one. */
  function PageFor(request: Request, origin: string, token: string, tables: Tables, now: int): Option<Page>
    requires request.Request?
  {
    match request.route
    case ToMaster => Some(Page(Master, request.ticket, origin, origin, token))
    case ToVariant(h) =>
      var u := Recalled(tables, request.ticket, h, now);
      if u.Some? then Some(Page(Variant(h), request.ticket, origin, u.value, token)) else None
    case _ => None
  }

  /** What a request is answered, and what it makes of the tables. */
  ghost predicate Answered(w: World, request: Request, origin: string, token: string, now: int, fetch: string -> Option<string>,
                           reply: int -> Reply, before: Tables, after: Tables, r: Response)
  {
    match request
    case BadPath => r == BadRequest && after == before
    case Request(t, route) =>
      var page := PageFor(request, origin, token, before, now);
      if page.Some? && fetch(page.value.base).Some? then
        var lines := Lines(fetch(page.value.base).value);
        r == Manifest(Unlines(AllShown(w, page.value, lines))) && after == AllNoted(w, page.value, lines, reply, before)
      else
        && after == before
        && r == if page.Some? then OriginError
                else if !route.ToSegment? then Missing
                else var u := Recalled(before, t, route.hash, now);
                     if u.None? then Missing else if fetch(u.value).None? then OriginError else Bytes(u.value)
  }

  /** One request for a ticket whose token was valid: `fetch` gives the body that the origin sends, if any. */
  method ServeHTTP(w: World, path: string, origin: string, token: string, now: int, fetch: string -> Option<string>,
                   reply: int -> Reply, tickets: TicketService)
    returns (r: Response)
    modifies tickets
    ensures tickets.origins == old(tickets.origins)
    ensures Answered(w, RequestOf(path), origin, token, now, fetch, reply, old(tickets.tables), tickets.tables, r)
  {
    r := Serve(w, RequestOf(path), origin, token, now, fetch, reply, tickets);
  }

  method Serve(w: World, q: Request, origin: string, token: string, now: int, fetch: string -> Option<string>,
               reply: int -> Reply, tickets: TicketService)
    returns (r: Response)
    modifies tickets
    ensures tickets.origins == old(tickets.origins)
    ensures Answered(w, q, origin, token, now, fetch, reply, old(tickets.tables), tickets.tables, r)
  {
    if q == BadPath {
      return BadRequest;
    }
    match q.route
    case ToMaster =>
      r := ServeManifest(w, Page(Master, q.ticket, origin, origin, token), fetch, reply, tickets);
    case ToVariant(h) =>
      var u := tickets.RecallURL(q.ticket, h, now);
      if u == None {
        return Missing;
      }
      r := ServeManifest(w, Page(Variant(h), q.ticket, origin, u.value, token), fetch, reply, tickets);
    case ToSegment(h) =>
      var u := tickets.RecallURL(q.ticket, h, now);
      if u == None {
        return Missing;
      }
      r := if fetch(u.value) == None then OriginError else Bytes(u.value);
    case NotFound =>
      r := Missing;
  }

  method ServeManifest(w: World, page: Page, fetch: string -> Option<string>, reply: int -> Reply, tickets: TicketService)
    returns (r: Response)
    modifies tickets
    ensures tickets.origins == old(tickets.origins)
    ensures match fetch(page.base)
            case None => r == OriginError && tickets.tables == old(tickets.tables)
            case Some(body) =>
              && r == Manifest(Unlines(AllShown(w, page, Lines(body))))
              && tickets.tables == AllNoted(w, page, Lines(body), reply, old(tickets.tables))
  {
    var body := fetch(page.base);
    if body == None {
      return OriginError;
    }
    var out := RewriteManifest(w, page, body.value, reply, tickets);
    r := Manifest(out);
  }

  lemma {:induction false} DirectoryOf(dir: string, file: string)
    requires '/' !in file && dir != "" && dir[|dir| - 1] == '/'
    ensures Directory(dir + file) == dir
  {
    if file == "" {
      assert dir + file == dir;
    } else {
      var n := |file| - 1;
      assert (dir + file)[..|dir + file| - 1] == dir + file[..n];
      assert file[n] in file;
      DirectoryOf(dir, file[..n]);
    }
  }

  lemma RequestFor(t: string, rest: string)
    requires '/' !in t
    ensures RequestOf(Under(t) + rest) == Request(t, RouteOf(rest))
  {
    var p := Under(t) + rest;
    assert p[..6] == "/play/" && p[6..] == t + ['/'] + rest;
    FirstIndexAfter(t, '/', rest);
    assert (t + ['/'] + rest)[..|t|] == t && (t + ['/'] + rest)[|t| + 1..] == rest;
  }

  /** Following a link out of the page's directory. */
  lemma FollowedLink(dir: string, file: string, path: string, query: string)
    requires '/' !in file && dir != "" && dir[|dir| - 1] == '/' && '?' !in path
    ensures Followed(dir + file, path + "?" + query) == dir + path
  {
    DirectoryOf(dir, file);
    FirstIndexAfter(path, '?', query);
    assert (path + "?" + query)[..|path|] == path;
  }

  lemma VariantRoute(h: string)
    ensures RouteOf("v/" + h + ".m3u8") == ToVariant(h)
  {
    var rest := "v/" + h + ".m3u8";
    assert rest[..2] == "v/" && rest[|rest| - 5..] == ".m3u8" && rest[0] == 'v';
    assert rest[2..] == h + ".m3u8";
    var r := h + ".m3u8";
    assert r[|r| - 5..] == ".m3u8" && r[..|r| - 5] == h;
  }

  lemma SegmentRoute(h: string)
    requires '.' !in h
    ensures RouteOf("s/" + h + ".ts") == ToSegment(h)
  {
    var rest := "s/" + h + ".ts";
    assert rest[..2] == "s/" && rest[0] == 's' && rest[2..] == h + ['.'] + "ts";
    FirstIndexAfter(h, '.', "ts");
    assert (h + ['.'] + "ts")[..|h|] == h;
  }

  lemma NestedRoute(path: string)
    requires path != "" && path[|path| - 1] == 's'
    ensures RouteOf("v/" + path) == NotFound
  {
    var rest := "v/" + path;
    assert rest[0] == 'v' && rest[|rest| - 1] == 's';
    if |rest| >= 5 {
      assert rest[|rest| - 5..][4] == 's';
    }
    assert rest != "master.m3u8" by { assert rest[0] != 'm'; }
  }

  lemma HashChars(h: string)
    requires IsHash(h)
    ensures '/' !in h && '?' !in h && '.' !in h && '\n' !in h
  {
    assert forall c :: c in h ==> IsHashChar(c);
  }

  lemma Regroup(a: string, b: string, c: string)
    ensures (a + b) + c == a + (b + c)
  {
  }

  lemma LinkPathIsPath(kind: Kind, h: string, u: string)
    requires IsHash(h)
    ensures '?' !in LinkPath(kind, h, u)
    ensures kind.Variant? ==> LinkPath(kind, h, u)[|LinkPath(kind, h, u)| - 1] == 's'
  {
    HashChars(h);
  }

  /** A link of the master manifest asks for the hash of its URL. */
  lemma MasterLinkRoutes(w: World, page: Page, u: string)
    requires Sound(w) && page.kind.Master? && '/' !in page.ticket
    ensures var h := w.hash(page.ticket, u);
            RequestOf(Followed(PathOf(page), Link(w, page, u))) ==
            Request(page.ticket, if Contains(u, ".m3u8") then ToVariant(h) else ToSegment(h))
  {
    var h := w.hash(page.ticket, u);
    var path := LinkPath(page.kind, h, u);
    LinkPathIsPath(page.kind, h, u);
    FollowedLink(Under(page.ticket), "master.m3u8", path, Query(w, page));
    RequestFor(page.ticket, path);
    HashChars(h);
    VariantRoute(h);
    SegmentRoute(h);
  }

  /** A link of a variant manifest does not: the page lies one directory deeper, and no route matches. */
  lemma VariantLinkRoutes(w: World, page: Page, u: string)
    requires Sound(w) && page.kind.Variant? && '/' !in page.ticket && '/' !in page.kind.hash
    ensures RequestOf(Followed(PathOf(page), Link(w, page, u))) == Request(page.ticket, NotFound)
  {
    var h, under := w.hash(page.ticket, u), Under(page.ticket);
    var path := LinkPath(page.kind, h, u);
    LinkPathIsPath(page.kind, h, u);
    FollowedLink(under + "v/", page.kind.hash + ".m3u8", path, Query(w, page));
    Regroup(under, "v/", path);
    RequestFor(page.ticket, "v/" + path);
    NestedRoute(path);
  }

  /** What the routes are. */
  lemma RoutesExactly(rest: string, h: string)
    ensures RouteOf(rest) == ToMaster <==> rest == "master.m3u8"
    ensures RouteOf(rest) == ToVariant(h) <==> rest == "v/" + h + ".m3u8"
    ensures RouteOf(rest) == ToSegment(h) <==> "s/" <= rest && '.' !in h && (rest[2..] == h || h + "." <= rest[2..])
  {
    VariantRoute(h);
    if RouteOf(rest).ToVariant? {
      VariantParts(rest);
    }
    if "s/" <= rest {
      assert rest[..2] == "s/" && rest[0] == 's' && HasPrefix(rest, "s/");
      BeforeExactly(rest[2..], h, '.');
    }
  }

  lemma VariantParts(rest: string)
    requires RouteOf(rest).ToVariant?
    ensures rest == "v/" + RouteOf(rest).hash + ".m3u8"
  {
    assert rest[..2] == "v/" && rest[|rest| - 5..] == ".m3u8";
    assert rest[0] == 'v' && rest[1] == '/';
    assert rest[|rest| - 5] == rest[|rest| - 5..][0] == '.' && rest[|rest| - 4] == rest[|rest| - 5..][1] == 'm';
    assert |rest| >= 7;
    var r := rest[2..];
    assert r[|r| - 5..] == rest[|rest| - 5..];
    assert rest == rest[..2] + r[..|r| - 5] + r[|r| - 5..];
  }

  lemma BeforeExactly(s: string, h: string, c: char)
    ensures Before(s, c) == h <==> c !in h && (s == h || h + [c] <= s)
  {
    var i := IndexOf(s, c);
    if c !in h && h + [c] <= s {
      assert s == h + [c] + s[|h| + 1..];
      FirstIndexAfter(h, c, s[|h| + 1..]);
      assert s[..|h|] == h;
    }
    if i >= 0 {
      assert s == s[..i] + [c] + s[i + 1..];
    }
  }

  /** A player that follows a link of a master manifest while its URL is kept is answered from what that URL brings: a
      rewritten manifest, if the URL names a playlist, and otherwise the bytes. */
  lemma FollowedLinkIsAnswered(w: World, page: Page, u: string, token: string, now: int, fetch: string -> Option<string>,
                               reply: int -> Reply, before: Tables, after: Tables, r: Response)
    requires Sound(w) && page.kind.Master? && '/' !in page.ticket
    requires Recalled(before, page.ticket, w.hash(page.ticket, u), now) == Some(u)
    requires var path := Followed(PathOf(page), Link(w, page, u));
             Answered(w, RequestOf(path), page.origin, token, now, fetch, reply, before, after, r)
    ensures fetch(u).None? ==> r == OriginError && after == before
    ensures fetch(u).Some? && !Contains(u, ".m3u8") ==> r == Bytes(u) && after == before
    ensures fetch(u).Some? && Contains(u, ".m3u8") ==>
              var sub := Page(Variant(w.hash(page.ticket, u)), page.ticket, page.origin, u, token);
              r == Manifest(Unlines(AllShown(w, sub, Lines(fetch(u).value))))
  {
    MasterLinkRoutes(w, page, u);
    var h := w.hash(page.ticket, u);
    if Contains(u, ".m3u8") {
      VariantAnswered(w, page.ticket, h, u, page.origin, token, now, fetch, reply, before, after, r);
    } else {
      SegmentAnswered(w, page.ticket, h, u, page.origin, token, now, fetch, reply, before, after, r);
    }
  }

  /** The master manifest is the origin's, read with the origin as its address. */
  lemma MasterIsAnswered(w: World, t: string, origin: string, token: string, now: int, fetch: string -> Option<string>,
                         reply: int -> Reply, before: Tables, after: Tables, r: Response)
    requires '/' !in t
    requires Answered(w, RequestOf("/play/" + t + "/" + "master.m3u8"), origin, token, now, fetch, reply, before, after, r)
    ensures fetch(origin).None? ==> r == OriginError && after == before
    ensures fetch(origin).Some? ==>
              r == Manifest(Unlines(AllShown(w, Page(Master, t, origin, origin, token), Lines(fetch(origin).value))))
  {
    RequestFor(t, "master.m3u8");
  }

  /** A hash that leads nowhere, and a path that is no route, are not found, and change nothing. */
  lemma UnknownIsMissing(w: World, t: string, rest: string, origin: string, token: string, now: int,
                         fetch: string -> Option<string>, reply: int -> Reply, before: Tables, after: Tables, r: Response)
    requires '/' !in t && rest != "master.m3u8"
    requires forall h :: rest == "v/" + h + ".m3u8" ==> Recalled(before, t, h, now).None?
    requires forall h :: "s/" <= rest && '.' !in h && (rest[2..] == h || h + "." <= rest[2..]) ==> Recalled(before, t, h, now).None?
    requires Answered(w, RequestOf("/play/" + t + "/" + rest), origin, token, now, fetch, reply, before, after, r)
    ensures r == Missing && after == before
  {
    RequestFor(t, rest);
    var route := RouteOf(rest);
    match route
    case ToMaster => RoutesExactly(rest, "");
    case ToVariant(h) => RoutesExactly(rest, h);
    case ToSegment(h) => RoutesExactly(rest, h);
    case NotFound =>
  }

  lemma VariantAnswered(w: World, t: string, h: string, u: string, origin: string, token: string, now: int,
                        fetch: string -> Option<string>, reply: int -> Reply, before: Tables, after: Tables, r: Response)
    requires Recalled(before, t, h, now) == Some(u)
    requires Answered(w, Request(t, ToVariant(h)), origin, token, now, fetch, reply, before, after, r)
    ensures fetch(u).None? ==> r == OriginError && after == before
    ensures fetch(u).Some? ==>
              r == Manifest(Unlines(AllShown(w, Page(Variant(h), t, origin, u, token), Lines(fetch(u).value))))
  {
  }

  lemma SegmentAnswered(w: World, t: string, h: string, u: string, origin: string, token: string, now: int,
                        fetch: string -> Option<string>, reply: int -> Reply, before: Tables, after: Tables, r: Response)
    requires Recalled(before, t, h, now) == Some(u)
    requires Answered(w, Request(t, ToSegment(h)), origin, token, now, fetch, reply, before, after, r)
    ensures after == before && r == if fetch(u).None? then OriginError else Bytes(u)
  {
  }
}
