/** src/server.ts: the overlay server's command line, its MIME table, the
    "now playing" title it derives from mpv's properties, and the
    newline-delimited JSON framer that reads mpv's IPC socket. Parsing one
    JSON line is an input function; the HTTP and WebSocket plumbing, the
    mpv/xwinwrap processes and the timers are not part of this model. */
module Server {
  import opened Wrappers
  import opened JsText
  import opened ArgParse

  // ---------------------------------------------------------------- start-up

  datatype ServerSettings = ServerSettings(
    port: JsNumber, volume: JsNumber, shuffle: bool,
    playlist: Option<ArgValue>, url: Option<ArgValue>,
    publicDir: ArgValue, ytdl: ArgValue, xwinwrap: ArgValue, mpv: ArgValue)

  const MissingSource: string := "Pass --playlist <file.m3u> or --url <YouTube URL/playlist>"

  /** `args[key] || fallback` for a string-valued option. */
  function ArgOr(args: map<string, ArgValue>, key: string, fallback: string): (v: ArgValue)
    ensures Given(args, key) ==> v == args[key]
    ensures !Given(args, key) ==> v == Str(fallback)
  {
    if Given(args, key) then args[key] else Str(fallback)
  }

  /** `args.shuffle !== "false"`: shuffling is on unless the option's value
      is the word "false". */
  predicate Shuffle(args: map<string, ArgValue>) {
    !("shuffle" in args && args["shuffle"] == Str("false"))
  }

  /** The module-level constants of the server, or the usage error when
      neither `--playlist` nor `--url` is given. */
  function ServerStartup(argv: seq<string>, toNumber: string -> JsNumber): (r: Result<ServerSettings, string>)
    ensures var args := ParseArgs(argv);
      (r.Failure? <==> !Given(args, "playlist") && !Given(args, "url"))
      && (r.Failure? ==> r.error == MissingSource)
      && (r.Success? ==>
            r.value.port == NumberArg(args, "port", 3323.0, toNumber)
            && r.value.volume == NumberArg(args, "volume", 50.0, toNumber)
            && r.value.shuffle == Shuffle(args)
            && (r.value.playlist.Some? <==> Given(args, "playlist"))
            && (Given(args, "playlist") ==> r.value.playlist == Some(args["playlist"]))
            && (r.value.url.Some? <==> Given(args, "url"))
            && (Given(args, "url") ==> r.value.url == Some(args["url"]))
            && r.value.publicDir == ArgOr(args, "public", "./public")
            && r.value.ytdl == ArgOr(args, "ytdl", "/usr/local/bin/yt-dlp")
            && r.value.xwinwrap == ArgOr(args, "xwinwrap", "xwinwrap")
            && r.value.mpv == ArgOr(args, "mpv", "mpv"))
  {
    var args := ParseArgs(argv);
    var playlist := if Given(args, "playlist") then Some(args["playlist"]) else None;
    var url := if Given(args, "url") then Some(args["url"]) else None;
    if playlist.None? && url.None? then Failure(MissingSource)
    else
      Success(ServerSettings(
        NumberArg(args, "port", 3323.0, toNumber),
        NumberArg(args, "volume", 50.0, toNumber),
        Shuffle(args), playlist, url,
        ArgOr(args, "public", "./public"),
        ArgOr(args, "ytdl", "/usr/local/bin/yt-dlp"),
        ArgOr(args, "xwinwrap", "xwinwrap"),
        ArgOr(args, "mpv", "mpv")))
  }

  /** With only a playlist given, the port is 3323, the volume 50 and
      shuffling is on. */
  lemma ServerDefaults(p: string, toNumber: string -> JsNumber)
    requires p != "" && !StartsWith(p, "--")
    ensures var r := ServerStartup(["node", "server.mjs", "--playlist", p], toNumber);
      r.Success? && r.value.port == Num(3323.0) && r.value.volume == Num(50.0)
      && r.value.shuffle && r.value.playlist == Some(Str(p)) && r.value.url.None?
  {
    var argv := ["node", "server.mjs", "--playlist", p];
    ParseArgsLastWins(argv, 2);
    assert argv[2][2..] == "playlist";
    forall k | k != "playlist" ensures k !in ParseArgs(argv) {
      ParseArgsKeys(argv, k);
      assert !IsKeyToken(argv[3]);
    }
  }

  /** `--shuffle false` turns shuffling off; a bare `--shuffle`, or any
      other value, leaves it on. */
  lemma ShuffleCases(v: ArgValue)
    ensures !Shuffle(map["shuffle" := v]) <==> v == Str("false")
    ensures Shuffle(map[])
  {
  }

  // ---------------------------------------------------------------- MIME types

  const MimeTable: map<string, string> := map[
    ".html" := "text/html; charset=utf-8",
    ".js" := "text/javascript; charset=utf-8",
    ".css" := "text/css; charset=utf-8",
    ".svg" := "image/svg+xml",
    ".json" := "application/json; charset=utf-8",
    ".txt" := "text/plain; charset=utf-8"]

  const DefaultMime: string := "application/octet-stream"

  /** The Content-Type for a file extension (as `path.extname` gives it):
      the table entry of the lower-cased extension, else the default. */
  function MimeType(ext: string): (r: string)
    ensures r == DefaultMime <==> LowerAscii(ext) !in MimeTable
    ensures LowerAscii(ext) in MimeTable ==> r == MimeTable[LowerAscii(ext)]
  {
    var key := LowerAscii(ext);
    if key in MimeTable then MimeTable[key] else DefaultMime
  }

  lemma LowerAsciiIdempotent(s: string)
    ensures LowerAscii(LowerAscii(s)) == LowerAscii(s)
  {
  }

  /** The lookup ignores the case of the extension. */
  lemma MimeTypeIgnoresCase(ext: string)
    ensures MimeType(LowerAscii(ext)) == MimeType(ext)
  {
    LowerAsciiIdempotent(ext);
  }

  lemma MimeTypeExamples()
    ensures MimeType(".HTML") == "text/html; charset=utf-8"
    ensures MimeType(".Js") == "text/javascript; charset=utf-8"
    ensures MimeType(".png") == DefaultMime
    ensures MimeType("") == DefaultMime
  {
    assert LowerAscii(".HTML") == ".html";
    assert LowerAscii(".Js") == ".js";
    assert LowerAscii(".png") == ".png";
  }

  // ---------------------------------------------------------------- now playing

  /** `a || b` on strings. */
  function Or(a: string, b: string): (r: string)
    ensures r == a || r == b
    ensures r == "" <==> a == "" && b == ""
  {
    if a != "" then a else b
  }

  /** A metadata field, "" when absent. */
  function Field(meta: map<string, string>, key: string): string {
    if key in meta then meta[key] else ""
  }

  /** `current`: the media title, the artist and the metadata object. */
  datatype Current = Current(title: string, artist: string, meta: map<string, string>)

  const Initial: Current := Current("", "", map[])

  const Ellipsis: string := "\U{2026}"
  const Dash: string := " \U{2014} "

  function MetaTitle(meta: map<string, string>): string {
    Or(Field(meta, "title"), Field(meta, "TITLE"))
  }

  function MetaArtist(meta: map<string, string>): string {
    Or(Field(meta, "artist"), Field(meta, "ARTIST"))
  }

  function Artist(c: Current): string {
    Or(c.artist, MetaArtist(c.meta))
  }

  /** `prettyTitle()`: "artist — title" when both are known, else the media
      title, else the metadata title, else "…"; never empty. */
  function PrettyTitle(c: Current): (r: string)
    ensures r != ""
    ensures Artist(c) != "" && MetaTitle(c.meta) != "" ==> r == Artist(c) + Dash + MetaTitle(c.meta)
    ensures (Artist(c) == "" || MetaTitle(c.meta) == "") && c.title != "" ==> r == c.title
    ensures (Artist(c) == "" || MetaTitle(c.meta) == "") && c.title == "" ==>
      r == (if MetaTitle(c.meta) != "" then MetaTitle(c.meta) else Ellipsis)
  {
    var mt := c.title;
    var t := MetaTitle(c.meta);
    var a := Artist(c);
    if a != "" && t != "" then a + Dash + t else Or(mt, Or(t, Ellipsis))
  }

  /** A media-title change: `current.title = data || ""`. */
  function SetMediaTitle(c: Current, data: Option<string>): (r: Current)
    ensures r.title == data.GetOr("") && r.artist == c.artist && r.meta == c.meta
  {
    c.(title := data.GetOr(""))
  }

  /** A metadata change: `current.meta = data || {}` and the artist taken
      from `meta.artist`, else `meta.ARTIST`, else "". */
  function SetMetadata(c: Current, data: Option<map<string, string>>): (r: Current)
    ensures r.meta == data.GetOr(map[]) && r.title == c.title
    ensures r.artist == MetaArtist(r.meta)
  {
    var meta := data.GetOr(map[]);
    c.(meta := meta, artist := MetaArtist(meta))
  }

  /** The stored artist always agrees with the metadata it came from. */
  ghost predicate ArtistAgrees(c: Current) {
    c.artist == MetaArtist(c.meta)
  }

  /** Once the artist agrees with the metadata, `prettyTitle`'s fallbacks
      to `meta.artist` and `meta.ARTIST` add nothing. */
  lemma ArtistIsStored(c: Current)
    requires ArtistAgrees(c)
    ensures Artist(c) == c.artist
  {
  }

  /** After metadata carrying both an artist and a title, the overlay shows
      "artist — title", whatever the media title is. */
  lemma MetadataTitleWins(c: Current, meta: map<string, string>)
    requires MetaArtist(meta) != "" && MetaTitle(meta) != ""
    ensures PrettyTitle(SetMetadata(c, Some(meta))) == MetaArtist(meta) + Dash + MetaTitle(meta)
  {
  }

  // ---------------------------------------------------------------- IPC framing

  /** `s.indexOf(c)`: the first index of `c`, or -1. */
  function IndexOf(s: string, c: char): (i: int)
    ensures -1 <= i < |s|
    ensures 0 <= i ==> s[i] == c
    decreases |s|
  {
    if s == [] then -1
    else if s[0] == c then 0
    else
      var k := IndexOf(s[1..], c);
      if k < 0 then -1 else k + 1
  }

  /** -1 means that `c` does not occur at all. */
  lemma {:induction false} IndexOfMissing(s: string, c: char)
    ensures IndexOf(s, c) == -1 <==> c !in s
    decreases |s|
  {
    if s != [] && s[0] != c {
      IndexOfMissing(s[1..], c);
      assert s == [s[0]] + s[1..];
    }
  }

  /** The index found is the first: `c` does not occur before it. */
  lemma {:induction false} IndexOfIsFirst(s: string, c: char)
    requires IndexOf(s, c) >= 0
    ensures c !in s[..IndexOf(s, c)]
    decreases |s|
  {
    if s[0] != c {
      IndexOfIsFirst(s[1..], c);
      var k := IndexOf(s[1..], c);
      assert s[..k + 1] == [s[0]] + s[1..][..k];
    }
  }

  /** Appending text after a found `c` does not move it. */
  lemma {:induction false} IndexOfExtend(a: string, b: string, c: char)
    requires IndexOf(a, c) >= 0
    ensures IndexOf(a + b, c) == IndexOf(a, c)
    decreases |a|
  {
    assert (a + b)[0] == a[0];
    if a[0] != c {
      assert (a + b)[1..] == a[1..] + b;
      IndexOfExtend(a[1..], b, c);
    }
  }

  /** The complete ("\n"-terminated) lines of `s`, in order. */
  function Lines(s: string): (r: seq<string>)
    ensures |r| <= |s|
    decreases |s|
  {
    var i := IndexOf(s, '\n');
    if i < 0 then [] else [s[..i]] + Lines(s[i + 1..])
  }

  /** What follows the last "\n" of `s`: the unterminated tail. */
  function Rest(s: string): (r: string)
    ensures |r| <= |s|
    decreases |s|
  {
    var i := IndexOf(s, '\n');
    if i < 0 then s else Rest(s[i + 1..])
  }

  lemma TerminatedCons(x: string, ls: seq<string>)
    ensures Terminated([x] + ls) == x + "\n" + Terminated(ls)
    decreases |ls|
  {
    if ls != [] {
      var init := ls[..|ls| - 1];
      TerminatedCons(x, init);
      assert ([x] + ls)[..|ls|] == [x] + init;
    }
  }

  /** The tail the framer keeps holds no "\n". */
  lemma {:induction false} RestHasNoNewline(s: string)
    ensures '\n' !in Rest(s)
    decreases |s|
  {
    var i := IndexOf(s, '\n');
    if i >= 0 {
      RestHasNoNewline(s[i + 1..]);
    } else {
      IndexOfMissing(s, '\n');
    }
  }

  /** No framed line holds a "\n". */
  lemma {:induction false} LinesHaveNoNewline(s: string)
    ensures forall k :: 0 <= k < |Lines(s)| ==> '\n' !in Lines(s)[k]
    decreases |s|
  {
    var i := IndexOf(s, '\n');
    if i >= 0 {
      LinesHaveNoNewline(s[i + 1..]);
      IndexOfIsFirst(s, '\n');
      LinesStep(s, i);
    }
  }

  /** The framed lines, each with its "\n", followed by the tail, are the
      buffer again: nothing is lost or reordered. */
  lemma {:induction false} LinesAndRestRebuild(s: string)
    ensures Terminated(Lines(s)) + Rest(s) == s
    decreases |s|
  {
    var i := IndexOf(s, '\n');
    if i >= 0 {
      var x, tail := s[..i], s[i + 1..];
      LinesAndRestRebuild(tail);
      var ls, r := Lines(tail), Rest(tail);
      assert Lines(s) == [x] + ls && Rest(s) == r;
      TerminatedCons(x, ls);
      CutAt(s, i);
      Regroup(x + "\n", Terminated(ls), r);
    }
  }

  lemma CutAt(s: string, i: nat)
    requires i < |s| && s[i] == '\n'
    ensures s == s[..i] + "\n" + s[i + 1..]
  {
  }

  /** Taking one line off the front of a buffer that holds a newline. */
  lemma LinesStep(s: string, i: int)
    requires i == IndexOf(s, '\n') && i >= 0
    ensures Lines(s) == [s[..i]] + Lines(s[i + 1..])
  {
  }

  lemma RestStep(s: string, i: int)
    requires i == IndexOf(s, '\n') && i >= 0
    ensures Rest(s) == Rest(s[i + 1..])
  {
  }

  lemma Regroup<T>(x: seq<T>, y: seq<T>, z: seq<T>)
    ensures (x + y) + z == x + (y + z)
  {
  }

  /** Data arriving in two chunks is framed as if it had come in one: the
      lines of `a + b` are those of `a` followed by those of `a`'s tail
      with `b`, and the tail left over is the same. */
  lemma {:induction false} LinesOfChunks(a: string, b: string)
    ensures Lines(a + b) == Lines(a) + Lines(Rest(a) + b)
    ensures Rest(a + b) == Rest(Rest(a) + b)
    decreases |a|
  {
    var i := IndexOf(a, '\n');
    if i >= 0 {
      IndexOfExtend(a, b, '\n');
      assert (a + b)[i + 1..] == a[i + 1..] + b;
      assert (a + b)[..i] == a[..i];
      LinesOfChunks(a[i + 1..], b);
    }
  }

  /** A JSON message from mpv, as far as the handler looks at it. */
  datatype MpvMsg =
    | StartFile
    | FileLoaded
    | EndFile(reason: Option<string>)
    | MediaTitleChange(title: Option<string>)
    | MetadataChange(meta: Option<map<string, string>>)
    | OtherMsg

  /** A command written back to mpv. */
  datatype Command = PlaylistNextForce

  /** What the handler has done so far: the `current` state, the titles
      broadcast to the overlays, and the commands sent to mpv. */
  datatype Observed = Observed(current: Current, broadcasts: seq<string>, commands: seq<Command>)

  /** The effect of one parsed message. */
  function Step(o: Observed, m: MpvMsg): (r: Observed)
    ensures o.broadcasts <= r.broadcasts && o.commands <= r.commands
    ensures |r.broadcasts| <= |o.broadcasts| + 1 && |r.commands| <= |o.commands| + 1
    ensures r.broadcasts != o.broadcasts ==> r.broadcasts == o.broadcasts + [PrettyTitle(r.current)]
    ensures r.broadcasts != o.broadcasts <==> m.MediaTitleChange? || m.MetadataChange?
    ensures r.commands != o.commands <==> m == EndFile(Some("error"))
    ensures r.commands != o.commands ==> r.commands == o.commands + [PlaylistNextForce]
    ensures m.MediaTitleChange? ==> r.current == SetMediaTitle(o.current, m.title)
    ensures m.MetadataChange? ==> r.current == SetMetadata(o.current, m.meta)
    ensures !m.MediaTitleChange? && !m.MetadataChange? ==> r.current == o.current && r.broadcasts == o.broadcasts
  {
    match m
    case EndFile(reason) =>
      if reason == Some("error") then o.(commands := o.commands + [PlaylistNextForce]) else o
    case MediaTitleChange(title) =>
      var c := SetMediaTitle(o.current, title);
      o.(current := c, broadcasts := o.broadcasts + [PrettyTitle(c)])
    case MetadataChange(meta) =>
      var c := SetMetadata(o.current, meta);
      o.(current := c, broadcasts := o.broadcasts + [PrettyTitle(c)])
    case _ => o
  }

  /** One complete line: blank lines and lines that do not parse are skipped. */
  function Handle(o: Observed, line: string, parse: string -> Option<MpvMsg>): (r: Observed)
    ensures o.broadcasts <= r.broadcasts && |r.broadcasts| <= |o.broadcasts| + 1
    ensures r.commands == o.commands || r.commands == o.commands + [PlaylistNextForce]
  {
    if Trim(line) == "" then o
    else match parse(line)
      case None => o
      case Some(m) => Step(o, m)
  }

  /** The lines handled in order. */
  function Consume(o: Observed, lines: seq<string>, parse: string -> Option<MpvMsg>): (r: Observed)
    ensures o.broadcasts <= r.broadcasts && o.commands <= r.commands
    decreases |lines|
  {
    if lines == [] then o
    else Handle(Consume(o, lines[..|lines| - 1], parse), lines[|lines| - 1], parse)
  }

  lemma ConsumeSnoc(o: Observed, lines: seq<string>, line: string, parse: string -> Option<MpvMsg>)
    ensures Consume(o, lines + [line], parse) == Handle(Consume(o, lines, parse), line, parse)
  {
    assert (lines + [line])[..|lines|] == lines;
  }

  /** Handling two runs of lines one after the other is handling them together. */
  lemma {:induction false} ConsumeAppend(o: Observed, xs: seq<string>, ys: seq<string>, parse: string -> Option<MpvMsg>)
    ensures Consume(o, xs + ys, parse) == Consume(Consume(o, xs, parse), ys, parse)
    decreases |ys|
  {
    if ys == [] {
      assert xs + ys == xs;
    } else {
      var init := ys[..|ys| - 1];
      ConsumeAppend(o, xs, init, parse);
      assert (xs + ys)[..|xs + ys| - 1] == xs + init;
    }
  }

  /** Lines that are blank or do not parse change nothing. */
  lemma {:induction false} SkippedLinesChangeNothing(o: Observed, lines: seq<string>, parse: string -> Option<MpvMsg>)
    requires forall k :: 0 <= k < |lines| ==> Trim(lines[k]) == "" || parse(lines[k]).None?
    ensures Consume(o, lines, parse) == o
    decreases |lines|
  {
    if lines != [] {
      SkippedLinesChangeNothing(o, lines[..|lines| - 1], parse);
    }
  }

  /** The stored artist agrees with the metadata at start and after every line. */
  lemma {:induction false} ConsumeKeepsArtist(o: Observed, lines: seq<string>, parse: string -> Option<MpvMsg>)
    requires ArtistAgrees(o.current)
    ensures ArtistAgrees(Consume(o, lines, parse).current)
    decreases |lines|
  {
    if lines != [] {
      ConsumeKeepsArtist(o, lines[..|lines| - 1], parse);
    }
  }

  /** Two chunks handed to the data handler one after the other have the
      effect of their concatenation. */
  lemma ChunkingIrrelevant(buf: string, a: string, b: string, o: Observed, parse: string -> Option<MpvMsg>)
    ensures var mid := Consume(o, Lines(buf + a), parse);
      Consume(mid, Lines(Rest(buf + a) + b), parse) == Consume(o, Lines(buf + a + b), parse)
      && Rest(Rest(buf + a) + b) == Rest(buf + a + b)
  {
    LinesOfChunks(buf + a, b);
    ConsumeAppend(o, Lines(buf + a), Lines(Rest(buf + a) + b), parse);
  }

  /** The IPC connection's state: the unframed input `buf`, the `current`
      track, and what has been broadcast and sent to mpv. */
  class MpvLink {
    var buf: string
    var current: Current
    var broadcasts: seq<string>
    var commands: seq<Command>

    constructor ()
      ensures buf == "" && current == Initial && broadcasts == [] && commands == []
    {
      buf := "";
      current := Initial;
      broadcasts := [];
      commands := [];
    }

    function Observation(): Observed
      reads this
    {
      Observed(current, broadcasts, commands)
    }

    /** Acting on one parsed message. */
    method Apply(m: MpvMsg)
      modifies this
      ensures Observation() == Step(old(Observation()), m)
      ensures buf == old(buf)
    {
      match m {
        case EndFile(reason) =>
          if reason == Some("error") {
            commands := commands + [PlaylistNextForce];
          }
        case MediaTitleChange(title) =>
          current := current.(title := title.GetOr(""));
          broadcasts := broadcasts + [PrettyTitle(current)];
        case MetadataChange(meta) =>
          var fields := meta.GetOr(map[]);
          current := current.(meta := fields, artist := MetaArtist(fields));
          broadcasts := broadcasts + [PrettyTitle(current)];
        case _ =>
      }
    }

    /** One complete line: skipped when blank or unparsable, else acted on. */
    method HandleLine(line: string, parse: string -> Option<MpvMsg>)
      modifies this
      ensures Observation() == Handle(old(Observation()), line, parse)
      ensures buf == old(buf)
    {
      if Trim(line) == "" {
        return;
      }
      var j := parse(line);
      if j.Some? {
        Apply(j.value);
      }
    }

    /** The socket's "data" handler: append the chunk, then take complete
        lines off the front of the buffer until none is left, skipping blank
        lines and lines that do not parse. */
    method OnData(d: string, parse: string -> Option<MpvMsg>)
      modifies this
      ensures buf == Rest(old(buf) + d)
      ensures '\n' !in buf
      ensures Observation() == Consume(old(Observation()), Lines(old(buf) + d), parse)
    {
      buf := buf + d;
      ghost var text := buf;
      ghost var start := Observation();
      ghost var done: seq<string> := [];
      var idx := IndexOf(buf, '\n');
      while idx >= 0
        invariant idx == IndexOf(buf, '\n')
        invariant Lines(text) == done + Lines(buf)
        invariant Rest(buf) == Rest(text)
        invariant Observation() == Consume(start, done, parse)
        decreases |buf|
      {
        var line, rest := buf[..idx], buf[idx + 1..];
        LinesStep(buf, idx);
        RestStep(buf, idx);
        ConsumeSnoc(start, done, line, parse);
        HandleLine(line, parse);
        Regroup(done, [line], Lines(rest));
        buf := rest;
        done := done + [line];
        idx := IndexOf(buf, '\n');
      }
      assert Lines(buf) == [] && Rest(buf) == buf;
      assert done == Lines(text);
      RestHasNoNewline(text);
    }
  }
}
