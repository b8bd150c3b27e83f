/** The pure parts of src/utils/yt-helpers.ts (copied in screener.mjs): the
    M3U line filter of `readM3U`, the entry-to-URL mapping of `listYtVideos`,
    the `--download-sections` argument and the choice of the `.wav` file in
    `sampleAudio`. The file read, the `yt-dlp` runs and the directory listing
    are inputs. */
module YtHelpers {
  import opened Wrappers
  import opened JsText
  import opened Seqs

  /** `text.split(/\r?\n/)`: a "\r" just before a "\n" is part of the separator. */
  function SplitLines(text: string): (r: seq<string>)
    ensures |r| == |Split(text, '\n')|
  {
    var pieces := Split(text, '\n');
    seq(|pieces|, k requires 0 <= k < |pieces| =>
      if k < |pieces| - 1 && EndsWith(pieces[k], "\r") then pieces[k][..|pieces[k]| - 1] else pieces[k])
  }

  /** A playlist line that is kept: non-empty and not a `#` comment. */
  predicate IsEntry(line: string) {
    line != "" && line[0] != '#'
  }

  /** `.map(l => l.trim())`. */
  function TrimAll(lines: seq<string>): (r: seq<string>)
    ensures |r| == |lines|
    ensures forall k :: 0 <= k < |lines| ==> r[k] == Trim(lines[k])
    decreases |lines|
  {
    if lines == [] then [] else TrimAll(lines[..|lines| - 1]) + [Trim(lines[|lines| - 1])]
  }

  /** `.map(l => l.trim()).filter(l => l && !l.startsWith('#'))`. */
  function KeepEntries(lines: seq<string>): (r: seq<string>)
    ensures forall k :: 0 <= k < |r| ==> IsTrimmed(r[k]) && IsEntry(r[k])
    decreases |lines|
  {
    if lines == [] then []
    else
      var kept := KeepEntries(lines[..|lines| - 1]);
      var t := Trim(lines[|lines| - 1]);
      if IsEntry(t) then kept + [t] else kept
  }

  /** The filter keeps the order of the trimmed lines. */
  lemma {:induction false} KeepEntriesOrder(lines: seq<string>)
    ensures IsSubseq(KeepEntries(lines), TrimAll(lines))
    decreases |lines|
  {
    if lines != [] {
      var init := lines[..|lines| - 1];
      var kept := KeepEntries(init);
      var t := Trim(lines[|lines| - 1]);
      KeepEntriesOrder(init);
      SubseqExtend(kept, TrimAll(init), t, IsEntry(t));
    }
  }

  lemma SubseqExtend(a: seq<string>, b: seq<string>, x: string, keep: bool)
    requires IsSubseq(a, b)
    ensures IsSubseq(if keep then a + [x] else a, b + [x])
  {
    assert (b + [x])[..|b|] == b;
    if keep {
      assert (a + [x])[..|a|] == a;
    }
  }

  /** The filter keeps every trimmed line that is an entry. */
  lemma {:induction false} KeepEntriesComplete(lines: seq<string>, k: nat)
    requires k < |lines| && IsEntry(Trim(lines[k]))
    ensures Trim(lines[k]) in KeepEntries(lines)
    decreases |lines|
  {
    var init := lines[..|lines| - 1];
    if k < |lines| - 1 {
      assert lines[k] == init[k];
      KeepEntriesComplete(init, k);
    }
  }

  /** The positions of the elements of `s` that satisfy `p`. */
  function Positions<T>(s: seq<T>, p: T -> bool): set<int> {
    set k | 0 <= k < |s| && p(s[k])
  }

  lemma PositionsSnoc<T>(s: seq<T>, p: T -> bool)
    requires s != []
    ensures var n := |s| - 1;
            Positions(s, p) == Positions(s[..n], p) + (if p(s[n]) then {n} else {})
            && n !in Positions(s[..n], p)
  {
    var n := |s| - 1;
    forall k | 0 <= k < n ensures s[k] == s[..n][k] { }
  }

  /** A line whose trimmed form is an entry. */
  predicate IsEntryLine(line: string) {
    IsEntry(Trim(line))
  }

  /** The positions of the lines whose trimmed form is an entry. */
  function EntryLines(lines: seq<string>): set<int> {
    Positions(lines, IsEntryLine)
  }

  /** The filter keeps exactly one line per entry line, so none is lost
      and none is doubled. */
  lemma {:induction false} KeepEntriesCount(lines: seq<string>)
    ensures |KeepEntries(lines)| == |EntryLines(lines)|
    decreases |lines|
  {
    if lines != [] {
      KeepEntriesCount(lines[..|lines| - 1]);
      PositionsSnoc(lines, IsEntryLine);
    }
  }

  /** `readM3U` once the file's text is read: the clean entry lines of the
      text, in order, one per line that is an entry once trimmed. */
  function ReadM3U(text: string): (r: seq<string>)
    ensures forall k :: 0 <= k < |r| ==> IsTrimmed(r[k]) && IsEntry(r[k])
    ensures IsSubseq(r, TrimAll(SplitLines(text)))
    ensures |r| == |EntryLines(SplitLines(text))|
  {
    KeepEntriesOrder(SplitLines(text));
    KeepEntriesCount(SplitLines(text));
    KeepEntries(SplitLines(text))
  }

  /** Lines that are already clean entries pass the filter unchanged. */
  lemma {:induction false} KeepEntriesOfClean(lines: seq<string>)
    requires forall k :: 0 <= k < |lines| ==> IsTrimmed(lines[k]) && IsEntry(lines[k])
    ensures KeepEntries(lines) == lines
    decreases |lines|
  {
    if lines != [] {
      var init, last := lines[..|lines| - 1], lines[|lines| - 1];
      assert lines == init + [last];
      forall k | 0 <= k < |init| ensures IsTrimmed(init[k]) && IsEntry(init[k]) {
        assert init[k] == lines[k];
      }
      KeepEntriesOfClean(init);
      TrimOfTrimmed(last);
      assert IsEntry(last);
    }
  }

  /** A playlist entry as `yt-dlp --flat-playlist -J` lists it. */
  datatype PlaylistEntry = PlaylistEntry(url: Option<string>, id: Option<string>)

  const WatchPrefix: string := "https://www.youtube.com/watch?v="

  predicate IsHttp(e: PlaylistEntry) {
    e.url.Some? && StartsWith(e.url.value, "http")
  }

  /** `e.url?.startsWith('http') ? e.url : watch?v=${e.id || e.url}`; a
      missing field interpolates as "undefined". */
  function VideoUrl(e: PlaylistEntry): (u: string)
    ensures u != ""
    ensures IsHttp(e) ==> u == e.url.value
    ensures !IsHttp(e) ==> StartsWith(u, WatchPrefix)
    ensures !IsHttp(e) && e.id.Some? && e.id.value != "" ==> u[|WatchPrefix|..] == e.id.value
    ensures !IsHttp(e) && !(e.id.Some? && e.id.value != "") ==>
      u == WatchPrefix + (if e.url.Some? then e.url.value else "undefined")
  {
    if IsHttp(e) then e.url.value
    else WatchPrefix + (if e.id.Some? && e.id.value != "" then e.id.value
                        else if e.url.Some? then e.url.value else "undefined")
  }

  /** `.filter(Boolean)` on strings. */
  function DropEmpty(us: seq<string>): (r: seq<string>)
    ensures forall k :: 0 <= k < |r| ==> r[k] != ""
    ensures (forall k :: 0 <= k < |us| ==> us[k] != "") ==> r == us
    decreases |us|
  {
    if us == [] then []
    else if us[0] == "" then DropEmpty(us[1..])
    else [us[0]] + DropEmpty(us[1..])
  }

  /** `listYtVideos` once the playlist JSON is parsed; `entries` absent
      means an empty playlist. One URL per entry, in order: the filter
      removes nothing because no mapped URL is empty. */
  function ListYtVideos(entries: Option<seq<PlaylistEntry>>): (r: seq<string>)
    ensures var es := entries.GetOr([]);
      |r| == |es| && forall k :: 0 <= k < |es| ==> r[k] == VideoUrl(es[k])
  {
    var es := entries.GetOr([]);
    DropEmpty(seq(|es|, k requires 0 <= k < |es| => VideoUrl(es[k])))
  }

  const SectionPrefix: string := "*0-00:"

  const DefaultSampleSeconds: nat := 25

  /** The `--download-sections` value: `*0-00:` and the seconds padded to two digits. */
  function SectionArg(seconds: nat): (r: string)
    ensures StartsWith(r, SectionPrefix) && |r| >= |SectionPrefix| + 2
  {
    SectionPrefix + PadStart(NatToString(seconds), 2, '0')
  }

  /** The seconds can be read back from the section argument, and the
      default gives "*0-00:25". */
  lemma SectionArgRoundTrip(seconds: nat)
    ensures StartsWith(SectionArg(seconds), SectionPrefix)
    ensures |SectionArg(seconds)| == |SectionPrefix| + (if seconds < 10 then 2 else |NatToString(seconds)|)
    ensures var digits := SectionArg(seconds)[|SectionPrefix|..];
      (forall i :: 0 <= i < |digits| ==> IsDigit(digits[i])) && ParseNat(digits) == seconds
  {
    var s := NatToString(seconds);
    var digits := SectionArg(seconds)[|SectionPrefix|..];
    assert digits == PadStart(s, 2, '0');
    ParseNatToString(seconds);
    if seconds < 10 {
      assert digits == "0" + s;
      ParseNatLeadingZero(s);
    }
  }

  lemma SectionArgDefault()
    ensures SectionArg(DefaultSampleSeconds) == "*0-00:25"
  {
    assert NatToString(25) == "25";
  }

  /** The first `.wav` name of the directory listing. */
  function FirstWav(files: seq<string>): (r: Option<string>)
    ensures r.None? <==> forall k :: 0 <= k < |files| ==> !EndsWith(files[k], ".wav")
    ensures r.Some? ==> exists k :: 0 <= k < |files| && files[k] == r.value
                          && EndsWith(r.value, ".wav") && forall j :: 0 <= j < k ==> !EndsWith(files[j], ".wav")
    decreases |files|
  {
    if files == [] then None
    else if EndsWith(files[0], ".wav") then Some(files[0])
    else
      var r := FirstWav(files[1..]);
      if r.Some? then
        ghost var k :| 0 <= k < |files| - 1 && files[1..][k] == r.value
          && EndsWith(r.value, ".wav") && forall j :: 0 <= j < k ==> !EndsWith(files[1..][j], ".wav");
        assert files[k + 1] == r.value;
        r
      else r
  }

  const NoWav: string := "no wav produced"

  /** The end of `sampleAudio`: the path of the first `.wav` file in the
      sample directory, or the error "no wav produced". */
  function WavPath(dir: string, files: seq<string>): (r: Result<string, string>)
    ensures r.Failure? <==> forall k :: 0 <= k < |files| ==> !EndsWith(files[k], ".wav")
    ensures r.Failure? ==> r.error == NoWav
    ensures r.Success? ==> StartsWith(r.value, dir + "/") && EndsWith(r.value, ".wav")
    ensures r.Success? ==> FirstWav(files).Some? && r.value == dir + "/" + FirstWav(files).value
  {
    match FirstWav(files)
    case None => Failure(NoWav)
    case Some(f) => Success(dir + "/" + f)
  }
}
