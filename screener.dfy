/** The screening run of scripts/screener.ts (and of its standalone copy
    screener.mjs): start-up checks and settings, the worker count, the queue
    drain that sorts every URL into `allowed` or `blocked`, and the two output
    files. The workers are modelled one after another, each draining the
    shared queue to the end; the model does not interleave them. */
module Screener {
  import opened Wrappers
  import opened JsText
  import opened Seqs
  import opened Copyright
  import opened YtHelpers
  import opened ScreenUrl
  import opened ArgParse

  // ----- The partition, as a function of the decisions in queue order -----

  /** The URLs whose decision is not BLOCK, in order (`allowed.push(u)`). */
  function AllowedOf<T>(urls: seq<T>, ds: seq<Decision>): (r: seq<T>)
    requires |ds| == |urls|
    ensures |r| <= |urls|
    decreases |urls|
  {
    if urls == [] then []
    else AllowedOf(urls[..|urls| - 1], ds[..|ds| - 1])
         + (if ds[|ds| - 1] != Block then [urls[|urls| - 1]] else [])
  }

  /** The URLs whose decision is BLOCK, in order (`blocked.push(u)`). */
  function BlockedOf<T>(urls: seq<T>, ds: seq<Decision>): (r: seq<T>)
    requires |ds| == |urls|
    ensures |r| <= |urls|
    decreases |urls|
  {
    if urls == [] then []
    else BlockedOf(urls[..|urls| - 1], ds[..|ds| - 1])
         + (if ds[|ds| - 1] == Block then [urls[|urls| - 1]] else [])
  }

  lemma PartitionStep<T>(urls: seq<T>, ds: seq<Decision>, u: T, d: Decision)
    requires |ds| == |urls|
    ensures AllowedOf(urls + [u], ds + [d]) == AllowedOf(urls, ds) + (if d != Block then [u] else [])
    ensures BlockedOf(urls + [u], ds + [d]) == BlockedOf(urls, ds) + (if d == Block then [u] else [])
  {
    assert (urls + [u])[..|urls|] == urls;
    assert (ds + [d])[..|ds|] == ds;
  }

  /** Together the two lists are a permutation of the input: every URL is
      in exactly one of them, none is dropped and none is added. */
  lemma {:induction false} PartitionIsPermutation<T>(urls: seq<T>, ds: seq<Decision>)
    requires |ds| == |urls|
    ensures multiset(AllowedOf(urls, ds)) + multiset(BlockedOf(urls, ds)) == multiset(urls)
    decreases |urls|
  {
    if urls != [] {
      var n := |urls| - 1;
      var init, dinit, last := urls[..n], ds[..n], urls[n];
      PartitionIsPermutation(init, dinit);
      assert urls == init + [last] && ds == dinit + [ds[n]];
      PartitionStep(init, dinit, last, ds[n]);
      MultisetSplitStep(AllowedOf(init, dinit), BlockedOf(init, dinit), init, last, ds[n] != Block);
    }
  }

  /** Appending one element to one of two parts of a split keeps it a split. */
  lemma MultisetSplitStep<T>(a: seq<T>, b: seq<T>, whole: seq<T>, x: T, toFirst: bool)
    requires multiset(a) + multiset(b) == multiset(whole)
    ensures multiset(a + (if toFirst then [x] else [])) + multiset(b + (if toFirst then [] else [x]))
         == multiset(whole + [x])
  {
    assert multiset(whole + [x]) == multiset(whole) + multiset{x};
    if toFirst {
      assert b + [] == b;
      assert multiset(a + [x]) == multiset(a) + multiset{x};
    } else {
      assert a + [] == a;
      assert multiset(b + [x]) == multiset(b) + multiset{x};
    }
  }

  /** No URL is lost or added: the two lists are as long as the input together. */
  lemma PartitionSizes<T>(urls: seq<T>, ds: seq<Decision>)
    requires |ds| == |urls|
    ensures |AllowedOf(urls, ds)| + |BlockedOf(urls, ds)| == |urls|
  {
    PartitionIsPermutation(urls, ds);
    assert |multiset(AllowedOf(urls, ds))| == |AllowedOf(urls, ds)|;
    assert |multiset(BlockedOf(urls, ds))| == |BlockedOf(urls, ds)|;
  }

  /** Each list keeps the input order: it is a subsequence of the input. */
  lemma {:induction false} PartitionKeepsOrder<T>(urls: seq<T>, ds: seq<Decision>)
    requires |ds| == |urls|
    ensures IsSubseq(AllowedOf(urls, ds), urls)
    ensures IsSubseq(BlockedOf(urls, ds), urls)
    decreases |urls|
  {
    if urls != [] {
      var init, dinit := urls[..|urls| - 1], ds[..|ds| - 1];
      PartitionKeepsOrder(init, dinit);
      var a, b := AllowedOf(init, dinit), BlockedOf(init, dinit);
      var last := urls[|urls| - 1];
      assert urls[..|urls| - 1] == init;
      if ds[|ds| - 1] == Block {
        assert AllowedOf(urls, ds) == a && BlockedOf(urls, ds) == b + [last];
        assert (b + [last])[..|b|] == b;
      } else {
        assert AllowedOf(urls, ds) == a + [last] && BlockedOf(urls, ds) == b;
        assert (a + [last])[..|a|] == a;
      }
    }
  }

  lemma BlockedSnocMember<T>(urls: seq<T>, ds: seq<Decision>, x: T)
    requires |ds| == |urls| && urls != []
    ensures var n := |urls| - 1;
            x in BlockedOf(urls, ds) <==> x in BlockedOf(urls[..n], ds[..n]) || (ds[n] == Block && urls[n] == x)
  {
    var n := |urls| - 1;
    assert BlockedOf(urls, ds) == BlockedOf(urls[..n], ds[..n]) + (if ds[n] == Block then [urls[n]] else []);
  }

  /** `blocked` holds exactly the URLs some position of which was decided
      BLOCK. */
  lemma {:induction false} BlockedMembers<T>(urls: seq<T>, ds: seq<Decision>, x: T)
    requires |ds| == |urls|
    ensures x in BlockedOf(urls, ds) <==> exists i :: 0 <= i < |urls| && urls[i] == x && ds[i] == Block
    decreases |urls|
  {
    if urls != [] {
      var n := |urls| - 1;
      var init, dinit := urls[..n], ds[..n];
      BlockedMembers(init, dinit, x);
      BlockedSnocMember(urls, ds, x);
      if exists i :: 0 <= i < |urls| && urls[i] == x && ds[i] == Block {
        var i :| 0 <= i < |urls| && urls[i] == x && ds[i] == Block;
        if i < n { assert init[i] == x && dinit[i] == Block; }
      }
      if x in BlockedOf(init, dinit) {
        var i :| 0 <= i < n && init[i] == x && dinit[i] == Block;
        assert urls[i] == x && ds[i] == Block;
      }
    }
  }

  lemma AllowedSnocMember<T>(urls: seq<T>, ds: seq<Decision>, x: T)
    requires |ds| == |urls| && urls != []
    ensures var n := |urls| - 1;
            x in AllowedOf(urls, ds) <==> x in AllowedOf(urls[..n], ds[..n]) || (ds[n] != Block && urls[n] == x)
  {
    var n := |urls| - 1;
    assert AllowedOf(urls, ds) == AllowedOf(urls[..n], ds[..n]) + (if ds[n] != Block then [urls[n]] else []);
  }

  /** `allowed` holds exactly the URLs some position of which was not
      decided BLOCK. */
  lemma {:induction false} AllowedMembers<T>(urls: seq<T>, ds: seq<Decision>, x: T)
    requires |ds| == |urls|
    ensures x in AllowedOf(urls, ds) <==> exists i :: 0 <= i < |urls| && urls[i] == x && ds[i] != Block
    decreases |urls|
  {
    if urls != [] {
      var n := |urls| - 1;
      var init, dinit := urls[..n], ds[..n];
      AllowedMembers(init, dinit, x);
      AllowedSnocMember(urls, ds, x);
      if exists i :: 0 <= i < |urls| && urls[i] == x && ds[i] != Block {
        var i :| 0 <= i < |urls| && urls[i] == x && ds[i] != Block;
        if i < n { assert init[i] == x && dinit[i] != Block; }
      }
      if x in AllowedOf(init, dinit) {
        var i :| 0 <= i < n && init[i] == x && dinit[i] != Block;
        assert urls[i] == x && ds[i] != Block;
      }
    }
  }

  /** For an input without repeated URLs (a playlist without duplicates),
      a URL is blocked exactly when its decision is BLOCK and allowed
      exactly when it is not, so the two lists are disjoint. */
  lemma BlockExactlyWhenDecidedBlock<T>(urls: seq<T>, ds: seq<Decision>, i: nat)
    requires |ds| == |urls| && NoDup(urls) && i < |urls|
    ensures urls[i] in BlockedOf(urls, ds) <==> ds[i] == Block
    ensures urls[i] in AllowedOf(urls, ds) <==> ds[i] != Block
    ensures !(urls[i] in BlockedOf(urls, ds) && urls[i] in AllowedOf(urls, ds))
  {
    BlockedMembers(urls, ds, urls[i]);
    AllowedMembers(urls, ds, urls[i]);
  }

  // ----- The output files -----

  /** `list.join('\n') + '\n'`, the text written to each output file. */
  function FileText(lines: seq<string>): (r: string)
    ensures |r| > 0 && r[|r| - 1] == '\n'
  {
    Join(lines, "\n") + "\n"
  }

  /** A URL as the M3U reader returns it: trimmed, non-empty, not a
      comment, on one line. */
  predicate IsCleanLine(l: string) {
    IsTrimmed(l) && IsEntry(l) && '\n' !in l
  }

  lemma {:induction false} JoinAppendEmpty(parts: seq<string>, sep: string)
    requires |parts| >= 1
    ensures Join(parts + [""], sep) == Join(parts, sep) + sep
    decreases |parts|
  {
    if |parts| > 1 {
      JoinAppendEmpty(parts[1..], sep);
      assert (parts + [""])[1..] == parts[1..] + [""];
    }
  }

  /** An output file read back as an M3U playlist gives the list that was
      written (the empty list is written as a single blank line). */
  lemma EmptyFileReadsBack()
    ensures ReadM3U(FileText([])) == []
  {
    var text := FileText([]);
    assert text == [] + ['\n'];
    assert Split(text, '\n') == ["", ""];
    assert SplitLines(text) == ["", ""];
    assert KeepEntries(["", ""]) == [];
  }

  /** A non-empty written list splits back into its lines and one empty piece. */
  lemma SplitLinesOfFileText(lines: seq<string>)
    requires lines != [] && forall k :: 0 <= k < |lines| ==> IsCleanLine(lines[k])
    ensures SplitLines(FileText(lines)) == lines + [""]
  {
    var pieces := lines + [""];
    JoinAppendEmpty(lines, "\n");
    assert FileText(lines) == Join(pieces, ['\n']);
    SplitJoin(pieces, '\n');
    forall k | 0 <= k < |pieces| - 1 ensures !EndsWith(pieces[k], "\r") {
      assert IsCleanLine(lines[k]);
    }
  }

  lemma KeepEntriesDropsBlank(lines: seq<string>)
    requires forall k :: 0 <= k < |lines| ==> IsCleanLine(lines[k])
    ensures KeepEntries(lines + [""]) == lines
  {
    var x := lines + [""];
    KeepEntriesOfClean(lines);
    assert x[..|x| - 1] == lines && x[|x| - 1] == "";
    TrimOfTrimmed("");
    assert !IsEntry(Trim(x[|x| - 1]));
  }

  lemma FileTextReadsBack(lines: seq<string>)
    requires forall k :: 0 <= k < |lines| ==> IsCleanLine(lines[k])
    ensures ReadM3U(FileText(lines)) == lines
  {
    if lines == [] {
      EmptyFileReadsBack();
    } else {
      SplitLinesOfFileText(lines);
      KeepEntriesDropsBlank(lines);
    }
  }

  // ----- Start-up -----

  /** Where the URL list comes from: `--yt-playlist` wins over `--m3u`. */
  datatype Source = Playlist(playlist: ArgValue) | M3uFile(file: ArgValue)

  datatype Settings = Settings(source: Source, out: ArgValue, seconds: JsNumber, concurrency: JsNumber)

  const MissingKeys: string := "Set ACOUSTID_KEY (and optionally AUDD_TOKEN)"
  const MissingInput: string := "Pass --yt-playlist <url> or --m3u <file>"

  /** The start-up of the script: the credential check (before the
      arguments are read), the argument defaults, and the input check. A
      Failure is the message printed before `process.exit(1)`. */
  function Startup(acoustidKey: string, auddToken: string, argv: seq<string>, toNumber: string -> JsNumber): (r: Result<Settings, string>)
    ensures r.Failure? <==> (acoustidKey == "" && auddToken == "")
                            || (!Given(ParseArgs(argv), "yt-playlist") && !Given(ParseArgs(argv), "m3u"))
    ensures acoustidKey == "" && auddToken == "" ==> r == Failure(MissingKeys)
    ensures (acoustidKey != "" || auddToken != "") && r.Failure? ==> r.error == MissingInput
    ensures r.Success? ==>
      var args := ParseArgs(argv);
      && r.value.source == (if Given(args, "yt-playlist") then Playlist(args["yt-playlist"]) else M3uFile(args["m3u"]))
      && r.value.out == (if Given(args, "out") then args["out"] else Str("allowed.m3u"))
      && r.value.seconds == NumberArg(args, "seconds", 25.0, toNumber)
      && r.value.concurrency == NumberArg(args, "concurrency", 3.0, toNumber)
  {
    if acoustidKey == "" && auddToken == "" then Failure(MissingKeys)
    else
      var args := ParseArgs(argv);
      if !Given(args, "yt-playlist") && !Given(args, "m3u") then Failure(MissingInput)
      else
        var source := if Given(args, "yt-playlist") then Playlist(args["yt-playlist"]) else M3uFile(args["m3u"]);
        var out := if Given(args, "out") then args["out"] else Str("allowed.m3u");
        Success(Settings(source, out, NumberArg(args, "seconds", 25.0, toNumber), NumberArg(args, "concurrency", 3.0, toNumber)))
  }

  /** Without flags other than the input, the defaults are 25 seconds,
      3 workers and the output file allowed.m3u. */
  lemma StartupDefaults(key: string, file: string, toNumber: string -> JsNumber)
    requires key != "" && file != "" && !IsKeyToken(file)
    ensures Startup(key, "", ["node", "screener.ts", "--m3u", file], toNumber)
         == Success(Settings(M3uFile(Str(file)), Str("allowed.m3u"), Num(25.0), Num(3.0)))
  {
    var argv := ["node", "screener.ts", "--m3u", file];
    ParseArgsLastWins(argv, 2);
    assert argv[2][2..] == "m3u";
    forall k | k != "m3u" ensures k !in ParseArgs(argv) {
      ParseArgsKeys(argv, k);
      assert !IsKeyToken(argv[3]);
    }
  }

  // ----- The worker count -----

  /** `Math.min` and `Math.max` on two numbers: NaN if either is NaN. */
  function JsMin(a: JsNumber, b: JsNumber): JsNumber {
    if a == NaN || b == NaN then NaN
    else if a == NegInfinity || b == PosInfinity then a
    else if b == NegInfinity || a == PosInfinity then b
    else if a.r <= b.r then a else b
  }

  function JsMax(a: JsNumber, b: JsNumber): JsNumber {
    if a == NaN || b == NaN then NaN
    else if a == PosInfinity || b == NegInfinity then a
    else if b == PosInfinity || a == NegInfinity then b
    else if a.r >= b.r then a else b
  }

  const MaxLength: nat := 0x1F_FFFF_FFFF_FFFF

  /** The array length `Array.from({length})` makes of a number (ToLength). */
  function ToLength(n: JsNumber): nat {
    match n
    case NaN => 0
    case NegInfinity => 0
    case PosInfinity => MaxLength
    case Num(r) => if r <= 0.0 then 0 else if r.Floor > MaxLength then MaxLength else r.Floor
  }

  /** The number of workers as the source computes it,
      `Math.max(1, Math.min(CONCURRENCY, urls.length))`. */
  function WorkerCountAsWritten(concurrency: JsNumber, n: nat): (r: nat)
    ensures r == 0 <==> concurrency == NaN
    ensures r <= n || r == 1
  {
    ToLength(JsMax(Num(1.0), JsMin(concurrency, Num(n as real))))
  }

  /** A concurrency that is not a number (`--concurrency abc`) starts no
      worker at all: nothing is screened and both files hold only a newline. */
  lemma NaNConcurrencyStartsNoWorker(n: nat)
    ensures WorkerCountAsWritten(NaN, n) == 0
  {
  }

  /** The count as intended: a non-number falls back to the default of 3,
      then the count is clamped to at least 1 and at most the number of URLs. */
  function WorkerCount(concurrency: JsNumber, n: nat): (k: nat)
    ensures 1 <= k
    ensures n >= 1 ==> k <= n
    ensures concurrency.Num? && 1.0 <= concurrency.r && 1 <= n <= MaxLength ==>
      k == if concurrency.r.Floor < n then concurrency.r.Floor else n
    ensures concurrency != NaN ==> k == WorkerCountAsWritten(concurrency, n)
  {
    WorkerCountAsWritten(if concurrency == NaN then Num(3.0) else concurrency, n)
  }

  // ----- The run -----

  /** The decision for the `i`-th URL taken from the queue, whose
      screening sees the answers `worlds[i]`. */
  function DecisionAt(urls: seq<string>, cfg: Config, root: string, worlds: seq<Io>, i: nat): Decision
    requires i < |urls| == |worlds|
  {
    Cascade(urls[i], cfg, TempDirName(root, worlds[i].now), worlds[i]).outcome.decision
  }

  /** The temp directory of every screening from the `lo`-th to before the
      `hi`-th could be made. */
  predicate DirsMade(worlds: seq<Io>, lo: nat, hi: nat)
    decreases hi
  {
    hi <= lo || (DirsMade(worlds, lo, hi - 1) && (hi - 1 < |worlds| ==> worlds[hi - 1].mkdirError.None?))
  }

  lemma {:induction false} DirsMadeMeans(worlds: seq<Io>, lo: nat, hi: nat)
    ensures DirsMade(worlds, lo, hi) <==> forall i :: lo <= i < hi && i < |worlds| ==> worlds[i].mkdirError.None?
    decreases hi
  {
    if hi > lo {
      DirsMadeMeans(worlds, lo, hi - 1);
    }
  }

  /** The temp directories that exist after screenings `lo` to `hi - 1`,
      one after the other, starting from `stamps`. */
  function StampsAfter(stamps: set<nat>, worlds: seq<Io>, lo: nat, hi: nat): set<nat>
    requires lo <= hi <= |worlds|
    decreases hi
  {
    if hi == lo then stamps else AfterScreening(StampsAfter(stamps, worlds, lo, hi - 1), worlds[hi - 1])
  }

  /** The directories of screenings `lo` to `hi - 1` whose removal failed. */
  function Leftover(worlds: seq<Io>, lo: nat, hi: nat): set<nat> {
    set i | lo <= i < hi && i < |worlds| && worlds[i].mkdirError.None? && worlds[i].rmError.Some? :: worlds[i].now
  }

  /** Every temp directory that remains after a run was there before or
      belongs to a screening whose removal failed. */
  lemma {:induction false} StampsAfterBound(stamps: set<nat>, worlds: seq<Io>, lo: nat, hi: nat)
    requires lo <= hi <= |worlds|
    ensures StampsAfter(stamps, worlds, lo, hi) <= stamps + Leftover(worlds, lo, hi)
    decreases hi
  {
    if hi > lo {
      StampsAfterBound(stamps, worlds, lo, hi - 1);
      assert Leftover(worlds, lo, hi - 1) <= Leftover(worlds, lo, hi);
      var w := worlds[hi - 1];
      if w.mkdirError.None? && w.rmError.Some? {
        assert w.now in Leftover(worlds, lo, hi);
      }
    }
  }

  /** When no removal fails, a run leaves no temp directory of its own behind. */
  lemma NoLeftoverWhenRemovalsSucceed(stamps: set<nat>, worlds: seq<Io>, lo: nat, hi: nat)
    requires lo <= hi <= |worlds|
    requires forall i :: lo <= i < hi ==> worlds[i].rmError.None?
    ensures StampsAfter(stamps, worlds, lo, hi) <= stamps
  {
    StampsAfterBound(stamps, worlds, lo, hi);
    assert Leftover(worlds, lo, hi) == {};
  }

  /** What the run writes: the allowed file and `blocked.m3u`. */
  datatype Report = Report(allowedText: string, blockedText: string)

  /** The state of one run: the queue `q`, the two result lists and the
      `idx`/`active` counters. `verdicts` names the decision the cascade
      reaches for each URL of the input. */
  class Run {
    const urls: seq<string>
    const cfg: Config
    const worlds: seq<Io>
    const temp: TempRoot
    ghost const verdicts: seq<Decision>
    var q: seq<string>
    var allowed: seq<string>
    var blocked: seq<string>
    var idx: nat
    var active: nat

    /** `verdicts` holds the cascade's decision for every URL. */
    ghost predicate Faithful() {
      && |worlds| == |urls| == |verdicts|
      && forall i {:trigger DecisionAt(urls, cfg, temp.root, worlds, i)} :: 0 <= i < |urls| ==>
           verdicts[i] == DecisionAt(urls, cfg, temp.root, worlds, i)
    }

    /** Between items: the queue is what is left of the input, no screening
        is active, and every URL taken so far is in the list its decision
        selects. */
    ghost predicate Valid()
      reads this
    {
      && Faithful() && idx <= |urls| && q == urls[idx..] && active == 0
      && allowed == AllowedOf(urls[..idx], verdicts[..idx])
      && blocked == BlockedOf(urls[..idx], verdicts[..idx])
    }

    constructor (urls: seq<string>, cfg: Config, worlds: seq<Io>, temp: TempRoot)
      requires |worlds| == |urls|
      ensures this.urls == urls && this.cfg == cfg && this.worlds == worlds && this.temp == temp
      ensures |verdicts| == |urls|
      ensures forall i :: 0 <= i < |urls| ==> verdicts[i] == DecisionAt(urls, cfg, temp.root, worlds, i)
      ensures Valid() && q == urls && idx == 0 && allowed == [] && blocked == []
    {
      this.urls, this.cfg, this.worlds, this.temp := urls, cfg, worlds, temp;
      verdicts := seq(|urls|, i requires 0 <= i < |urls| => DecisionAt(urls, cfg, temp.root, worlds, i));
      q, allowed, blocked, idx, active := urls, [], [], 0, 0;
      new;
      assert urls[..0] == [] && verdicts[..0] == [];
    }

    /** `await screenUrl(urls[n])`, reduced to its decision. */
    method Screen(n: nat) returns (r: Result<Decision, string>)
      requires Faithful() && n < |urls|
      modifies temp
      ensures r.Failure? ==> worlds[n].mkdirError == Some(r.error)
      ensures r.Success? ==> worlds[n].mkdirError.None? && r.value == verdicts[n]
      ensures worlds[n].mkdirError.Some? ==> temp.stamps == old(temp.stamps)
      ensures worlds[n].mkdirError.None? && worlds[n].rmError.None? ==> temp.stamps == old(temp.stamps) - {worlds[n].now}
      ensures worlds[n].mkdirError.None? && worlds[n].rmError.Some? ==> temp.stamps == old(temp.stamps) + {worlds[n].now}
      ensures temp.stamps == AfterScreening(old(temp.stamps), worlds[n])
    {
      var res := temp.ScreenUrl(urls[n], cfg, worlds[n]);
      if res.Failure? {
        return Failure(res.error);
      }
      assert res.value.decision == DecisionAt(urls, cfg, temp.root, worlds, n);
      r := Success(res.value.decision);
    }

    /** One turn of the worker loop: take the URL at the front of the
        queue, screen it, and push it to `blocked` when its decision `d` is
        BLOCK and to `allowed` otherwise. A screening that rejects (its
        temp directory could not be made) leaves both lists as they were
        and `active` counting it. */
    method Take() returns (failure: Option<string>, d: Decision)
      requires Valid() && |q| > 0
      modifies this, temp
      ensures idx == old(idx) + 1 <= |urls| && q == urls[idx..]
      ensures failure == worlds[old(idx)].mkdirError
      ensures failure.Some? ==> active == 1 && allowed == old(allowed) && blocked == old(blocked)
      ensures failure.None? ==> Valid() && d == verdicts[old(idx)]
      ensures temp.stamps == AfterScreening(old(temp.stamps), worlds[old(idx)])
    {
      ghost var n := idx;
      assert urls[..n + 1] == urls[..n] + [urls[n]];
      assert verdicts[..n + 1] == verdicts[..n] + [verdicts[n]];
      PartitionStep(urls[..n], verdicts[..n], urls[n], verdicts[n]);
      var u := q[0];
      q := q[1..];
      idx := idx + 1;
      active := active + 1;
      var r := Screen(idx - 1);
      if r.Failure? {
        return Some(r.error), Unknown;
      }
      d := r.value;
      if d == Block {
        blocked := blocked + [u];
      } else {
        allowed := allowed + [u];
      }
      active := active - 1;
      failure := None;
    }

    /** `worker()`: take URLs until the queue is empty. A rejected
        screening ends the worker with its error. */
    method Worker() returns (failure: Option<string>)
      requires Valid()
      modifies this, temp
      ensures failure.None? ==> Valid() && q == [] && idx == |urls| && DirsMade(worlds, old(idx), idx)
      ensures failure.Some? ==>
        && old(idx) < idx <= |urls| && q == urls[idx..] && active == 1
        && DirsMade(worlds, old(idx), idx - 1) && worlds[idx - 1].mkdirError == failure
        && allowed == AllowedOf(urls[..idx - 1], verdicts[..idx - 1])
        && blocked == BlockedOf(urls[..idx - 1], verdicts[..idx - 1])
      ensures old(idx) <= idx <= |worlds| && temp.stamps == StampsAfter(old(temp.stamps), worlds, old(idx), idx)
    {
      while |q| > 0
        invariant Valid() && old(idx) <= idx && DirsMade(worlds, old(idx), idx)
        invariant temp.stamps == StampsAfter(old(temp.stamps), worlds, old(idx), idx)
        decreases |q|
      {
        var d;
        failure, d := Take();
        if failure.Some? {
          return;
        }
      }
      return None;
    }

    /** `run()` after the URL list is known: start `workers` workers, wait
        for all of them, and produce the two file texts. With no worker
        nothing is screened. A rejected screening fails the run with the
        error of the first URL whose temp directory could not be made. */
    method RunWorkers(workers: nat) returns (r: Result<Report, string>)
      requires Valid() && idx == 0
      modifies this, temp
      ensures workers == 0 ==> r == Success(Report(FileText([]), FileText([]))) && q == urls
      ensures workers > 0 && DirsMade(worlds, 0, |urls|) ==>
        && r == Success(Report(FileText(AllowedOf(urls, verdicts)), FileText(BlockedOf(urls, verdicts))))
        && q == [] && idx == |urls| && active == 0
      ensures r.Failure? <==> workers > 0 && !DirsMade(worlds, 0, |urls|)
      ensures r.Failure? ==> exists k :: 0 <= k < |urls| && worlds[k].mkdirError == Some(r.error) && DirsMade(worlds, 0, k)
      ensures idx <= |worlds| && temp.stamps == StampsAfter(old(temp.stamps), worlds, 0, idx)
      ensures temp.stamps <= old(temp.stamps) + Leftover(worlds, 0, |urls|)
    {
      var w := 0;
      while w < workers
        invariant w <= workers
        invariant Valid()
        invariant temp.stamps == StampsAfter(old(temp.stamps), worlds, 0, idx)
        invariant w == 0 ==> idx == 0 && allowed == [] && blocked == []
        invariant w > 0 ==> q == [] && idx == |urls| && DirsMade(worlds, 0, idx)
      {
        var failure := Worker();
        if failure.Some? {
          DirsMadeMeans(worlds, 0, |urls|);
          assert worlds[idx - 1].mkdirError.Some?;
          StampsAfterBound(old(temp.stamps), worlds, 0, idx);
          assert Leftover(worlds, 0, idx) <= Leftover(worlds, 0, |urls|);
          return Failure(failure.value);
        }
        w := w + 1;
      }
      if workers > 0 {
        assert urls[..|urls|] == urls && verdicts[..|urls|] == verdicts;
      }
      StampsAfterBound(old(temp.stamps), worlds, 0, idx);
      assert Leftover(worlds, 0, idx) <= Leftover(worlds, 0, |urls|);
      r := Success(Report(FileText(allowed), FileText(blocked)));
    }

    /** `run()` with the worker count as the source computes it: a
        concurrency that is not a number writes both files empty. */
    method RunAsWritten(concurrency: JsNumber) returns (r: Result<Report, string>)
      requires Valid() && idx == 0
      modifies this, temp
      ensures concurrency == NaN ==> r == Success(Report(FileText([]), FileText([])))
      ensures concurrency != NaN && DirsMade(worlds, 0, |urls|) ==>
        r == Success(Report(FileText(AllowedOf(urls, verdicts)), FileText(BlockedOf(urls, verdicts))))
      ensures r.Failure? <==> concurrency != NaN && !DirsMade(worlds, 0, |urls|)
      ensures temp.stamps <= old(temp.stamps) + Leftover(worlds, 0, |urls|)
    {
      if concurrency != NaN {
        assert WorkerCountAsWritten(concurrency, |urls|) == WorkerCount(concurrency, |urls|);
      }
      r := RunWorkers(WorkerCountAsWritten(concurrency, |urls|));
    }

    /** `run()` with the worker count as intended: at least one worker, so
        every URL is screened unless a temp directory cannot be made. */
    method RunAll(concurrency: JsNumber) returns (r: Result<Report, string>)
      requires Valid() && idx == 0
      modifies this, temp
      ensures DirsMade(worlds, 0, |urls|) ==>
        r == Success(Report(FileText(AllowedOf(urls, verdicts)), FileText(BlockedOf(urls, verdicts))))
      ensures r.Failure? <==> !DirsMade(worlds, 0, |urls|)
      ensures temp.stamps <= old(temp.stamps) + Leftover(worlds, 0, |urls|)
    {
      r := RunWorkers(WorkerCount(concurrency, |urls|));
    }
  }
}
