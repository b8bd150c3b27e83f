/** The per-URL decision cascade of src/utils/screenUrl.ts (copied in
    screener.mjs): sample the audio, ask AudD (which may short-circuit to
    BLOCK), then fingerprint and ask AcoustID with a 0.65 score threshold, then
    MusicBrainz. The sampler, `fpcalc` and the three web services are an
    oracle `Io`: every answer they give during one screening, each either a
    value or the message of the exception the step throws. The result records
    the outcome and the calls made, so that the short-circuits can be stated. */
module ScreenUrl {
  import opened Wrappers
  import opened JsText
  import opened Copyright
  import opened YtHelpers

  /** The service credentials (empty when not configured) and the sample length. */
  datatype Config = Config(audToken: string, acoustidKey: string, duration: nat)

  /** `fpcalc -json` output. */
  datatype Fingerprint = Fingerprint(duration: real, fingerprint: string)

  datatype Recording = Recording(id: string)

  /** One ranked AcoustID result. */
  datatype AcoustIdResult = AcoustIdResult(score: Option<real>, recordings: Option<seq<Recording>>)

  datatype AcoustIdResponse = AcoustIdResponse(results: Option<seq<AcoustIdResult>>)

  /** The answers of the outside world to one screening. `None` in a
      response position is a `null` return (an HTTP status that is not ok). */
  datatype Io = Io(
    now: nat,                                   // Date.now() when the temp directory is named
    mkdirError: Option<string>,                 // mkdirSync failure
    sample: Result<seq<string>, string>,        // the yt-dlp run: directory listing afterwards
    audd: Result<Option<AuddResponse>, string>,
    fpcalc: Result<Fingerprint, string>,
    acoustid: Result<Option<AcoustIdResponse>, string>,
    mb: Result<Option<MbRecording>, string>,    // after the 1100 ms courtesy wait
    rmError: Option<string>)                    // rmSync failure, swallowed

  /** The record `screenUrl` resolves to. */
  datatype Outcome = Outcome(
    url: string, decision: Decision, score: Option<real>,
    source: Option<string>, mbid: Option<string>, error: Option<string>)

  /** A call to an external process or service, with its arguments. */
  datatype Call =
    | Sample(url: string, section: string)
    | AudD(wav: string)
    | Fpcalc(wav: string)
    | AcoustId(fingerprint: string, duration: real, key: string)
    | MusicBrainz(mbid: string)

  datatype Screening = Screening(outcome: Outcome, calls: seq<Call>)

  const Threshold: real := 0.65

  function Plain(url: string, d: Decision): Outcome {
    Outcome(url, d, None, None, None, None)
  }

  /** The `catch` branch. */
  function Errored(url: string, message: string): Outcome {
    Outcome(url, Unknown, None, None, None, Some(message))
  }

  /** `res?.results?.[0]`. */
  function TopResult(res: Option<AcoustIdResponse>): Option<AcoustIdResult> {
    if res.Some? && res.value.results.Some? && |res.value.results.value| > 0
    then Some(res.value.results.value[0]) else None
  }

  /** `Number(result?.score || 0)`: a missing score counts as 0. */
  function ScoreOf(top: Option<AcoustIdResult>): real {
    if top.Some? && top.value.score.Some? then top.value.score.value else 0.0
  }

  /** `result.recordings?.length` is truthy. */
  predicate HasRecordings(r: AcoustIdResult) {
    r.recordings.Some? && |r.recordings.value| > 0
  }

  /** The AudD answer is a confident match that classifies as BLOCK. */
  predicate AuddBlocks(resp: Option<AuddResponse>) {
    && resp.Some?
    && resp.value.status == Some("success")
    && resp.value.result.Some?
    && DecisionFromAudD(resp) == Block
  }

  /** The AcoustID top result passes the gate: present, score at least the
      threshold, and at least one recording. */
  predicate PassesGate(top: Option<AcoustIdResult>) {
    top.Some? && !(ScoreOf(top) < Threshold) && HasRecordings(top.value)
  }

  /** The `if (acoustidKey)` branch and the final fall-back, after `calls`. */
  function FingerprintStage(url: string, cfg: Config, wav: string, io: Io, calls: seq<Call>): (s: Screening)
    ensures s.outcome.url == url
    ensures s.outcome.source.None?
    ensures s.outcome.decision == Block ==> s.outcome.error.None?
    ensures s.outcome.error.Some? ==> s.outcome.decision == Unknown
    ensures calls <= s.calls
    ensures cfg.acoustidKey == "" ==> s == Screening(Plain(url, Unknown), calls)
  {
    if cfg.acoustidKey == "" then Screening(Plain(url, Unknown), calls)
    else match io.fpcalc
      case Failure(e) => Screening(Errored(url, e), calls + [Fpcalc(wav)])
      case Success(fp) =>
        var asked := calls + [Fpcalc(wav), AcoustId(fp.fingerprint, fp.duration, cfg.acoustidKey)];
        match io.acoustid
        case Failure(e) => Screening(Errored(url, e), asked)
        case Success(res) =>
          var top := TopResult(res);
          var score := ScoreOf(top);
          if !PassesGate(top) then Screening(Outcome(url, Unknown, Some(score), None, None, None), asked)
          else
            var rec := top.value.recordings.value[0];
            var called := asked + [MusicBrainz(rec.id)];
            match io.mb
            case Failure(e) => Screening(Errored(url, e), called)
            case Success(mb) => Screening(Outcome(url, DecisionFromMB(mb), Some(score), None, Some(rec.id), None), called)
  }

  /** The `if (audToken)` branch, after sampling produced `wav`. */
  function AuddStage(url: string, cfg: Config, wav: string, io: Io, calls: seq<Call>): (s: Screening)
    ensures s.outcome.url == url
    ensures s.outcome.decision == Block ==> s.outcome.error.None?
    ensures s.outcome.error.Some? ==> s.outcome.decision == Unknown
    ensures calls <= s.calls
    ensures s.outcome.source.Some? ==> s.outcome == Outcome(url, Block, None, Some("AudD"), None, None)
  {
    if cfg.audToken == "" then FingerprintStage(url, cfg, wav, io, calls)
    else
      var asked := calls + [AudD(wav)];
      match io.audd
      case Failure(e) => Screening(Errored(url, e), asked)
      case Success(resp) =>
        if AuddBlocks(resp) then Screening(Outcome(url, Block, None, Some("AudD"), None, None), asked)
        else FingerprintStage(url, cfg, wav, io, asked)
  }

  /** The body of `screenUrl` between `tmpdir()` and `finally`, with `dir`
      the sample directory. */
  function Cascade(url: string, cfg: Config, dir: string, io: Io): (s: Screening)
    ensures s.outcome.url == url
    ensures |s.calls| >= 1 && s.calls[0] == Sample(url, SectionArg(cfg.duration))
    ensures s.outcome.decision == Block ==> s.outcome.error.None?
    ensures s.outcome.error.Some? ==> s.outcome.decision == Unknown
    ensures s.outcome.source.Some? ==> s.outcome == Outcome(url, Block, None, Some("AudD"), None, None)
  {
    var sampled := [Sample(url, SectionArg(cfg.duration))];
    match io.sample
    case Failure(e) => Screening(Errored(url, e), sampled)
    case Success(listing) =>
      match WavPath(dir, listing)
      case Failure(e) => Screening(Errored(url, e), sampled)
      case Success(wav) => AuddStage(url, cfg, wav, io, sampled)
  }

  predicate Calls(s: Screening, p: Call -> bool) {
    exists k :: 0 <= k < |s.calls| && p(s.calls[k])
  }

  /** The audio reached the providers: sampling worked and produced a wav. */
  predicate Sampled(dir: string, io: Io) {
    io.sample.Success? && WavPath(dir, io.sample.value).Success?
  }

  function Wav(dir: string, io: Io): string
    requires Sampled(dir, io)
  {
    WavPath(dir, io.sample.value).value
  }

  /** A confident AudD BLOCK ends the cascade: the outcome names AudD as the
      source, and neither fpcalc, AcoustID nor MusicBrainz is called. */
  lemma AuddShortCircuit(url: string, cfg: Config, dir: string, io: Io)
    requires cfg.audToken != "" && Sampled(dir, io)
    requires io.audd.Success? && AuddBlocks(io.audd.value)
    ensures var s := Cascade(url, cfg, dir, io);
      && s.outcome == Outcome(url, Block, None, Some("AudD"), None, None)
      && s.calls == [Sample(url, SectionArg(cfg.duration)), AudD(Wav(dir, io))]
  {
  }

  /** An AudD answer that is null, not a success, without a result or not a
      BLOCK falls through: the outcome is the one the cascade gives without
      an AudD token. */
  lemma AuddFallsThrough(url: string, cfg: Config, dir: string, io: Io)
    requires cfg.audToken != "" && Sampled(dir, io)
    requires io.audd.Success? && !AuddBlocks(io.audd.value)
    ensures Cascade(url, cfg, dir, io).outcome == Cascade(url, cfg.(audToken := ""), dir, io).outcome
    ensures Cascade(url, cfg, dir, io).calls[1] == AudD(Wav(dir, io))
  {
    var wav := Wav(dir, io);
    var sampled := [Sample(url, SectionArg(cfg.duration))];
    var asked := sampled + [AudD(wav)];
    assert Cascade(url, cfg, dir, io) == FingerprintStage(url, cfg, wav, io, asked);
    assert Cascade(url, cfg.(audToken := ""), dir, io) == FingerprintStage(url, cfg.(audToken := ""), wav, io, sampled);
    FingerprintStageOutcome(url, cfg, wav, io, asked, sampled);
    assert asked <= Cascade(url, cfg, dir, io).calls && asked[1] == AudD(wav);
  }

  /** The outcome of the fingerprint stage does not depend on the calls made before it. */
  lemma FingerprintStageOutcome(url: string, cfg: Config, wav: string, io: Io, calls1: seq<Call>, calls2: seq<Call>)
    ensures FingerprintStage(url, cfg, wav, io, calls1).outcome == FingerprintStage(url, cfg, wav, io, calls2).outcome
    ensures FingerprintStage(url, cfg, wav, io, calls1).outcome == FingerprintStage(url, cfg.(audToken := ""), wav, io, calls2).outcome
  {
  }

  /** The audio reached the fingerprint stage: no AudD token, or an AudD
      answer that does not block. */
  predicate PassesAudd(cfg: Config, io: Io) {
    cfg.audToken == "" || (io.audd.Success? && !AuddBlocks(io.audd.value))
  }

  /** The calls made before the fingerprint stage: the sampler, and AudD
      when a token is configured. */
  function BeforeFingerprint(url: string, cfg: Config, dir: string, io: Io): seq<Call>
    requires Sampled(dir, io)
  {
    [Sample(url, SectionArg(cfg.duration))] + (if cfg.audToken != "" then [AudD(Wav(dir, io))] else [])
  }

  lemma ReachesFingerprint(url: string, cfg: Config, dir: string, io: Io)
    requires Sampled(dir, io) && PassesAudd(cfg, io)
    ensures Cascade(url, cfg, dir, io) == FingerprintStage(url, cfg, Wav(dir, io), io, BeforeFingerprint(url, cfg, dir, io))
  {
    var wav, sampled := Wav(dir, io), [Sample(url, SectionArg(cfg.duration))];
    assert Cascade(url, cfg, dir, io) == AuddStage(url, cfg, wav, io, sampled);
    if cfg.audToken == "" {
      assert BeforeFingerprint(url, cfg, dir, io) == sampled;
    } else {
      assert BeforeFingerprint(url, cfg, dir, io) == sampled + [AudD(wav)];
    }
  }

  /** Below the gate (no top result, score under 0.65 or no recordings) the
      outcome is UNKNOWN with the score, and MusicBrainz is not called. */
  lemma GateStopsBeforeMusicBrainz(url: string, cfg: Config, dir: string, io: Io)
    requires Sampled(dir, io) && PassesAudd(cfg, io) && cfg.acoustidKey != ""
    requires io.fpcalc.Success? && io.acoustid.Success?
    requires !PassesGate(TopResult(io.acoustid.value))
    ensures var s := Cascade(url, cfg, dir, io);
      && s.outcome == Outcome(url, Unknown, Some(ScoreOf(TopResult(io.acoustid.value))), None, None, None)
      && s.calls == BeforeFingerprint(url, cfg, dir, io)
                    + [Fpcalc(Wav(dir, io)), AcoustId(io.fpcalc.value.fingerprint, io.fpcalc.value.duration, cfg.acoustidKey)]
      && !Calls(s, (c: Call) => c.MusicBrainz?)
  {
    ReachesFingerprint(url, cfg, dir, io);
    var s := Cascade(url, cfg, dir, io);
    forall k | 0 <= k < |s.calls| ensures !s.calls[k].MusicBrainz? {
    }
  }

  /** The threshold test is a strict `<`: a score of exactly 0.65 passes,
      a missing score counts as 0 and fails. */
  lemma GateBoundary(recs: seq<Recording>)
    requires |recs| > 0
    ensures PassesGate(Some(AcoustIdResult(Some(0.65), Some(recs))))
    ensures !PassesGate(Some(AcoustIdResult(Some(0.6499), Some(recs))))
    ensures !PassesGate(Some(AcoustIdResult(None, Some(recs))))
    ensures !PassesGate(Some(AcoustIdResult(Some(0.66), Some([]))))
  {
  }

  /** Past the gate the decision is MusicBrainz's for the first recording,
      returned with the score and that recording's id, and MusicBrainz is
      asked about exactly that recording, last. */
  lemma PastGateAsksMusicBrainz(url: string, cfg: Config, dir: string, io: Io)
    requires Sampled(dir, io) && PassesAudd(cfg, io) && cfg.acoustidKey != ""
    requires io.fpcalc.Success? && io.acoustid.Success? && io.mb.Success?
    requires PassesGate(TopResult(io.acoustid.value))
    ensures var top := TopResult(io.acoustid.value).value;
      var s := Cascade(url, cfg, dir, io);
      && s.outcome == Outcome(url, DecisionFromMB(io.mb.value), top.score, None, Some(top.recordings.value[0].id), None)
      && s.calls == BeforeFingerprint(url, cfg, dir, io)
                    + [Fpcalc(Wav(dir, io)), AcoustId(io.fpcalc.value.fingerprint, io.fpcalc.value.duration, cfg.acoustidKey),
                       MusicBrainz(top.recordings.value[0].id)]
  {
    ReachesFingerprint(url, cfg, dir, io);
  }

  /** A failing AudD lookup is an errored UNKNOWN, and nothing is called after it. */
  lemma AuddFailureIsUnknown(url: string, cfg: Config, dir: string, io: Io)
    requires Sampled(dir, io) && cfg.audToken != "" && io.audd.Failure?
    ensures Cascade(url, cfg, dir, io)
         == Screening(Errored(url, io.audd.error), [Sample(url, SectionArg(cfg.duration)), AudD(Wav(dir, io))])
  {
  }

  /** A failing `fpcalc` is an errored UNKNOWN, and nothing is called after it. */
  lemma FpcalcFailureIsUnknown(url: string, cfg: Config, dir: string, io: Io)
    requires Sampled(dir, io) && PassesAudd(cfg, io) && cfg.acoustidKey != "" && io.fpcalc.Failure?
    ensures Cascade(url, cfg, dir, io)
         == Screening(Errored(url, io.fpcalc.error), BeforeFingerprint(url, cfg, dir, io) + [Fpcalc(Wav(dir, io))])
  {
    ReachesFingerprint(url, cfg, dir, io);
  }

  /** A failing AcoustID lookup is an errored UNKNOWN, and MusicBrainz is not called. */
  lemma AcoustIdFailureIsUnknown(url: string, cfg: Config, dir: string, io: Io)
    requires Sampled(dir, io) && PassesAudd(cfg, io) && cfg.acoustidKey != ""
    requires io.fpcalc.Success? && io.acoustid.Failure?
    ensures Cascade(url, cfg, dir, io)
         == Screening(Errored(url, io.acoustid.error), BeforeFingerprint(url, cfg, dir, io)
              + [Fpcalc(Wav(dir, io)), AcoustId(io.fpcalc.value.fingerprint, io.fpcalc.value.duration, cfg.acoustidKey)])
  {
    ReachesFingerprint(url, cfg, dir, io);
  }

  /** A failing MusicBrainz lookup past the gate is an errored UNKNOWN: the
      score and recording found are not reported. */
  lemma MusicBrainzFailureIsUnknown(url: string, cfg: Config, dir: string, io: Io)
    requires Sampled(dir, io) && PassesAudd(cfg, io) && cfg.acoustidKey != ""
    requires io.fpcalc.Success? && io.acoustid.Success? && io.mb.Failure?
    requires PassesGate(TopResult(io.acoustid.value))
    ensures var s := Cascade(url, cfg, dir, io);
      && s.outcome == Errored(url, io.mb.error)
      && s.calls[|s.calls| - 1] == MusicBrainz(TopResult(io.acoustid.value).value.recordings.value[0].id)
  {
    ReachesFingerprint(url, cfg, dir, io);
  }

  /** With neither credential the outcome is a plain UNKNOWN and no
      provider is asked; only the sampler runs. */
  lemma NoCredentialsNoProvider(url: string, cfg: Config, dir: string, io: Io)
    requires cfg.audToken == "" && cfg.acoustidKey == ""
    ensures var s := Cascade(url, cfg, dir, io);
      && s.calls == [Sample(url, SectionArg(cfg.duration))]
      && s.outcome.decision == Unknown
      && (Sampled(dir, io) ==> s.outcome == Plain(url, Unknown))
  {
  }

  /** A sampler that fails, or leaves no `.wav`, ends the cascade with an
      errored UNKNOWN before any provider is asked. */
  lemma SamplingFailureIsUnknown(url: string, cfg: Config, dir: string, io: Io)
    requires !Sampled(dir, io)
    ensures var s := Cascade(url, cfg, dir, io);
      && s.outcome.decision == Unknown && s.outcome.error.Some?
      && s.calls == [Sample(url, SectionArg(cfg.duration))]
      && (io.sample.Failure? ==> s.outcome == Errored(url, io.sample.error))
      && (io.sample.Success? ==> s.outcome == Errored(url, NoWav))
  {
  }

  /** `tmpdir()`'s name for a clock reading below the system temp root. */
  function TempDirName(root: string, now: nat): (r: string)
    ensures |r| > |root| + 1 && r[..|root| + 1] == root + "/"
  {
    root + "/ytwall_screener_" + NatToString(now)
  }

  /** Different clock readings name different directories, so a set of
      readings stands for the set of directories. */
  lemma TempDirNameInjective(root: string, a: nat, b: nat)
    requires TempDirName(root, a) == TempDirName(root, b)
    ensures a == b
  {
    var p := |root + "/ytwall_screener_"|;
    assert TempDirName(root, a)[p..] == NatToString(a);
    assert TempDirName(root, b)[p..] == NatToString(b);
    ParseNatToString(a);
    ParseNatToString(b);
  }

  /** The clock readings of the temp directories that exist after one
      screening: a failed mkdir makes none, a successful one is removed again
      unless the removal fails. */
  function AfterScreening(stamps: set<nat>, io: Io): set<nat> {
    if io.mkdirError.Some? then stamps
    else if io.rmError.None? then stamps - {io.now}
    else stamps + {io.now}
  }

  /** The temporary directories below the system temp root, and the
      `screenUrl` entry point that creates one and removes it again. The
      directories that exist are `TempDirName(root, t)` for `t` in `stamps`. */
  class TempRoot {
    const root: string
    var stamps: set<nat>

    constructor (root: string)
      ensures this.root == root && stamps == {}
    {
      this.root := root;
      stamps := {};
    }

    /** `screenUrl`. `tmpdir()` runs before the `try`, so its failure is not
        caught: the result is then a Failure (a rejected promise). Otherwise
        the outcome is the cascade's, and the directory is removed on every
        exit path; a failed removal is ignored and leaves it behind. */
    method ScreenUrl(url: string, cfg: Config, io: Io) returns (r: Result<Outcome, string>)
      modifies this
      ensures io.mkdirError.Some? ==> r == Failure(io.mkdirError.value) && stamps == old(stamps)
      ensures io.mkdirError.None? ==> r == Success(Cascade(url, cfg, TempDirName(root, io.now), io).outcome)
      ensures io.mkdirError.None? && io.rmError.None? ==> stamps == old(stamps) - {io.now}
      ensures io.mkdirError.None? && io.rmError.Some? ==> stamps == old(stamps) + {io.now}
      ensures stamps == AfterScreening(old(stamps), io)
    {
      var dir := TempDirName(root, io.now);
      if io.mkdirError.Some? {
        return Failure(io.mkdirError.value);
      }
      stamps := stamps + {io.now};
      var s := Cascade(url, cfg, dir, io);
      if io.rmError.None? {
        stamps := stamps - {io.now};
      }
      r := Success(s.outcome);
    }
  }
}
