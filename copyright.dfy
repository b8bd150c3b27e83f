/** The two provider classifiers of src/utils/copyright.ts (duplicated verbatim
    in screener.mjs). Each takes an already-parsed lookup response and says
    BLOCK when the response shows an ISRC (ISO 3901 International Standard
    Recording Code) or an official release, and UNKNOWN otherwise. A JSON
    field that is absent, null or (for the arrays) not an array is `None`. */
module Copyright {
  import opened Wrappers
  import opened JsText

  /** The only two values either classifier returns. */
  datatype Decision = Block | Unknown

  /** One release of a MusicBrainz recording. */
  datatype Release = Release(status: Option<string>)

  /** A MusicBrainz recording lookup (`inc=isrcs+releases`). */
  datatype MbRecording = MbRecording(isrcs: Option<seq<string>>, releases: Option<seq<Release>>)

  datatype AppleMusic = AppleMusic(isrc: Option<string>)
  datatype ExternalIds = ExternalIds(isrc: Option<string>)
  datatype Spotify = Spotify(externalIds: Option<ExternalIds>)

  /** The `result` object of an AudD response: a matched song. */
  datatype AuddMatch = AuddMatch(isrc: Option<string>, appleMusic: Option<AppleMusic>, spotify: Option<Spotify>)

  datatype AuddResponse = AuddResponse(status: Option<string>, result: Option<AuddMatch>)

  const Official: string := "official"

  /** JavaScript truthiness of an optional string field. */
  predicate Truthy(v: Option<string>) {
    v.Some? && v.value != ""
  }

  /** A release counts as official when its status, lower-cased, is
      "official"; a missing status counts as "". */
  predicate IsOfficial(r: Release) {
    LowerAscii(r.status.GetOr("")) == Official
  }

  /** `releases.some(isOfficial)`. */
  function SomeOfficial(rs: seq<Release>): (b: bool)
    ensures b <==> exists i :: 0 <= i < |rs| && IsOfficial(rs[i])
  {
    if rs == [] then false
    else IsOfficial(rs[0]) || SomeOfficial(rs[1..])
  }

  function DecisionFromMB(mb: Option<MbRecording>): (d: Decision)
    ensures d == Block <==>
      && mb.Some?
      && (|| (mb.value.isrcs.Some? && |mb.value.isrcs.value| > 0)
          || (mb.value.releases.Some?
              && exists i :: 0 <= i < |mb.value.releases.value| && IsOfficial(mb.value.releases.value[i])))
  {
    var hasIsrc := mb.Some? && mb.value.isrcs.Some? && |mb.value.isrcs.value| > 0;
    var hasOfficial := mb.Some? && mb.value.releases.Some? && SomeOfficial(mb.value.releases.value);
    if hasIsrc || hasOfficial then Block else Unknown
  }

  /** The three places an AudD match may carry an ISRC: top level, under
      `apple_music`, and under `spotify.external_ids`. */
  function IsrcFields(m: AuddMatch): (fs: seq<Option<string>>)
    ensures |fs| == 3 && fs[0] == m.isrc
  {
    [ m.isrc,
      if m.appleMusic.Some? then m.appleMusic.value.isrc else None,
      if m.spotify.Some? && m.spotify.value.externalIds.Some? then m.spotify.value.externalIds.value.isrc else None ]
  }

  function DecisionFromAudD(j: Option<AuddResponse>): (d: Decision)
    ensures d == Block <==>
      j.Some? && j.value.result.Some? && exists k :: 0 <= k < 3 && Truthy(IsrcFields(j.value.result.value)[k])
  {
    if j.None? || j.value.result.None? then Unknown
    else
      var m := j.value.result.value;
      var hasIsrc := || Truthy(m.isrc)
                     || (m.appleMusic.Some? && Truthy(m.appleMusic.value.isrc))
                     || (m.spotify.Some? && m.spotify.value.externalIds.Some? && Truthy(m.spotify.value.externalIds.value.isrc));
      var fs := IsrcFields(m);
      assert hasIsrc <==> Truthy(fs[0]) || Truthy(fs[1]) || Truthy(fs[2]);
      if hasIsrc then Block else Unknown
  }

  /** Case-insensitive match: a status is official exactly when each of its
      eight characters is the lower- or the upper-case letter of "official". */
  lemma OfficialIgnoresCase(s: string)
    ensures IsOfficial(Release(Some(s))) <==>
      |s| == 8 && forall i :: 0 <= i < 8 ==> s[i] == Official[i] || s[i] == "OFFICIAL"[i]
  {
    var low := LowerAscii(s);
    if IsOfficial(Release(Some(s))) {
      assert low == Official;
      forall i | 0 <= i < 8 ensures s[i] == Official[i] || s[i] == "OFFICIAL"[i] {
        assert LowerChar(s[i]) == Official[i];
      }
    }
    if |s| == 8 && forall i :: 0 <= i < 8 ==> s[i] == Official[i] || s[i] == "OFFICIAL"[i] {
      forall i | 0 <= i < 8 ensures low[i] == Official[i] {
        assert s[i] == Official[i] || s[i] == "OFFICIAL"[i];
      }
      assert low == Official;
    }
  }

  /** A non-empty ISRC array blocks, whatever the releases say. */
  lemma IsrcBlocks(isrcs: seq<string>, releases: Option<seq<Release>>)
    requires |isrcs| > 0
    ensures DecisionFromMB(Some(MbRecording(Some(isrcs), releases))) == Block
  {
  }

  /** One official release among the releases blocks, in any letter case. */
  lemma OfficialReleaseBlocks(isrcs: Option<seq<string>>, releases: seq<Release>, k: nat, status: string)
    requires k < |releases| && releases[k] == Release(Some(status))
    requires |status| == 8 && forall i :: 0 <= i < 8 ==> status[i] == Official[i] || status[i] == "OFFICIAL"[i]
    ensures DecisionFromMB(Some(MbRecording(isrcs, Some(releases)))) == Block
  {
    OfficialIgnoresCase(status);
  }

  /** A release without a status is never official. */
  lemma MissingStatusNotOfficial()
    ensures !IsOfficial(Release(None))
  {
    assert |LowerAscii("")| == 0;
  }

  /** Without a response, or with neither an ISRC array nor a releases array,
      the decision is UNKNOWN. */
  lemma MbUnknownWithoutEvidence(mb: Option<MbRecording>)
    requires mb.None? || (mb.value.isrcs.None? && mb.value.releases.None?)
    ensures DecisionFromMB(mb) == Unknown
  {
  }

  /** The example cases: an ISRC array ["US1234567"] blocks; an empty ISRC
      array with only non-official releases does not, while "Official" does. */
  lemma MbExamples()
    ensures DecisionFromMB(Some(MbRecording(Some(["US1234567"]), None))) == Block
    ensures DecisionFromMB(Some(MbRecording(Some([]), Some([Release(Some("Bootleg")), Release(None)])))) == Unknown
    ensures DecisionFromMB(Some(MbRecording(Some([]), Some([Release(Some("Official"))])))) == Block
  {
    var bootleg := [Release(Some("Bootleg")), Release(None)];
    assert LowerAscii("Bootleg") != Official by {
      assert |LowerAscii("Bootleg")| == 7;
    }
    MissingStatusNotOfficial();
    assert !SomeOfficial(bootleg);
    OfficialIgnoresCase("Official");
  }

  /** An AudD response without a match is UNKNOWN. */
  lemma AuddUnknownWithoutResult(j: Option<AuddResponse>)
    requires j.None? || j.value.result.None?
    ensures DecisionFromAudD(j) == Unknown
  {
  }

  /** Any one of the three ISRC fields, present and non-empty, blocks; an
      empty string is the same as a missing one. */
  lemma AuddEachIsrcFieldBlocks(status: Option<string>, isrc: string)
    requires isrc != ""
    ensures DecisionFromAudD(Some(AuddResponse(status, Some(AuddMatch(Some(isrc), None, None))))) == Block
    ensures DecisionFromAudD(Some(AuddResponse(status, Some(AuddMatch(Some(""), Some(AppleMusic(Some(isrc))), None))))) == Block
    ensures DecisionFromAudD(Some(AuddResponse(status, Some(AuddMatch(None, None, Some(Spotify(Some(ExternalIds(Some(isrc)))))))))) == Block
    ensures DecisionFromAudD(Some(AuddResponse(status, Some(AuddMatch(Some(""), Some(AppleMusic(Some(""))), Some(Spotify(None))))))) == Unknown
  {
  }
}
