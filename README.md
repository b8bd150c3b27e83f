# ytwall screener, overlay and server — a Dafny model

The repository drives a YouTube "wallpaper": mpv plays a playlist behind
the desktop, a small Node server shows the current track in a browser
overlay, and a screener script filters playlists so that tracks which
fingerprint as official commercial releases are left out.

This project models the core of that system and proves its properties:

- **Copyright classifiers** (`copyright.dfy`): `decisionFromMB` and
  `decisionFromAudD` turn a MusicBrainz recording or an AudD match into BLOCK
  or UNKNOWN.
- **Per-URL cascade** (`screen_url.dfy`): `screenUrl` samples the audio.
  It asks AudD first, which may short-circuit to BLOCK. It then fingerprints
  the sample and asks AcoustID, gated by a 0.65 score. Last, it asks
  MusicBrainz. The temporary directory's lifecycle is a `TempRoot` object
  whose set of live directory stamps the method updates.
- **Screener run** (`screener.dfy`): the start-up checks and defaults; the
  worker loop that shifts URLs off a queue and pushes them onto `allowed` or
  `blocked` (a `Run` object with those fields and the `idx`/`active`
  counters); the worker count; and the two output files.
- **Playlist helpers** (`yt_helpers.dfy`): `readM3U`, the URL mapping of
  `listYtVideos`, the `--download-sections` argument and the `.wav` choice of
  `sampleAudio`.
- **Argument parser** (`arg_parse.dfy`): `parseArgs` of `src/utils/misc.ts`.
  `screener.mjs` and `src/server.ts` carry the same fold inline, so it is
  modelled once.
- **Playlist dedupe** (`dedupe.dfy`): `scripts/dedupe-playlist.mjs`, with its
  `observed` Set and its write loop modelled imperatively.
- **Overlay** (`overlay.dfy`): HTML escaping, the size rule and the marquee
  decision of `public/overlay.js`.
- **Server** (`server.dfy`): the command line and defaults of
  `src/server.ts`, its MIME table, `prettyTitle`, and the title/metadata
  updates. Also the newline-delimited JSON framer that reads mpv's IPC
  socket, modelled as an `MpvLink` object whose `OnData` loop slices lines
  off its buffer.
- **Shared pieces**: `js_text.dfy` models the JavaScript string operations
  the code relies on: `startsWith`/`endsWith`, `trim` over the ECMAScript
  white space, `split` on one character, `join`, ASCII `toLowerCase`,
  `String(n)`, `padStart` and number values with NaN. `wrappers.dfy` holds
  `Option` and `Result`. `seqs.dfy` holds the subsequence and no-duplicates
  predicates.

`screener.mjs` is a single-file copy of `scripts/screener.ts` together with
the helpers it imports. The two agree on everything modelled here, so each
piece is modelled once. The table below cites whichever copy states the
piece.

Outside effects are inputs:

- The sampler, `fpcalc`, AudD, AcoustID, MusicBrainz, `mkdirSync`, `rmSync`
  and `Date.now()` for one screening form an `Io` value. Every answer is
  either a value or the message of the exception it throws.
- `Number(string)` and `JSON.parse` of one mpv line are function parameters.
- `path.extname` is the input of the MIME lookup.

## Model

| member | source | states |
|---|---|---|
| JsText.LowerAscii | src/utils/copyright.ts:25 | `toLowerCase` keeps the length and lower-cases each ASCII letter, position by position |
| JsText.TrimStart | src/utils/yt-helpers.ts:21 | the leading part `trim` removes is all white space, and what is left is a suffix that does not start with white space |
| JsText.TrimEnd | src/utils/yt-helpers.ts:21 | the trailing part `trim` removes is all white space, and what is left is a prefix that does not end with white space |
| JsText.Trim | src/utils/yt-helpers.ts:21 | `trim` returns the slice of the line between a white-space prefix and a white-space suffix, and that slice has no white space at either end |
| JsText.TrimOfTrimmed | src/utils/yt-helpers.ts:21 | trimming a line that is already trimmed changes nothing |
| JsText.Split | scripts/dedupe-playlist.mjs:15 | `split("\n")` gives at least one piece, and no piece contains the separator |
| JsText.JoinSplit | scripts/dedupe-playlist.mjs:15 | joining the pieces with the separator restores the text |
| JsText.SplitJoin | scripts/screener.ts:61-62 | splitting pieces joined by a separator none of them contains gives the pieces back |
| JsText.SplitNoSeparator | scripts/dedupe-playlist.mjs:15 | text without the separator splits into itself alone |
| JsText.SplitAfterPiece | scripts/dedupe-playlist.mjs:15 | a piece followed by the separator is split off the front |
| JsText.NatToString | src/utils/yt-helpers.ts:40 | `String(n)` of a natural number is all digits, one digit exactly below 10, and has no leading zero |
| JsText.ParseNatToString | src/utils/yt-helpers.ts:40 | the digits of `String(n)` read back as n |
| JsText.ParseNatLeadingZero | src/utils/yt-helpers.ts:40 | a leading `0` from `padStart` does not change the value read |
| JsText.PadStart | src/utils/yt-helpers.ts:40 | `padStart(width, fill)` reaches the width, ends with the text and fills only the front |
| Dedupe.TerminatedIsJoin | scripts/dedupe-playlist.mjs:30-32 | writing each line followed by "\n" is joining the lines and one empty piece with "\n" |
| Dedupe.NoNewlineInDedup | scripts/dedupe-playlist.mjs:15-21 | the unique lines of a split contain no "\n" |
| Server.Or | src/server.ts:85-87 | `a \|\| b` on strings is one of the two, and empty exactly when both are |
| Server.IndexOf | src/server.ts:121 | `indexOf("\n")` is -1 or a position holding "\n" |
| Server.IndexOfMissing | src/server.ts:121 | the result is -1 exactly when there is no "\n" |
| Server.IndexOfIsFirst | src/server.ts:121 | the position found is the first "\n" |
| Server.IndexOfExtend | src/server.ts:119-121 | appending data after a found "\n" does not move it |
| Copyright.SomeOfficial | src/utils/copyright.ts:25 | `releases.some(...)` holds exactly when some release's status, lower-cased, is "official" |
| Copyright.DecisionFromMB | src/utils/copyright.ts:23-27 | BLOCK exactly when the recording has a non-empty ISRC array or an official release; otherwise UNKNOWN (the only two values) |
| Copyright.IsrcFields | src/utils/copyright.ts:32 | the three places an ISRC may sit: top level, `apple_music.isrc`, `spotify.external_ids.isrc` |
| Copyright.DecisionFromAudD | src/utils/copyright.ts:29-34 | BLOCK exactly when there is a result and one of its three ISRC fields is present and non-empty |
| Copyright.OfficialIgnoresCase | src/utils/copyright.ts:25 | a status is official exactly when it equals "official" letter by letter, ignoring ASCII case |
| Copyright.IsrcBlocks | src/utils/copyright.ts:24-26 | a non-empty ISRC array blocks, whatever the releases are |
| Copyright.OfficialReleaseBlocks | src/utils/copyright.ts:25-26 | one release whose status is "official" in any mix of cases blocks |
| Copyright.MissingStatusNotOfficial | src/utils/copyright.ts:25 | a release without a status is never official |
| Copyright.MbUnknownWithoutEvidence | src/utils/copyright.ts:24-26 | a null response, or one without ISRC and release arrays, is UNKNOWN |
| Copyright.MbExamples | src/utils/copyright.ts:23-27 | concrete recordings: an ISRC blocks; "Bootleg" and a missing status do not; "Official" does |
| Copyright.AuddUnknownWithoutResult | src/utils/copyright.ts:30-31 | a null response or a missing `result` is UNKNOWN |
| Copyright.AuddEachIsrcFieldBlocks | src/utils/copyright.ts:32-33 | each ISRC field alone blocks; empty strings and missing objects do not |
| YtHelpers.SplitLines | src/utils/yt-helpers.ts:21 | `split(/\r?\n/)` gives as many pieces as splitting on "\n" |
| YtHelpers.TrimAll | src/utils/yt-helpers.ts:21 | the trim map keeps the number of lines and trims each line in place |
| YtHelpers.KeepEntries | src/utils/yt-helpers.ts:21 | every kept line is trimmed, non-empty and not a `#` comment |
| YtHelpers.KeepEntriesOrder | src/utils/yt-helpers.ts:21 | the kept lines are a subsequence of the trimmed lines, in order |
| YtHelpers.KeepEntriesComplete | src/utils/yt-helpers.ts:21 | every line whose trimmed form is an entry is kept |
| YtHelpers.KeepEntriesCount | src/utils/yt-helpers.ts:21 | the filter keeps exactly as many lines as there are lines whose trimmed form is an entry: none is lost and none doubled |
| YtHelpers.ReadM3U | src/utils/yt-helpers.ts:19-22 | `readM3U` of a file's text returns only trimmed entries, in the order of the trimmed lines, one for each line that is an entry once trimmed |
| YtHelpers.KeepEntriesOfClean | src/utils/yt-helpers.ts:21 | lines that are already clean entries pass unchanged |
| YtHelpers.VideoUrl | src/utils/yt-helpers.ts:16 | an http URL is kept as is; otherwise the watch URL of a non-empty id, else of the url, else of the text "undefined" |
| YtHelpers.DropEmpty | src/utils/yt-helpers.ts:17 | `filter(Boolean)` leaves no empty string and leaves non-empty lists unchanged |
| YtHelpers.ListYtVideos | src/utils/yt-helpers.ts:12-18 | an absent `entries` gives no URL; otherwise exactly one URL per entry, in order, each the `VideoUrl` of its entry (the `filter(Boolean)` removes nothing) |
| YtHelpers.SectionArgRoundTrip | src/utils/yt-helpers.ts:40 | the section argument is `*0-00:` followed by the seconds padded to two digits, which read back as the seconds |
| YtHelpers.SectionArgDefault | src/utils/yt-helpers.ts:32-40 | the default of 25 seconds gives `*0-00:25` |
| YtHelpers.SectionArg | src/utils/yt-helpers.ts:40 | the `--download-sections` value starts with `*0-00:` and has at least two digits after it |
| YtHelpers.FirstWav | src/utils/yt-helpers.ts:43 | none exactly when no name ends in `.wav`; otherwise the first listed name that does |
| YtHelpers.WavPath | src/utils/yt-helpers.ts:43-45 | fails with "no wav produced" exactly when there is no `.wav`; otherwise the path of the first listed `.wav` inside the directory |
| ScreenUrl.AuddStage | src/utils/screenUrl.ts:19-29 | the only outcome naming a source is the AudD BLOCK; a BLOCK never carries an error; an error always comes with UNKNOWN; the calls made before stay a prefix of the call log |
| ScreenUrl.FingerprintStage | src/utils/screenUrl.ts:30-53 | without an AcoustID key the outcome is a plain UNKNOWN and nothing is called; no source is named; a BLOCK never carries an error; an error always comes with UNKNOWN; earlier calls stay a prefix |
| ScreenUrl.Cascade | src/utils/screenUrl.ts:17-59 | the outcome is for the URL; the first call samples it with the section argument; a source is only ever "AudD" with BLOCK; any error makes the decision UNKNOWN |
| ScreenUrl.AuddShortCircuit | src/utils/screenUrl.ts:19-28 | an AudD BLOCK ends the screening: source AudD, and no fpcalc, AcoustID or MusicBrainz call |
| ScreenUrl.AuddFallsThrough | src/utils/screenUrl.ts:19-30 | an AudD answer that does not block gives the outcome of the screening without AudD |
| ScreenUrl.FingerprintStageOutcome | src/utils/screenUrl.ts:30-49 | the AcoustID stage's outcome does not depend on the calls made before it or on the AudD token |
| ScreenUrl.ReachesFingerprint | src/utils/screenUrl.ts:18-30 | when the sample succeeds and AudD does not block, the cascade is the AcoustID stage after the sampler call and, if a token is set, the AudD call |
| ScreenUrl.GateStopsBeforeMusicBrainz | src/utils/screenUrl.ts:30-39 | when AudD does not block (or is not asked), below the gate the outcome is UNKNOWN with the score; the calls are the sampler, AudD if asked, fpcalc and AcoustID, and MusicBrainz is not called |
| ScreenUrl.GateBoundary | src/utils/screenUrl.ts:34-35 | a score of exactly 0.65 passes; 0.6499, a missing score or no recordings fail |
| ScreenUrl.PastGateAsksMusicBrainz | src/utils/screenUrl.ts:40-48 | when AudD does not block (or is not asked), past the gate MusicBrainz is asked about the first recording as the last call, and its decision is returned with the score and that id |
| ScreenUrl.NoCredentialsNoProvider | src/utils/screenUrl.ts:50-53 | with neither credential only the sampler runs and the decision is UNKNOWN |
| ScreenUrl.SamplingFailureIsUnknown | src/utils/screenUrl.ts:54-59 | a sampler that throws gives UNKNOWN with its message, and a sample without a `.wav` gives UNKNOWN with "no wav produced", before any provider is called |
| ScreenUrl.AuddFailureIsUnknown | src/utils/screenUrl.ts:19-20 | an AudD lookup that throws ends the screening as UNKNOWN with its message, after the sampler and AudD calls only |
| ScreenUrl.FpcalcFailureIsUnknown | src/utils/screenUrl.ts:30-31 | an `fpcalc` that throws ends the screening as UNKNOWN with its message; AcoustID and MusicBrainz are not called |
| ScreenUrl.AcoustIdFailureIsUnknown | src/utils/screenUrl.ts:31-32 | an AcoustID lookup that throws ends the screening as UNKNOWN with its message; MusicBrainz is not called |
| ScreenUrl.MusicBrainzFailureIsUnknown | src/utils/screenUrl.ts:40-41 | a MusicBrainz lookup that throws ends the screening as UNKNOWN with its message (no score, no id), after asking about the first recording |
| ScreenUrl.TempDirNameInjective | src/utils/yt-helpers.ts:25 | different clock readings name different temp directories |
| ScreenUrl.TempDirName | src/utils/yt-helpers.ts:25 | the temp directory's name is a path directly below the temp root |
| ScreenUrl.TempRoot.ScreenUrl | src/utils/screenUrl.ts:15-68 | a failed mkdir rejects and leaves no directory; otherwise the outcome is the cascade's in the new directory, which is removed unless the removal fails (the stamps become `AfterScreening` of the old ones) |
| ScreenUrl.TempRoot.constructor | src/utils/yt-helpers.ts:24-30 | no temp directory exists at first |
| ArgParse.ValueAfter | src/utils/misc.ts:53-54 | a value is the next token when it is non-empty and not a `--` token; otherwise the flag is `true` |
| ArgParse.PrefixKeys | src/utils/misc.ts:48-58 | after n tokens a key is present exactly when some `--key` token occurred among them |
| ArgParse.PrefixLastValue | src/utils/misc.ts:48-58 | after n tokens a present key holds the value after its last `--key` token |
| ArgParse.ParseArgsKeys | src/utils/misc.ts:47-61 | a key is in the result exactly when some user token is `--key` |
| ArgParse.ParseArgsLastWins | src/utils/misc.ts:47-61 | for a repeated key the last occurrence's value wins |
| ArgParse.ParseArgsIgnoresProgram | screener.mjs:28 | the first two argv elements are ignored |
| ArgParse.ParseArgs | src/utils/misc.ts:47-61 | every key of the result comes from a `--key` token after the first two argv elements |
| ArgParse.NumberArg | scripts/screener.ts:27-28 | `Number(args[key] or fallback)`: the fallback when absent, 1 for a bare flag, the number of the text otherwise |
| Screener.PartitionStep | scripts/screener.ts:51-52 | one screened URL is appended to exactly one of the two lists, by its decision |
| Screener.AllowedOf | scripts/screener.ts:52 | the URLs pushed onto `allowed` in order: never more than there are URLs |
| Screener.BlockedOf | scripts/screener.ts:51 | the URLs pushed onto `blocked` in order: never more than there are URLs |
| Screener.PartitionIsPermutation | scripts/screener.ts:44-55 | the allowed and blocked lists together are a permutation of the URLs |
| Screener.PartitionSizes | scripts/screener.ts:44-55 | the two lists' lengths add up to the number of URLs |
| Screener.PartitionKeepsOrder | scripts/screener.ts:44-55 | each list keeps the input order (single worker) |
| Screener.BlockedMembers | scripts/screener.ts:51 | a URL is blocked exactly when it occurs with a BLOCK decision |
| Screener.AllowedMembers | scripts/screener.ts:52 | a URL is allowed exactly when it occurs with a decision other than BLOCK |
| Screener.BlockExactlyWhenDecidedBlock | scripts/screener.ts:51-52 | for distinct URLs each one lands in exactly one list, blocked iff its decision is BLOCK |
| Screener.FileTextReadsBack | scripts/screener.ts:61-62 | a written list of clean entries reads back through `readM3U` as the same list |
| Screener.FileText | scripts/screener.ts:61-62 | the text written to an output file always ends in "\n" |
| Screener.Startup | scripts/screener.ts:15-33 | fails with the key message iff neither credential is set; with a credential, fails with the usage message iff neither source is given; otherwise the defaults "allowed.m3u", 25 and 3 |
| Screener.StartupDefaults | scripts/screener.ts:24-28 | `--m3u file` alone gives the M3U source, "allowed.m3u", 25 seconds and concurrency 3 |
| Screener.NaNConcurrencyStartsNoWorker | scripts/screener.ts:56-58 | as written, a concurrency that is not a number yields zero workers |
| Screener.WorkerCountAsWritten | scripts/screener.ts:56-58 | as written, the count is zero exactly when the concurrency is not a number; otherwise at most one per URL, or one |
| Screener.WorkerCount | scripts/screener.ts:56-58 | at least one worker and at most one per URL, the floor of the concurrency between, and the source's count for every numeric concurrency |
| Screener.Run.constructor | scripts/screener.ts:39-43 | the queue is a copy of the URLs, both lists are empty and both counters are zero |
| Screener.Run.Screen | scripts/screener.ts:50 | a screening fails only when its mkdir fails, and otherwise yields that URL's decision; the live temp directories change as one screening of that URL changes them |
| Screener.Run.Take | scripts/screener.ts:46-53 | one loop turn dequeues the next URL and increments `idx`; it pushes the URL by its decision and restores `active`, or leaves `active` raised when the screening rejects; the temp directories change as that screening changes them |
| Screener.Run.Worker | scripts/screener.ts:44-55 | a worker drains the queue and partitions every URL by its decision, or stops at the first rejected screening; the temp directories are those left by the screenings it ran, in turn |
| Screener.Run.RunWorkers | scripts/screener.ts:56-62 | with a worker, the two files hold the allowed and the blocked URLs; with none, both are empty; it fails exactly when there is a worker and some mkdir fails, naming the first failing URL's error; every temp directory left is one whose removal failed |
| Screener.Run.RunAsWritten | scripts/screener.ts:56-62 | as written, a concurrency that is not a number writes both files empty; otherwise it fails exactly when some mkdir fails; every temp directory left is one whose removal failed |
| Screener.Run.RunAll | scripts/screener.ts:36-62 | with the intended worker count, every URL is screened and partitioned, and the run fails exactly when some mkdir fails; every temp directory left is one whose removal failed |
| Screener.StampsAfterBound | src/utils/screenUrl.ts:60-67 | after a sequence of screenings, every temp directory was there before or belongs to a screening whose removal failed |
| Screener.NoLeftoverWhenRemovalsSucceed | src/utils/screenUrl.ts:60-67 | when no removal fails, the screenings leave no temp directory behind |
| Dedupe.DedupStep | scripts/dedupe-playlist.mjs:17-20 | a line already observed is skipped; a new one is appended |
| Dedupe.Dedup | scripts/dedupe-playlist.mjs:16-21 | the kept lines are input lines, never more of them than there are input lines |
| Dedupe.DedupSameLines | scripts/dedupe-playlist.mjs:16-21 | the output holds exactly the lines of the input |
| Dedupe.DedupNoDup | scripts/dedupe-playlist.mjs:16-21 | no line occurs twice in the output |
| Dedupe.DedupFirstOccurrenceOrder | scripts/dedupe-playlist.mjs:16-21 | output lines come in the order of their first occurrence in the input |
| Dedupe.DedupOfDistinct | scripts/dedupe-playlist.mjs:16-21 | distinct lines pass unchanged |
| Dedupe.DedupIdempotent | scripts/dedupe-playlist.mjs:13-22 | deduplicating the result again changes nothing |
| Dedupe.UniqueLines | scripts/dedupe-playlist.mjs:13-22 | the Set loop returns the deduplicated lines of the text split on "\n" |
| Dedupe.OutFile.constructor | scripts/dedupe-playlist.mjs:29 | a file opened with "w" starts empty |
| Dedupe.OutFile.Write | scripts/dedupe-playlist.mjs:31 | a write appends its data |
| Dedupe.WriteLines | scripts/dedupe-playlist.mjs:29-32 | the loop appends every line followed by "\n", in order |
| Dedupe.SplitTerminated | scripts/dedupe-playlist.mjs:30-32 | the written file splits back into the lines plus one empty piece |
| Dedupe.TrailingNewlineAddsBlankLine | scripts/dedupe-playlist.mjs:15-32 | "a" is written as "a\n", and "a\n" as "a\n\n": a file ending in a newline gains a blank line |
| Dedupe.DedupeFileStabilises | scripts/dedupe-playlist.mjs:13-32 | running the script on its output a third time changes nothing |
| Dedupe.DedupeFile | scripts/dedupe-playlist.mjs:13-32 | the written file, split on "\n", is the first occurrences of the input's lines followed by one empty piece |
| Overlay.EscapeChar | public/overlay.js:30 | characters other than `&<>"` map to themselves |
| Overlay.ReplaceEachAppend | public/overlay.js:30 | a per-character replace distributes over concatenation |
| Overlay.EscapedHasNoMarkup | public/overlay.js:30 | escaped text has no `<`, `>` or `"` and is never shorter |
| Overlay.EscapeHtml | public/overlay.js:30 | the result contains no `<`, `>` or `"` and is at least as long as the input |
| Overlay.EscapeHtmlPlain | public/overlay.js:30 | text without the four special characters is returned unchanged |
| Overlay.EscapeHtmlAppend | public/overlay.js:30 | `escapeHTML(a+b) == escapeHTML(a)+escapeHTML(b)` |
| Overlay.UnescapeEscapeChar | public/overlay.js:30 | each replacement decodes back to its character |
| Overlay.UnescapeEscapeHtml | public/overlay.js:30 | decoding the four entities restores the original text |
| Overlay.PillMarkup | public/overlay.js:16 | the pill holds one span whose content has no `<` and decodes to the title |
| Overlay.SizeValue | public/overlay.js:9 | a value ending in "px" is kept; otherwise "px" is appended; the result ends in "px" |
| Overlay.SizeValueIdempotent | public/overlay.js:9 | applying the size rule twice equals applying it once |
| Overlay.StyleProperties | public/overlay.js:9-11 | `--size` is set iff the size parameter is non-empty, with the px rule; `--align` and `--bottom` are set iff their parameters are non-empty, to those values; no other property is set, and there are at most three entries |
| Overlay.MarqueeMode | public/overlay.js:7 | an absent or empty parameter means "auto" |
| Overlay.NeedMarqueeCases | public/overlay.js:7-26 | "always" always scrolls; "off" never does; an absent or empty parameter scrolls exactly when the title overflows |
| Overlay.NeedMarquee | public/overlay.js:26 | the title only scrolls in the "always" and "auto" modes |
| Server.ArgOr | src/server.ts:31-39 | `args[key] or fallback` for string options |
| Server.ServerStartup | src/server.ts:17-44 | usage error iff neither playlist nor url; otherwise the given playlist and url values, and port, volume, shuffle, public dir, yt-dlp, xwinwrap and mpv paths with their defaults |
| Server.ServerDefaults | src/server.ts:28-31 | with only a playlist: port 3323, volume 50, shuffle on |
| Server.ShuffleCases | src/server.ts:30 | shuffle is off exactly when its value is the string "false" |
| Server.MimeType | src/server.ts:51-67 | the table's type for the lower-cased extension; the default exactly for unknown extensions |
| Server.MimeTypeIgnoresCase | src/server.ts:64 | the lookup ignores the extension's case |
| Server.MimeTypeExamples | src/server.ts:51-67 | ".HTML" and ".Js" find their types; ".png" and "" get the default |
| Server.PrettyTitle | src/server.ts:83-90 | "artist — title" when both are known; else the media title, else the metadata title, else "…"; never empty |
| Server.SetMediaTitle | src/server.ts:143-144 | the title becomes the data or ""; artist and metadata unchanged |
| Server.SetMetadata | src/server.ts:147-149 | the metadata becomes the data or {}; the artist comes from `artist`, else `ARTIST`, else "" |
| Server.ArtistIsStored | src/server.ts:87 | once the artist agrees with the metadata, prettyTitle's metadata fallbacks for the artist add nothing |
| Server.MetadataTitleWins | src/server.ts:147-150 | after metadata with artist and title, the broadcast title is "artist — title" |
| Server.RestHasNoNewline | src/server.ts:119-122 | after framing, the buffer holds no "\n" |
| Server.LinesHaveNoNewline | src/server.ts:121-122 | no framed line contains "\n" |
| Server.LinesAndRestRebuild | src/server.ts:119-122 | the framed lines, each with its "\n", followed by the kept tail, are the buffer again |
| Server.LinesOfChunks | src/server.ts:118-122 | framing two chunks in turn yields the lines and tail of their concatenation |
| Server.Lines | src/server.ts:119-122 | the complete lines of a buffer are never more than its characters |
| Server.Rest | src/server.ts:119-122 | the kept tail is never longer than the buffer |
| Server.Step | src/server.ts:127-151 | a message appends at most one broadcast and one command; a title or metadata change updates `current` by its setter and broadcasts its pretty title, and nothing else broadcasts; only an `end-file` with reason "error" sends `playlist-next force` |
| Server.Handle | src/server.ts:123-124 | one line appends at most one broadcast, and either no command or `playlist-next force` |
| Server.Consume | src/server.ts:121-153 | handling lines only appends to the broadcasts and the commands sent |
| Server.ConsumeAppend | src/server.ts:121-153 | handling two runs of lines in turn is handling them together |
| Server.SkippedLinesChangeNothing | src/server.ts:123-124 | blank lines and lines that do not parse change nothing |
| Server.ConsumeKeepsArtist | src/server.ts:142-151 | the stored artist agrees with the metadata after every line |
| Server.ChunkingIrrelevant | src/server.ts:118-154 | for chunks already decoded to text, two data events have the effect of one event with their concatenation |
| Server.MpvLink.constructor | src/server.ts:48 | empty buffer, empty title, artist and metadata, nothing sent |
| Server.MpvLink.Apply | src/server.ts:127-151 | the connection's state after one message is the specification's step |
| Server.MpvLink.HandleLine | src/server.ts:123-151 | one complete line changes the state as the specification's line handler does, and leaves the buffer alone |
| Server.MpvLink.OnData | src/server.ts:118-154 | the buffer keeps exactly the unterminated tail, and the state is that of handling every complete line in order |

## Left out

- I/O is not modelled: process spawning (`sh`, yt-dlp, fpcalc, mpv, xwinwrap), HTTP calls, file reads and writes, `console` output and the progress line. Their results are inputs; the written file contents are the `Report` texts.
- The 1100 ms courtesy wait before MusicBrainz is timing and is not modelled. So are the watchdog timer, socket reconnects and the signal handlers.
- `src/utils/auddLookupFile.ts` is not part of this model. It uses `fs` and `path` without importing them, so with a token set it throws and the screening ends UNKNOWN with an error. The `Io.audd` answer can be such a failure.
- Screener.Run.Worker: models one worker at a time. The interleaving of several `Promise.all` workers is concurrency. With more than one worker the lists are filled in completion order, so only the membership and permutation lemmas carry over, not the order.
- ScreenUrl.TempRoot.ScreenUrl: does not model two workers reading the same `Date.now()`, whose temp directories would collide.
- Screener.Run.constructor: requires one `Io` per URL. This is an artefact of the oracle; the source has no such requirement.
- ScreenUrl.Config: the sample length is a natural number. A fractional or negative `--seconds` would be formatted by `String()` differently, and a non-numeric one (`--seconds abc`) is NaN, which `String()` and `padStart` turn into the argument `*0-00:NaN`.
- `toLowerCase` is modelled on ASCII letters only. Unicode case mapping does not change whether a status equals "official" or what the MIME keys match.
- `JSON.parse` is not modelled. Parsed values are datatypes, and one mpv line is parsed by a function parameter. Non-string `data` in mpv messages and non-string metadata values are not represented. Nor is a line holding JSON `null`: it parses, and the `j.event` read that follows throws inside the data handler, outside its `try`. Playlist entries likewise have only absent `id` and `url` values, which print as "undefined"; a JSON `null` for both would print as "null" in the watch URL.
- Server.ChunkingIrrelevant: chunks are taken as already-decoded text. src/server.ts:119 decodes each `Buffer` chunk on its own, so a UTF-8 sequence split across two chunks becomes U+FFFD there, and the equivalence holds only for chunks that end on character boundaries.
- Server: `mpvSend` is assumed to have a connected socket while data arrives, because the data handler only runs on a connected socket.
- The static-file path handling (`path.normalize`, `decodeURIComponent`, the `index.html` fallback for directories and empty paths) is library code and is not modelled. Neither are the HTTP API routes, broadcasting to WebSocket clients, nor `startWallpaper`'s mpv argument list.
- The `XDG_RUNTIME_DIR` socket path and `path.resolve` of the public directory depend on the environment and are not modelled.
- The DOM and WebSocket parts of `public/overlay.js` (class toggling, `requestAnimationFrame`, reconnecting) are not modelled.
- Dedupe: the `node:util` option parsing and the two `console.log` calls are not modelled. The input text and the output file are parameters.
- eslint.config.ts is lint configuration and is not modelled.

## Findings

| source | as written | input that shows it | evidently intended | confidence | as-written member | corrected member |
|---|---|---|---|---|---|---|
| scripts/screener.ts:56-58 | `Math.max(1, Math.min(CONCURRENCY, urls.length))` is NaN when `--concurrency` is not a number, and `Array.from` makes zero workers | `--concurrency abc` with any playlist: nothing is screened and both files are written holding only "\n" | at least one worker (the `Math.max(1, …)` guard), with the default concurrency of 3 for an unusable value | not executed | Screener.NaNConcurrencyStartsNoWorker | Screener.WorkerCount |

The same worker-count expression is in screener.mjs:222-224. `Screener.Run.RunAsWritten` runs with the count as written, and `Screener.Run.RunAll` runs with the corrected count.

Behaviour of the code worth noting:

- A score of exactly 0.65 passes the AcoustID gate, because the test is `score < 0.65`.
- A temp directory that cannot be created rejects `screenUrl`, because `tmpdir()` runs outside its `try`. The rejection ends the run.
- With several workers the lists are filled in completion order, not input order.
