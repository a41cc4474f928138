# ecstasy: a verified model of the collection downloader's core

ecstasy is a command-line tool. It downloads every beatmap set of an
osu!collector collection from a chosen download mirror into osu!'s Songs
directory. It also records the beatmaps' checksums in a named collection of
osu!'s local `collection.db`. This project models the sequential logic of
that tool in Dafny and proves what it does:

- **Collection helpers** (`collections.dfy`, with `strings.dfy` and
  `decimal.dfy`).
  - The local collection name is built from a template. The
    `{collection_author}`, `{collection_title}` and `{collection_id}`
    placeholders are replaced in that order, each by Rust's leftmost,
    non-overlapping `str::replace`.
  - The id is rendered as `i32::to_string` renders it.
  - `get_or_create_collection` is find-or-append on the collection list. It
    is a method of the `CollectionList` class, and the `&mut Collection` it
    returns is modelled as an index into the list.
- **The per-beatmap step** (`downloader.dfy`). This is the body of the
  `for_each_concurrent` closure.
  - Both locks are taken at its top and held to its end, so the steps are
    modelled as running one after another.
  - `Session.ProcessBeatmap` changes the collection buffer, the `downloaded`
    counter and the logs of the Songs-directory writes and mirror requests.
    It is proved equal to the pure `Step`.
  - `Session.ProcessAll` runs the loop over all beatmaps and is proved equal
    to `Outcomes`/`RunState`. The run stops at the step whose
    `.find(..).unwrap()` panics.
  - The step-level and run-level lemmas are stated over those functions.
- **Mirror selection** (`config.dfy`). `MirrorType`'s string deserialiser,
  `MirrorType::ALL` and `get_mirror` are modelled as a parser over a closed
  enumeration.
- **Already-downloaded check** (`osu.dfy`). `find_beatmap` is a linear scan
  with an early return, over the directory's entry names given as a
  sequence.

The action of the network, the file system and durable storage is not
modelled, only what is exchanged with them:

- What the mirror answers for each beatmap is an input (`fetched`).
- The local listing is a sequence of set ids.
- The directory entries are a sequence of names.
- Every `to_file` write is recorded as a `Snapshot` of the whole list, and
  every file write as a `File` of path and contents.

Some behaviour one might expect from such a tool is absent from the code; the
model follows the code:

- Checksums are pushed without deduplication.
- The collection created at the start of a step is not written out at once,
  because the closure passes `None` as the path.
- A failed fetch is silently ignored.
- There is no rate limiter and no shrinking of a progress target.
- The archive path is built from the set id, with no sanitising.
- The already-downloaded test consults osu!'s listing, not the Songs
  directory.
- A downloaded set is not added to the listing, so a second beatmap of the
  same set asks the mirror again.

## Model

| member | source | states |
|---|---|---|
| Strings.ReplaceAllAbsent | src/utilities/collection.rs:5-7 | replacing a pattern that does not occur returns the text unchanged |
| Strings.ReplaceAllLeftmost | src/utilities/collection.rs:5-7 | when the first occurrence of a non-empty pattern starts at `i`, the prefix before it is copied, the occurrence becomes the replacement, and the scan resumes after the occurrence (leftmost, non-overlapping) |
| Strings.ReplaceAllWhole | src/utilities/collection.rs:5-7 | a text that is exactly the pattern becomes exactly the replacement |
| Strings.ReplaceAllSelf | src/utilities/collection.rs:5-7 | replacing a pattern by itself is the identity on every text |
| Strings.ReplaceAllEmptyPattern | src/utilities/collection.rs:5-7 | with an empty pattern the result has length `|s| + (|s| + 1) * |rep|` |
| Strings.ReplaceAllEmptyPatternAt | src/utilities/collection.rs:5-7 | with an empty pattern the replacement sits at each of the `|s| + 1` character boundaries: block `k` is the replacement followed by `s[k]`, and the last block is the replacement alone |
| Decimal.NatToDecimal | src/utilities/collection.rs:7 | the rendering of a natural number is non-empty, all digits, with no leading zero unless it is "0" |
| Decimal.NatToDecimalValue | src/utilities/collection.rs:7 | the rendered digits denote the number they came from |
| Decimal.IntToDecimalMeaning | src/utilities/osu.rs:10 | `to_string` of an integer is a minus sign exactly for negatives, then the digits of the magnitude without a leading zero |
| Decimal.IntToDecimalInjective | src/main.rs:73 | different ids render to different text |
| Decimal.IntToDecimalAlphabet | src/utilities/collection.rs:7 | a rendered id holds only digits and a leading `-` |
| Strings.ReplaceAll | src/utilities/collection.rs:5-7 | `str::replace`, defined by its body; its properties are stated by `ReplaceAllAbsent`, `ReplaceAllLeftmost`, `ReplaceAllWhole`, `ReplaceAllSelf`, `ReplaceAllEmptyPattern` and `ReplaceAllEmptyPatternAt` |
| Strings.Contains | src/utilities/osu.rs:10 | `str::contains`, defined by its body as an occurrence at some position; used by `Osu.FirstMatch`, `Osu.FindBeatmap`, `Osu.MatchIsSubstring` and `Osu.NegativeIdKeepsSign` |
| Decimal.IntToDecimal | src/utilities/collection.rs:7 | `i32::to_string`, defined by its body; its properties are stated by `IntToDecimalMeaning`, `IntToDecimalInjective` and `IntToDecimalAlphabet` |
| Collections.FormatCollectionName | src/utilities/collection.rs:3-8 | `format_collection_name`, defined by its body; its properties are stated by `FormatWithoutPlaceholders`, `FormatIdOnly`, `FormatIdTemplate`, `FormatIdTemplateStable` and `FormatSubstitutesInOrder` |
| Collections.IdTextHasNoPlaceholder | src/utilities/collection.rs:7 | the decimal rendering of an id contains none of the three placeholders |
| Collections.FormatIdTemplateStable | src/utilities/collection.rs:3-8 | a name made from the template `{collection_id}` is kept unchanged by formatting it again, for any collection |
| Collections.FormatWithoutPlaceholders | src/utilities/collection.rs:3-8 | a template holding none of the three placeholders is returned as it is |
| Collections.FormatIdOnly | src/utilities/collection.rs:4-7 | a template without the author and title placeholders becomes the template with every `{collection_id}` replaced by the id's decimal text |
| Collections.FormatIdTemplate | src/utilities/collection.rs:7 | the template `{collection_id}` alone names the collection by the decimal rendering of its id |
| Collections.FormatSubstitutesInOrder | src/utilities/collection.rs:5-6 | substitutions are chained author first: an uploader named `{collection_title}` turns the template `{collection_author}` into the collection's title, for every title that does not itself contain `{collection_id}` |
| Collections.Position | src/utilities/collection.rs:11-14 | the result is the first index whose collection carries the name, and `None` exactly when no collection carries it |
| Collections.EnsureCollection | src/utilities/collection.rs:10-29 | afterwards the first collection carrying the name is at the target index; the old list is a prefix of the new one, which has at most one more element |
| Collections.TargetIndex | src/utilities/collection.rs:16-29 | the index of the returned reference, defined by its body; stated by `EnsureCollection`, `EnsureAppendsWhenAbsent`, `EnsureKeepsWhenPresent` and `CollectionList.GetOrCreateCollection` |
| Collections.EnsureAppendsWhenAbsent | src/utilities/collection.rs:20-29 | when the name is absent, exactly one empty collection with that name is appended, the earlier ones are unchanged, and the returned index is the last |
| Collections.EnsureKeepsWhenPresent | src/utilities/collection.rs:11-18 | when the first collection with the name is at `i`, the list is unchanged and `i` is returned |
| Collections.EnsureIdempotent | src/utilities/collection.rs:11-23 | calling it twice with the same name leaves the list and the index as one call does |
| Collections.UnnamedNeverMatches | src/utilities/collection.rs:14 | a collection whose name is `None` is never the one found |
| Collections.EnsureCount | src/utilities/collection.rs:11-23 | at least one collection carries the name afterwards, and exactly one if at most one did before |
| Collections.PushHashAt | src/main.rs:66 | `beatmap_hashes.push` on one collection, defined by its body; stated by `CollectionList.PushHash` and `PushHashKeepsPosition` |
| Collections.PushHashKeepsPosition | src/main.rs:66 | pushing a checksum changes no name, so every lookup finds what it found before |
| Collections.CollectionList.constructor | src/main.rs:40-41 | a freshly loaded list holds the loaded collections and has made no writes |
| Collections.CollectionList.ToFile | src/main.rs:67 | a write records the whole current list under the given path |
| Collections.CollectionList.GetOrCreateCollection | src/utilities/collection.rs:10-29 | the list becomes `EnsureCollection` of the old list; the returned index is the first match, or the appended last element; the list is written only when a collection was appended and a path was given |
| Collections.CollectionList.PushHash | src/main.rs:66 | the checksum is appended to collection `i`'s list and every other collection is unchanged |
| Config.GetMirror | src/config.rs:25-32 | each variant yields the mirror client it carries, and only that variant yields it |
| Config.ParseMirrorType | src/config.rs:40-50 | a string parses exactly when it is one of the four names, to the variant at the same position; any other string fails with an unknown-variant error naming it and listing the four names |
| Config.AllEnumeratesEachOnce | src/config.rs:17-22 | `ALL` has four entries and holds every variant exactly once |
| Config.ExpectedNamesParse | src/config.rs:42-48 | every name listed in the error message parses, to the corresponding entry of `ALL` |
| Config.ParseInjective | src/config.rs:42-45 | two accepted strings that select the same variant are equal |
| Config.EveryVariantSelectable | src/config.rs:42-45 | every variant is selected by some accepted name |
| Config.CaseVariantsRejected | src/config.rs:41-46 | matching is exact: `Catboy`, `OsuDirect` and the empty string are rejected |
| Config.GetMirrorBijective | src/config.rs:26-31 | different variants carry different mirror clients, and every client is carried by a variant of `ALL` |
| Osu.FirstMatch | src/utilities/osu.rs:6-12 | the index of the first entry whose name contains the needle, `None` exactly when none does |
| Osu.FindBeatmap | src/utilities/osu.rs:3-15 | `Some(true)` if and only if some entry's name contains the id's decimal text, otherwise `None` (including for no entries), never `Some(false)` |
| Osu.FirstMatchIgnoresLater | src/utilities/osu.rs:10-12 | the scan stops at the first match: anything after it leaves the result unchanged |
| Osu.MatchIsSubstring | src/utilities/osu.rs:10 | matching is by substring: set 42 is found in an entry named `1042.osz` |
| Osu.NegativeIdKeepsSign | src/utilities/osu.rs:10 | a negative id is searched for with its minus sign, so `-7` is not found in `7.osz` |
| Downloader.Listed | src/main.rs:63 | the listing test, defined by its body as membership of the set id; stated by `OutcomeOfCases` and `StepSkipsListed` |
| Downloader.SongPath | src/main.rs:73 | the archive path `<songs>/<id>.osz`, defined by its body; stated by `SongPathInjective` and `StepSavesFetched` |
| Downloader.SongPathInjective | src/main.rs:73 | different set ids are saved under different paths of the same Songs directory |
| Downloader.FindBeatmapset | src/main.rs:82-86 | the set found carries the id and belongs to the manifest, and `None` means no set there has the id |
| Downloader.OutcomeOfCases | src/main.rs:63-89 | a listed set is skipped; otherwise a fetched archive is saved under `<songs>/<id>.osz`, and the progress line panics exactly when the set is absent from the manifest; otherwise the step failed with the mirror's message |
| Downloader.OutcomeOf | src/main.rs:63-89 | how one step ends, defined by its body; stated by `OutcomeOfCases` |
| Downloader.Step | src/main.rs:58-89 | the state after one step, defined by its body; stated by `StepCounters`, `StepCollections`, `StepSkipsListed`, `StepSavesFetched`, `StepIgnoresFailure`, `StepTouchesOnlyTarget`, `StepTwiceNoDedup` and `SameSetFetchedTwice`, and implemented by `Session.ProcessBeatmap` |
| Downloader.StepCounters | src/main.rs:58-89 | by outcome, one step raises the counter by one only on a save, asks the mirror unless skipped, writes a file only on a save, and writes the list unless the fetch failed |
| Downloader.StepCollections | src/main.rs:61-77 | after any step the target collection sits at the index it was found or created at; its checksums grow by one unless the fetch failed; other collections are unchanged |
| Downloader.StepSkipsListed | src/main.rs:63-69 | a set in the listing: the checksum is pushed and the list written; the mirror is not asked, no file is written and the counter stays |
| Downloader.StepSavesFetched | src/main.rs:72-80 | a successful fetch writes the archive to `songs_path + "/" + id + ".osz"`, pushes the checksum, writes the list, and raises the counter by exactly one |
| Downloader.StepIgnoresFailure | src/main.rs:72-89 | a failed fetch leaves the target's checksums, the writes, the files and the counter unchanged; the only change to the list is the (unwritten) creation of the target |
| Downloader.StepTouchesOnlyTarget | src/main.rs:61-77 | whatever the outcome, the target exists afterwards and every other collection is as before |
| Downloader.StepTwiceNoDedup | src/main.rs:66-76 | pushes are not deduplicated: the same beatmap processed twice, with no panic after the first step, leaves its checksum twice |
| Downloader.SameSetFetchedTwice | src/main.rs:72-80 | two beatmaps of one unlisted set in the manifest both ask the mirror, both write the same path and both count |
| Downloader.Outcomes | src/main.rs:56-91 | the outcomes of the run, stopping after a panicking step, defined by its body; stated by `RunLength`, `RunOutcomeAt`, `RunNoEarlyPanic`, `RunOutcomes`, `RunCompletes` and `RunAfterHalt`, and implemented by `Session.ProcessAll` |
| Downloader.RunState | src/main.rs:56-91 | the state after the run, defined by its body; stated by `RunDownloaded`, `RunMirrorCalls`, `RunTouchesOnlyTarget`, `RunTargetHashes`, `RunTargetGrowth` and `RunAfterHalt`, and implemented by `Session.ProcessAll` |
| Downloader.PushedHashesLength | src/main.rs:66-76 | one checksum is pushed per skipped step and per saved step |
| Downloader.RunLength | src/main.rs:56-91 | the run processes every beatmap unless it halted, and at least one if there is one |
| Downloader.RunOutcomeAt | src/main.rs:63-89 | step `k` of the run ends as the `k`-th beatmap alone decides, whatever came before |
| Downloader.RunNoEarlyPanic | src/main.rs:82-86 | only the last step of a run can have panicked |
| Downloader.RunOutcomes | src/main.rs:56-91 | all of the above about the run's outcomes, together |
| Downloader.RunCompletes | src/main.rs:82-86 | when every beatmap's set is in the manifest, every beatmap is processed |
| Downloader.RunDownloaded | src/main.rs:79-80 | the counter grows by exactly the number of saved archives, so never by more than the number of beatmaps |
| Downloader.RunMirrorCalls | src/main.rs:72 | the mirror is asked for each step's set, in order, except for skipped steps |
| Downloader.RunTouchesOnlyTarget | src/main.rs:61-77 | after a non-empty run the target exists where it was found or created; the list grows by at most one; no other collection changes |
| Downloader.RunTargetHashes | src/main.rs:66-76 | the target's checksum list grows by exactly the pushed checksums, in processing order, with no deduplication |
| Downloader.RunTargetGrowth | src/main.rs:66-76 | the target's checksum list grows in length by the number of skipped steps plus the number of saved steps |
| Downloader.RunAfterHalt | src/main.rs:82-86 | beyond the step that panicked, a run does nothing more |
| Downloader.Session.constructor | src/main.rs:48-53 | the local collection name is the formatted template, and the counter starts at 0 with no files written and no mirror requests |
| Downloader.Session.ProcessBeatmap | src/main.rs:58-89 | the outcome is `OutcomeOf` of the beatmap, and the new buffer, counter and logs are `Step` of the old ones |
| Downloader.Session.ProcessAll | src/main.rs:56-91 | the outcomes are `Outcomes` of the run and the final state is `RunState` of the initial one, stopping after a panicking step |

## Left out

- Concurrency: `for_each_concurrent`, `Arc<Mutex<..>>` and the async runtime are not modelled. Both locks are held for the whole step, so steps run one at a time, in manifest order. The standard-library guards are held across `.await` (src/main.rs:58-59, 72, 74); whether that can stall the run with more than one download in flight is a question about the async runtime, outside this model.
- The mirror clients (src/mirrors/) and the osu!collector requests (src/collector/mod.rs) are network code. A step's mirror answer is an input, and the remote records arrive already parsed. The mirror module is not part of this model.
- The on-disk formats of `collection.db` and the listing belong to the osu_db crate. `from_file` is modelled as a given list, and `to_file` as a recorded snapshot.
- `Collections.CollectionList.ToFile` and `Downloader.Session.ProcessBeatmap` do not model a failed write: the `.unwrap()` panics on `to_file` and `tokio::fs::write` are foreign I/O.
- `Osu.FindBeatmap`: the entry names are given as text. `read_dir` and its `.unwrap()` panics, and the lossy conversion of non-UTF-8 names, are not modelled.
- `Config.ParseMirrorType` starts from the string already read. A configuration value that is not a string fails inside serde and is not modelled. `config::init` (reading `config.toml`) is left out.
- `Downloader.Session.ProcessBeatmap`: the `downloaded` counter is a `nat`. The source's `i32` overflow after 2^31 - 1 downloads is not modelled.
- The `info!` and `warn!` log lines, the speed test (src/utilities/speedtest.rs) and argument parsing are not modelled. Only the success of the manifest lookup that the progress line needs is kept.
- The `CollectionList` version number and the mirrors' names and base URLs play no part in the modelled logic.
