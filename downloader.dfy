/**
 * The per-beatmap step of the download run and the run over the whole
 * collection. Both locks are taken at the top of each step and held to its
 * end, so the steps are modelled as happening one after another, in manifest
 * order. The mirror's answer for each beatmap is an input; the Songs-directory
 * write, `collection.db` writes and mirror requests are recorded in logs.
 */
module Downloader {
  import opened Wrappers
  import opened Decimal
  import opened Collector
  import opened Collections

  type byte = bv8

  /** What the mirror answers for one beatmap set: the archive or an error message. */
  type FetchResult = Result<seq<byte>, string>

  /** One `tokio::fs::write` into the Songs directory. */
  datatype File = File(path: string, contents: seq<byte>)

  /** What every step reads and none changes. */
  datatype Env = Env(
    songsPath: string,
    collectionPath: string,
    collectionName: string,
    listing: seq<i32>,          // beatmap set ids of the local osu! listing
    beatmapsets: seq<Beatmapset>)

  /**
   * How one step ended. `Saved(path, false)` means the archive was saved and
   * counted but the beatmap's set was missing from the manifest, so the
   * lookup for the progress line panicked and the run stopped there.
   */
  datatype Outcome = Skipped | Saved(path: string, logged: bool) | Failed(message: string)

  /** Everything the run changes: the collection list, its writes, the counter and the effect logs. */
  datatype State = State(
    collections: seq<Collection>,
    snapshots: seq<Snapshot>,
    downloaded: nat,
    files: seq<File>,
    mirrorCalls: seq<i32>)

  /** `format!("{}/{}.osz", songs_path, beatmapset_id)`. */
  function SongPath(songsPath: string, id: i32): string {
    songsPath + "/" + IntToDecimal(id) + ".osz"
  }

  /** Different sets are saved under different paths of the same Songs directory. */
  lemma SongPathInjective(songsPath: string, a: i32, b: i32)
    requires SongPath(songsPath, a) == SongPath(songsPath, b)
    ensures a == b
  {
    var p, q := SongPath(songsPath, a), SongPath(songsPath, b);
    var n := |songsPath| + 1;
    assert |IntToDecimal(a)| == |IntToDecimal(b)|;
    assert p[n..|p| - 4] == IntToDecimal(a);
    assert q[n..|q| - 4] == IntToDecimal(b);
    IntToDecimalInjective(a, b);
  }

  /** `listing.beatmaps.iter().find(|b| b.beatmapset_id == id).is_some()`. */
  predicate Listed(listing: seq<i32>, id: i32) {
    id in listing
  }

  /** `beatmapsets.iter().find(|s| s.id == id)`: the first set with that id. */
  function FindBeatmapset(sets: seq<Beatmapset>, id: i32): (r: Option<Beatmapset>)
    ensures r.Some? ==> r.value.id == id && r.value in sets
    ensures r.None? <==> forall k :: 0 <= k < |sets| ==> sets[k].id != id
  {
    if sets == [] then None
    else if sets[0].id == id then Some(sets[0])
    else FindBeatmapset(sets[1..], id)
  }

  /** How the step for beatmap `b` ends, given what the mirror would answer for its set. */
  function OutcomeOf(env: Env, b: Beatmap, fetched: FetchResult): Outcome {
    if Listed(env.listing, b.beatmapsetId) then Skipped
    else match fetched
      case Success(_) =>
        Saved(SongPath(env.songsPath, b.beatmapsetId), FindBeatmapset(env.beatmapsets, b.beatmapsetId).Some?)
      case Failure(message) => Failed(message)
  }

  /**
   * A listed set is skipped; otherwise a fetched archive is saved under its
   * path, the progress line panicking exactly when the set is missing from
   * the manifest; otherwise the step failed with the mirror's message.
   */
  lemma OutcomeOfCases(env: Env, b: Beatmap, fetched: FetchResult)
    ensures var o := OutcomeOf(env, b, fetched);
      && (o.Skipped? <==> Listed(env.listing, b.beatmapsetId))
      && (o.Saved? <==> !Listed(env.listing, b.beatmapsetId) && fetched.Success?)
      && (o.Saved? ==> o.path == SongPath(env.songsPath, b.beatmapsetId))
      && (o.Saved? ==> (o.logged <==> exists k :: 0 <= k < |env.beatmapsets| && env.beatmapsets[k].id == b.beatmapsetId))
      && (o.Failed? ==> fetched.Failure? && o.message == fetched.error)
  {
  }

  /** The state after the step for beatmap `b`. */
  function Step(env: Env, st: State, b: Beatmap, fetched: FetchResult): State {
    var cs := EnsureCollection(st.collections, env.collectionName);
    var t := TargetIndex(st.collections, env.collectionName);
    var pushed := PushHashAt(cs, t, Some(b.checksum));
    match OutcomeOf(env, b, fetched)
    case Skipped =>
      st.(collections := pushed, snapshots := st.snapshots + [Snapshot(env.collectionPath, pushed)])
    case Saved(path, _) =>
      State(pushed, st.snapshots + [Snapshot(env.collectionPath, pushed)], st.downloaded + 1,
            st.files + [File(path, fetched.value)], st.mirrorCalls + [b.beatmapsetId])
    case Failed(_) =>
      st.(collections := cs, mirrorCalls := st.mirrorCalls + [b.beatmapsetId])
  }

  /** What one step does to the counter and the logs of the mirror and the Songs directory, by outcome. */
  lemma StepCounters(env: Env, st: State, b: Beatmap, fetched: FetchResult)
    ensures
      var r := Step(env, st, b, fetched);
      var o := OutcomeOf(env, b, fetched);
      && r.downloaded == st.downloaded + (if o.Saved? then 1 else 0)
      && r.mirrorCalls == st.mirrorCalls + (if o.Skipped? then [] else [b.beatmapsetId])
      && r.files == st.files + (if o.Saved? then [File(o.path, fetched.value)] else [])
      && r.snapshots == st.snapshots + (if o.Failed? then [] else [Snapshot(env.collectionPath, r.collections)])
  {
  }

  /** What one step does to the collection list, by outcome. */
  lemma StepCollections(env: Env, st: State, b: Beatmap, fetched: FetchResult)
    ensures
      var r := Step(env, st, b, fetched);
      var o := OutcomeOf(env, b, fetched);
      var name := env.collectionName;
      var t := TargetIndex(st.collections, name);
      && Position(r.collections, name) == Some(t)
      && TargetIndex(r.collections, name) == t
      && TargetHashes(r.collections, name)
         == TargetHashes(st.collections, name) + (if o.Failed? then [] else [Some(b.checksum)])
      && |r.collections| == |EnsureCollection(st.collections, name)|
      && (forall j :: 0 <= j < |st.collections| && j != t ==> r.collections[j] == st.collections[j])
  {
    var name := env.collectionName;
    var cs := EnsureCollection(st.collections, name);
    var t := TargetIndex(st.collections, name);
    var pushed := PushHashAt(cs, t, Some(b.checksum));
    PushHashKeepsPosition(cs, t, Some(b.checksum), name);
    EnsureIdempotent(st.collections, name);
    assert Step(env, st, b, fetched).collections
      == if OutcomeOf(env, b, fetched).Failed? then cs else pushed;
  }

  /**
   * A set already in the local listing: the checksum is pushed and written
   * out, the mirror is not asked, nothing is saved and the counter stays.
   */
  lemma StepSkipsListed(env: Env, st: State, b: Beatmap, fetched: FetchResult)
    requires Listed(env.listing, b.beatmapsetId)
    ensures var r := Step(env, st, b, fetched);
      && TargetHashes(r.collections, env.collectionName)
         == TargetHashes(st.collections, env.collectionName) + [Some(b.checksum)]
      && r.snapshots == st.snapshots + [Snapshot(env.collectionPath, r.collections)]
      && r.mirrorCalls == st.mirrorCalls
      && r.downloaded == st.downloaded
      && r.files == st.files
  {
    StepCounters(env, st, b, fetched);
    StepCollections(env, st, b, fetched);
  }

  /**
   * A set fetched successfully: saved as `<songs>/<id>.osz`, its checksum
   * pushed and written out, and the counter raised by exactly one.
   */
  lemma StepSavesFetched(env: Env, st: State, b: Beatmap, fetched: FetchResult)
    requires !Listed(env.listing, b.beatmapsetId) && fetched.Success?
    ensures var r := Step(env, st, b, fetched);
      && r.files == st.files + [File(env.songsPath + "/" + IntToDecimal(b.beatmapsetId) + ".osz", fetched.value)]
      && TargetHashes(r.collections, env.collectionName)
         == TargetHashes(st.collections, env.collectionName) + [Some(b.checksum)]
      && r.snapshots == st.snapshots + [Snapshot(env.collectionPath, r.collections)]
      && r.mirrorCalls == st.mirrorCalls + [b.beatmapsetId]
      && r.downloaded == st.downloaded + 1
  {
    StepCounters(env, st, b, fetched);
    StepCollections(env, st, b, fetched);
  }

  /**
   * A failed fetch changes nothing but the (unwritten) creation of the
   * target collection: no checksum, no write, no file, same counter.
   */
  lemma StepIgnoresFailure(env: Env, st: State, b: Beatmap, fetched: FetchResult)
    requires !Listed(env.listing, b.beatmapsetId) && fetched.Failure?
    ensures var r := Step(env, st, b, fetched);
      && r.collections == EnsureCollection(st.collections, env.collectionName)
      && TargetHashes(r.collections, env.collectionName) == TargetHashes(st.collections, env.collectionName)
      && r.snapshots == st.snapshots
      && r.files == st.files
      && r.downloaded == st.downloaded
      && r.mirrorCalls == st.mirrorCalls + [b.beatmapsetId]
  {
    StepCounters(env, st, b, fetched);
    StepCollections(env, st, b, fetched);
  }

  /**
   * Whatever the outcome, the target collection exists afterwards, and every
   * other collection is as it was.
   */
  lemma StepTouchesOnlyTarget(env: Env, st: State, b: Beatmap, fetched: FetchResult)
    ensures var r := Step(env, st, b, fetched); var name := env.collectionName;
      var t := TargetIndex(st.collections, name);
      && Position(r.collections, name).Some?
      && t < |r.collections| && r.collections[t].name == Some(name)
      && |st.collections| <= |r.collections| <= |st.collections| + 1
      && (forall j :: 0 <= j < |st.collections| && j != t ==> r.collections[j] == st.collections[j])
  {
    StepCollections(env, st, b, fetched);
  }

  /**
   * Pushes are not deduplicated: the same beatmap processed twice leaves its
   * checksum twice in the target collection.
   */
  lemma StepTwiceNoDedup(env: Env, st: State, b: Beatmap, f1: FetchResult, f2: FetchResult)
    requires Listed(env.listing, b.beatmapsetId) || (f1.Success? && f2.Success?)
    requires !Listed(env.listing, b.beatmapsetId) ==> FindBeatmapset(env.beatmapsets, b.beatmapsetId).Some?
    ensures var r := Step(env, Step(env, st, b, f1), b, f2);
      TargetHashes(r.collections, env.collectionName)
      == TargetHashes(st.collections, env.collectionName) + [Some(b.checksum), Some(b.checksum)]
  {
    StepCollections(env, st, b, f1);
    StepCollections(env, Step(env, st, b, f1), b, f2);
  }

  /**
   * A downloaded set is not added to the listing, so a second beatmap of the
   * same set asks the mirror again and writes the same path again.
   */
  lemma SameSetFetchedTwice(env: Env, st: State, b1: Beatmap, b2: Beatmap, f1: FetchResult, f2: FetchResult)
    requires b1.beatmapsetId == b2.beatmapsetId && !Listed(env.listing, b1.beatmapsetId)
    requires f1.Success? && f2.Success?
    requires FindBeatmapset(env.beatmapsets, b1.beatmapsetId).Some?
    ensures var r := Step(env, Step(env, st, b1, f1), b2, f2);
      var path := SongPath(env.songsPath, b1.beatmapsetId);
      && r.mirrorCalls == st.mirrorCalls + [b1.beatmapsetId, b1.beatmapsetId]
      && r.files == st.files + [File(path, f1.value), File(path, f2.value)]
      && r.downloaded == st.downloaded + 2
  {
    StepCounters(env, st, b1, f1);
    StepCounters(env, Step(env, st, b1, f1), b2, f2);
  }

  /** The run stopped: its last step panicked looking up the beatmap's set. */
  predicate Halted(os: seq<Outcome>) {
    |os| > 0 && os[|os| - 1].Saved? && !os[|os| - 1].logged
  }

  /**
   * How the steps of the run over `beatmaps` end, in order, `fetched[k]`
   * being what the mirror answers if asked for `beatmaps[k]`'s set. The run
   * stops after a step that panicked.
   */
  function Outcomes(env: Env, beatmaps: seq<Beatmap>, fetched: seq<FetchResult>): seq<Outcome>
    requires |fetched| == |beatmaps|
    decreases |beatmaps|
  {
    if beatmaps == [] then []
    else
      var n := |beatmaps| - 1;
      var prev := Outcomes(env, beatmaps[..n], fetched[..n]);
      if Halted(prev) then prev else prev + [OutcomeOf(env, beatmaps[n], fetched[n])]
  }

  /** The state after the run over `beatmaps`: one `Step` per outcome. */
  function RunState(env: Env, st: State, beatmaps: seq<Beatmap>, fetched: seq<FetchResult>): State
    requires |fetched| == |beatmaps|
    decreases |beatmaps|
  {
    if beatmaps == [] then st
    else
      var n := |beatmaps| - 1;
      var prev := RunState(env, st, beatmaps[..n], fetched[..n]);
      if Halted(Outcomes(env, beatmaps[..n], fetched[..n])) then prev
      else Step(env, prev, beatmaps[n], fetched[n])
  }

  function CountSaved(os: seq<Outcome>): (n: nat)
    ensures n <= |os|
  {
    if os == [] then 0 else CountSaved(os[..|os| - 1]) + (if os[|os| - 1].Saved? then 1 else 0)
  }

  function CountSkipped(os: seq<Outcome>): (n: nat)
    ensures n <= |os|
  {
    if os == [] then 0 else CountSkipped(os[..|os| - 1]) + (if os[|os| - 1].Skipped? then 1 else 0)
  }

  /** The checksums pushed by the steps with outcomes `os`, in order; step `k` handled `beatmaps[k]`. */
  function PushedHashes(beatmaps: seq<Beatmap>, os: seq<Outcome>): seq<Option<string>>
    requires |os| <= |beatmaps|
  {
    if os == [] then []
    else
      var n := |os| - 1;
      PushedHashes(beatmaps, os[..n]) + (if os[n].Failed? then [] else [Some(beatmaps[n].checksum)])
  }

  /** The set ids the mirror is asked for by the steps with outcomes `os`, in order. */
  function CalledIds(beatmaps: seq<Beatmap>, os: seq<Outcome>): seq<i32>
    requires |os| <= |beatmaps|
  {
    if os == [] then []
    else
      var n := |os| - 1;
      CalledIds(beatmaps, os[..n]) + (if os[n].Skipped? then [] else [beatmaps[n].beatmapsetId])
  }

  /** One more outcome extends both logs by that step's entry. */
  lemma LogsSnoc(beatmaps: seq<Beatmap>, os: seq<Outcome>, o: Outcome)
    requires |os| < |beatmaps|
    ensures PushedHashes(beatmaps, os + [o])
      == PushedHashes(beatmaps, os) + (if o.Failed? then [] else [Some(beatmaps[|os|].checksum)])
    ensures CalledIds(beatmaps, os + [o])
      == CalledIds(beatmaps, os) + (if o.Skipped? then [] else [beatmaps[|os|].beatmapsetId])
  {
    assert (os + [o])[..|os|] == os;
  }

  /** Only the beatmaps of the steps that ran matter. */
  lemma {:induction false} LogsIgnoreLaterBeatmaps(beatmaps: seq<Beatmap>, k: nat, os: seq<Outcome>)
    requires |os| <= k <= |beatmaps|
    ensures PushedHashes(beatmaps[..k], os) == PushedHashes(beatmaps, os)
    ensures CalledIds(beatmaps[..k], os) == CalledIds(beatmaps, os)
  {
    if os != [] {
      LogsIgnoreLaterBeatmaps(beatmaps, k, os[..|os| - 1]);
    }
  }

  /** One checksum is pushed per skipped or saved step. */
  lemma {:induction false} PushedHashesLength(beatmaps: seq<Beatmap>, os: seq<Outcome>)
    requires |os| <= |beatmaps|
    ensures |PushedHashes(beatmaps, os)| == CountSkipped(os) + CountSaved(os)
  {
    if os != [] {
      PushedHashesLength(beatmaps, os[..|os| - 1]);
    }
  }

  /** The run processes every beatmap unless it halted, and at least one if there is one. */
  lemma {:induction false} RunLength(env: Env, beatmaps: seq<Beatmap>, fetched: seq<FetchResult>)
    requires |fetched| == |beatmaps|
    ensures var os := Outcomes(env, beatmaps, fetched);
      && |os| <= |beatmaps|
      && (|beatmaps| > 0 ==> |os| > 0)
      && (|os| < |beatmaps| ==> Halted(os))
    decreases |beatmaps|
  {
    if beatmaps != [] {
      var n := |beatmaps| - 1;
      RunLength(env, beatmaps[..n], fetched[..n]);
    }
  }

  /** Step `k` of the run ended as `OutcomeOf` says for the `k`-th beatmap, whatever came before it. */
  lemma {:induction false} RunOutcomeAt(env: Env, beatmaps: seq<Beatmap>, fetched: seq<FetchResult>, k: nat)
    requires |fetched| == |beatmaps| && k < |Outcomes(env, beatmaps, fetched)|
    ensures k < |beatmaps| && Outcomes(env, beatmaps, fetched)[k] == OutcomeOf(env, beatmaps[k], fetched[k])
    decreases |beatmaps|
  {
    var n := |beatmaps| - 1;
    var bs, fs := beatmaps[..n], fetched[..n];
    var os := Outcomes(env, bs, fs);
    RunLength(env, bs, fs);
    if Halted(os) || k < n {
      RunOutcomeAt(env, bs, fs, k);
      assert bs[k] == beatmaps[k] && fs[k] == fetched[k];
      if !Halted(os) {
        assert (os + [OutcomeOf(env, beatmaps[n], fetched[n])])[k] == os[k];
      }
    }
  }

  /** Only the last step of a run can have panicked. */
  lemma {:induction false} RunNoEarlyPanic(env: Env, beatmaps: seq<Beatmap>, fetched: seq<FetchResult>, k: nat)
    requires |fetched| == |beatmaps| && k + 1 < |Outcomes(env, beatmaps, fetched)|
    ensures var os := Outcomes(env, beatmaps, fetched); !(os[k].Saved? && !os[k].logged)
    decreases |beatmaps|
  {
    var n := |beatmaps| - 1;
    var bs, fs := beatmaps[..n], fetched[..n];
    var os := Outcomes(env, bs, fs);
    if Halted(os) {
      RunNoEarlyPanic(env, bs, fs, k);
    } else {
      var os' := os + [OutcomeOf(env, beatmaps[n], fetched[n])];
      assert os'[k] == os[k];
      if k + 1 < |os| {
        RunNoEarlyPanic(env, bs, fs, k);
      }
    }
  }

  /**
   * Each step that ran ended as `OutcomeOf` says, whatever came before it;
   * the run processes every beatmap unless it halted, and only its last step
   * can have panicked.
   */
  lemma RunOutcomes(env: Env, beatmaps: seq<Beatmap>, fetched: seq<FetchResult>)
    requires |fetched| == |beatmaps|
    ensures var os := Outcomes(env, beatmaps, fetched);
      && |os| <= |beatmaps|
      && (|beatmaps| > 0 ==> |os| > 0)
      && (forall k :: 0 <= k < |os| ==> os[k] == OutcomeOf(env, beatmaps[k], fetched[k]))
      && (|os| < |beatmaps| ==> Halted(os))
      && (forall k :: 0 <= k < |os| - 1 ==> !(os[k].Saved? && !os[k].logged))
  {
    var os := Outcomes(env, beatmaps, fetched);
    RunLength(env, beatmaps, fetched);
    forall k | 0 <= k < |os|
      ensures os[k] == OutcomeOf(env, beatmaps[k], fetched[k])
    {
      RunOutcomeAt(env, beatmaps, fetched, k);
    }
    forall k | 0 <= k < |os| - 1
      ensures !(os[k].Saved? && !os[k].logged)
    {
      RunNoEarlyPanic(env, beatmaps, fetched, k);
    }
  }

  /** When every beatmap's set is in the manifest, nothing panics and every beatmap is processed. */
  lemma RunCompletes(env: Env, beatmaps: seq<Beatmap>, fetched: seq<FetchResult>)
    requires |fetched| == |beatmaps|
    requires forall k :: 0 <= k < |beatmaps| ==> FindBeatmapset(env.beatmapsets, beatmaps[k].beatmapsetId).Some?
    ensures |Outcomes(env, beatmaps, fetched)| == |beatmaps|
  {
    RunOutcomes(env, beatmaps, fetched);
    var os := Outcomes(env, beatmaps, fetched);
    if os != [] {
      var k := |os| - 1;
      var sets := env.beatmapsets;
      var s := FindBeatmapset(sets, beatmaps[k].beatmapsetId).value;
      var i :| 0 <= i < |sets| && sets[i] == s;
      assert sets[i].id == beatmaps[k].beatmapsetId;
      assert !Halted(os);
    }
  }

  /** One more beatmap, after a prefix that did not halt, adds one step. */
  lemma RunSnoc(env: Env, st: State, beatmaps: seq<Beatmap>, fetched: seq<FetchResult>)
    requires |fetched| == |beatmaps| && beatmaps != []
    requires !Halted(Outcomes(env, beatmaps[..|beatmaps| - 1], fetched[..|beatmaps| - 1]))
    ensures var n := |beatmaps| - 1;
      var os := Outcomes(env, beatmaps[..n], fetched[..n]);
      && |os| == n
      && Outcomes(env, beatmaps, fetched) == os + [OutcomeOf(env, beatmaps[n], fetched[n])]
      && RunState(env, st, beatmaps, fetched)
         == Step(env, RunState(env, st, beatmaps[..n], fetched[..n]), beatmaps[n], fetched[n])
  {
    RunOutcomes(env, beatmaps[..|beatmaps| - 1], fetched[..|beatmaps| - 1]);
  }

  /** After a prefix that halted, one more beatmap changes nothing. */
  lemma RunHaltedPrefix(env: Env, st: State, beatmaps: seq<Beatmap>, fetched: seq<FetchResult>)
    requires |fetched| == |beatmaps| && beatmaps != []
    requires Halted(Outcomes(env, beatmaps[..|beatmaps| - 1], fetched[..|beatmaps| - 1]))
    ensures var n := |beatmaps| - 1;
      var os := Outcomes(env, beatmaps[..n], fetched[..n]);
      && |os| <= n
      && Outcomes(env, beatmaps, fetched) == os
      && RunState(env, st, beatmaps, fetched) == RunState(env, st, beatmaps[..n], fetched[..n])
  {
    RunOutcomes(env, beatmaps[..|beatmaps| - 1], fetched[..|beatmaps| - 1]);
  }

  /**
   * The counter ends up raised by the number of saved archives, so never by
   * more than the number of beatmaps.
   */
  lemma {:induction false} RunDownloaded(env: Env, st: State, beatmaps: seq<Beatmap>, fetched: seq<FetchResult>)
    requires |fetched| == |beatmaps|
    ensures var os := Outcomes(env, beatmaps, fetched);
      && RunState(env, st, beatmaps, fetched).downloaded == st.downloaded + CountSaved(os)
      && RunState(env, st, beatmaps, fetched).downloaded <= st.downloaded + |beatmaps|
    decreases |beatmaps|
  {
    RunOutcomes(env, beatmaps, fetched);
    if beatmaps != [] {
      var n := |beatmaps| - 1;
      var bs, fs := beatmaps[..n], fetched[..n];
      RunDownloaded(env, st, bs, fs);
      var os := Outcomes(env, bs, fs);
      if !Halted(os) {
        RunSnoc(env, st, beatmaps, fetched);
        StepCounters(env, RunState(env, st, bs, fs), beatmaps[n], fetched[n]);
        var os' := os + [OutcomeOf(env, beatmaps[n], fetched[n])];
        assert os'[..n] == os;
      } else {
        RunHaltedPrefix(env, st, beatmaps, fetched);
      }
    }
  }

  /** The mirror is asked once per step that was not skipped, in order. */
  lemma {:induction false} RunMirrorCalls(env: Env, st: State, beatmaps: seq<Beatmap>, fetched: seq<FetchResult>)
    requires |fetched| == |beatmaps|
    ensures var os := Outcomes(env, beatmaps, fetched);
      && |os| <= |beatmaps|
      && RunState(env, st, beatmaps, fetched).mirrorCalls == st.mirrorCalls + CalledIds(beatmaps, os)
    decreases |beatmaps|
  {
    if beatmaps != [] {
      var n := |beatmaps| - 1;
      RunMirrorCalls(env, st, beatmaps[..n], fetched[..n]);
      MirrorCallsExtend(env, st, beatmaps, fetched);
    }
  }

  /** The inductive step of `RunMirrorCalls`. */
  lemma MirrorCallsExtend(env: Env, st: State, beatmaps: seq<Beatmap>, fetched: seq<FetchResult>)
    requires |fetched| == |beatmaps| && beatmaps != []
    requires var n := |beatmaps| - 1;
      var os := Outcomes(env, beatmaps[..n], fetched[..n]);
      && |os| <= n
      && RunState(env, st, beatmaps[..n], fetched[..n]).mirrorCalls == st.mirrorCalls + CalledIds(beatmaps[..n], os)
    ensures var os := Outcomes(env, beatmaps, fetched);
      && |os| <= |beatmaps|
      && RunState(env, st, beatmaps, fetched).mirrorCalls == st.mirrorCalls + CalledIds(beatmaps, os)
  {
    var n := |beatmaps| - 1;
    var os := Outcomes(env, beatmaps[..n], fetched[..n]);
    LogsIgnoreLaterBeatmaps(beatmaps, n, os);
    if !Halted(os) {
      RunSnoc(env, st, beatmaps, fetched);
      var o := OutcomeOf(env, beatmaps[n], fetched[n]);
      LogsSnoc(beatmaps, os, o);
      var prev := RunState(env, st, beatmaps[..n], fetched[..n]);
      StepCounters(env, prev, beatmaps[n], fetched[n]);
      assert RunState(env, st, beatmaps, fetched).mirrorCalls
        == prev.mirrorCalls + (if o.Skipped? then [] else [beatmaps[n].beatmapsetId]);
    } else {
      RunHaltedPrefix(env, st, beatmaps, fetched);
    }
  }

  /**
   * The target collection exists after any non-empty run and stays where it
   * was found; every other collection is untouched.
   */
  lemma {:induction false} RunTouchesOnlyTarget(env: Env, st: State, beatmaps: seq<Beatmap>, fetched: seq<FetchResult>)
    requires |fetched| == |beatmaps|
    ensures var cs := RunState(env, st, beatmaps, fetched).collections;
      var name := env.collectionName;
      var t := TargetIndex(st.collections, name);
      && (|beatmaps| > 0 ==> Position(cs, name) == Some(t))
      && TargetIndex(cs, name) == t
      && |st.collections| <= |cs| <= |st.collections| + 1
      && (forall j :: 0 <= j < |st.collections| && j != t ==> cs[j] == st.collections[j])
    decreases |beatmaps|
  {
    if beatmaps != [] {
      var n := |beatmaps| - 1;
      var bs, fs := beatmaps[..n], fetched[..n];
      RunTouchesOnlyTarget(env, st, bs, fs);
      var name := env.collectionName;
      var prev := RunState(env, st, bs, fs);
      if !Halted(Outcomes(env, bs, fs)) {
        RunSnoc(env, st, beatmaps, fetched);
        StepCollections(env, prev, beatmaps[n], fetched[n]);
        if n > 0 {
          assert EnsureCollection(prev.collections, name) == prev.collections;
        } else {
          EnsureIdempotent(st.collections, name);
        }
      } else {
        RunHaltedPrefix(env, st, beatmaps, fetched);
      }
    }
  }

  /** The target's checksums grow by exactly the pushed ones, in order: no deduplication. */
  lemma {:induction false} RunTargetHashes(env: Env, st: State, beatmaps: seq<Beatmap>, fetched: seq<FetchResult>)
    requires |fetched| == |beatmaps|
    ensures var os := Outcomes(env, beatmaps, fetched);
      && |os| <= |beatmaps|
      && TargetHashes(RunState(env, st, beatmaps, fetched).collections, env.collectionName)
         == TargetHashes(st.collections, env.collectionName) + PushedHashes(beatmaps, os)
    decreases |beatmaps|
  {
    if beatmaps != [] {
      var n := |beatmaps| - 1;
      RunTargetHashes(env, st, beatmaps[..n], fetched[..n]);
      TargetHashesExtend(env, st, beatmaps, fetched);
    }
  }

  /** The inductive step of `RunTargetHashes`. */
  lemma TargetHashesExtend(env: Env, st: State, beatmaps: seq<Beatmap>, fetched: seq<FetchResult>)
    requires |fetched| == |beatmaps| && beatmaps != []
    requires var n := |beatmaps| - 1;
      var os := Outcomes(env, beatmaps[..n], fetched[..n]);
      && |os| <= n
      && TargetHashes(RunState(env, st, beatmaps[..n], fetched[..n]).collections, env.collectionName)
         == TargetHashes(st.collections, env.collectionName) + PushedHashes(beatmaps[..n], os)
    ensures var os := Outcomes(env, beatmaps, fetched);
      && |os| <= |beatmaps|
      && TargetHashes(RunState(env, st, beatmaps, fetched).collections, env.collectionName)
         == TargetHashes(st.collections, env.collectionName) + PushedHashes(beatmaps, os)
  {
    var n := |beatmaps| - 1;
    var os := Outcomes(env, beatmaps[..n], fetched[..n]);
    LogsIgnoreLaterBeatmaps(beatmaps, n, os);
    if !Halted(os) {
      RunSnoc(env, st, beatmaps, fetched);
      var o := OutcomeOf(env, beatmaps[n], fetched[n]);
      LogsSnoc(beatmaps, os, o);
      StepCollections(env, RunState(env, st, beatmaps[..n], fetched[..n]), beatmaps[n], fetched[n]);
    } else {
      RunHaltedPrefix(env, st, beatmaps, fetched);
    }
  }

  /** The target's checksum list grows by one per skipped step and one per saved archive. */
  lemma RunTargetGrowth(env: Env, st: State, beatmaps: seq<Beatmap>, fetched: seq<FetchResult>)
    requires |fetched| == |beatmaps|
    ensures var os := Outcomes(env, beatmaps, fetched);
      |TargetHashes(RunState(env, st, beatmaps, fetched).collections, env.collectionName)|
      == |TargetHashes(st.collections, env.collectionName)| + CountSkipped(os) + CountSaved(os)
  {
    RunTargetHashes(env, st, beatmaps, fetched);
    PushedHashesLength(beatmaps, Outcomes(env, beatmaps, fetched));
  }

  /** Beyond its halt a run does nothing more. */
  lemma {:induction false} RunAfterHalt(env: Env, st: State, beatmaps: seq<Beatmap>, fetched: seq<FetchResult>, k: nat)
    requires |fetched| == |beatmaps| && k <= |beatmaps|
    requires Halted(Outcomes(env, beatmaps[..k], fetched[..k]))
    ensures Outcomes(env, beatmaps, fetched) == Outcomes(env, beatmaps[..k], fetched[..k])
    ensures RunState(env, st, beatmaps, fetched) == RunState(env, st, beatmaps[..k], fetched[..k])
    decreases |beatmaps| - k
  {
    if k < |beatmaps| {
      var n := |beatmaps| - 1;
      assert beatmaps[..n][..k] == beatmaps[..k];
      assert fetched[..n][..k] == fetched[..k];
      RunAfterHalt(env, st, beatmaps[..n], fetched[..n], k);
      RunHaltedPrefix(env, st, beatmaps, fetched);
    } else {
      assert beatmaps[..k] == beatmaps && fetched[..k] == fetched;
    }
  }

  /**
   * One run of the download loop: the loaded collection list, the
   * `downloaded` counter, and the logs of what was written to the Songs
   * directory and asked of the mirror.
   */
  class Session {
    const env: Env
    const buffer: CollectionList
    var downloaded: nat
    var files: seq<File>
    var mirrorCalls: seq<i32>

    function Current(): State
      reads this, buffer
    {
      State(buffer.collections, buffer.snapshots, downloaded, files, mirrorCalls)
    }

    /** The local collection is named from the template once, before any step. */
    constructor (nameFormat: string, info: RemoteCollection, songsPath: string, collectionPath: string,
                 listing: seq<i32>, beatmapsets: seq<Beatmapset>, buffer: CollectionList)
      ensures this.buffer == buffer
      ensures env == Env(songsPath, collectionPath, FormatCollectionName(nameFormat, info), listing, beatmapsets)
      ensures downloaded == 0 && files == [] && mirrorCalls == []
    {
      this.env := Env(songsPath, collectionPath, FormatCollectionName(nameFormat, info), listing, beatmapsets);
      this.buffer := buffer;
      downloaded := 0;
      files := [];
      mirrorCalls := [];
    }

    /** The body of the `for_each_concurrent` closure for one beatmap. */
    method ProcessBeatmap(b: Beatmap, fetched: FetchResult) returns (outcome: Outcome)
      modifies this, buffer
      ensures outcome == OutcomeOf(env, b, fetched)
      ensures Current() == Step(env, old(Current()), b, fetched)
    {
      ghost var st := Current();
      ghost var pushed := PushHashAt(EnsureCollection(st.collections, env.collectionName),
                                     TargetIndex(st.collections, env.collectionName), Some(b.checksum));
      var i := buffer.GetOrCreateCollection(env.collectionName, None);
      assert Current() == st.(collections := EnsureCollection(st.collections, env.collectionName));
      if Listed(env.listing, b.beatmapsetId) {
        buffer.PushHash(i, Some(b.checksum));
        buffer.ToFile(env.collectionPath);
        assert Current() == st.(collections := pushed, snapshots := st.snapshots + [Snapshot(env.collectionPath, pushed)]);
        assert OutcomeOf(env, b, fetched) == Skipped;
        return Skipped;
      }
      mirrorCalls := mirrorCalls + [b.beatmapsetId];
      match fetched
      case Success(contents) =>
        var path := SongPath(env.songsPath, b.beatmapsetId);
        files := files + [File(path, contents)];
        buffer.PushHash(i, Some(b.checksum));
        buffer.ToFile(env.collectionPath);
        downloaded := downloaded + 1;
        var beatmapset := FindBeatmapset(env.beatmapsets, b.beatmapsetId);
        outcome := Saved(path, beatmapset.Some?);
        assert OutcomeOf(env, b, fetched) == outcome;
        assert Current() == State(pushed, st.snapshots + [Snapshot(env.collectionPath, pushed)], st.downloaded + 1,
                                  st.files + [File(path, contents)], st.mirrorCalls + [b.beatmapsetId]);
      case Failure(message) =>
        outcome := Failed(message);
        assert OutcomeOf(env, b, fetched) == outcome;
        assert Current() == st.(collections := EnsureCollection(st.collections, env.collectionName),
                                mirrorCalls := st.mirrorCalls + [b.beatmapsetId]);
    }

    /** The whole loop over the collection's beatmaps, in order, until done or a step panics. */
    method ProcessAll(beatmaps: seq<Beatmap>, fetched: seq<FetchResult>) returns (outcomes: seq<Outcome>)
      requires |fetched| == |beatmaps|
      modifies this, buffer
      ensures outcomes == Outcomes(env, beatmaps, fetched)
      ensures Current() == RunState(env, old(Current()), beatmaps, fetched)
    {
      outcomes := [];
      var i := 0;
      while i < |beatmaps|
        invariant 0 <= i <= |beatmaps|
        invariant outcomes == Outcomes(env, beatmaps[..i], fetched[..i])
        invariant Current() == RunState(env, old(Current()), beatmaps[..i], fetched[..i])
        invariant !Halted(outcomes)
      {
        var o := ProcessBeatmap(beatmaps[i], fetched[i]);
        outcomes := outcomes + [o];
        assert beatmaps[..i + 1][..i] == beatmaps[..i];
        assert fetched[..i + 1][..i] == fetched[..i];
        i := i + 1;
        if Halted(outcomes) {
          RunAfterHalt(env, old(Current()), beatmaps, fetched, i);
          return;
        }
      }
      assert beatmaps[..i] == beatmaps && fetched[..i] == fetched;
    }
  }
}
