/**
 * The agent's side of a fleet update: judge the published manifest, download and verify the
 * build beside the running binary, and swap the two by renames, with the process free to die
 * between any two writes. SHA-256 is the parameter `hash`.
 */
module Update {
  import opened Base
  import opened Chunks
  import opened Protocol

  datatype UpdateState = UpdateState(lastPublishedAt: int, version: string, sha256: string, appliedAt: int)

  const NO_STATE := UpdateState(0, "", "", 0)

  /** The agent's files: an absent or unparsable state file is `None`. */
  datatype Disk = Disk(current: Option<seq<Byte>>, backup: Option<seq<Byte>>, staged: Option<seq<Byte>>,
                       saved: Option<UpdateState>)

  function Last(d: Disk): int {
    d.saved.GetOr(NO_STATE).lastPublishedAt
  }

  /** Everything the outside decides during one attempt. */
  datatype Luck = Luck(
    rehash: Io, keyUsable: bool, supply: Supply, chmod: Io, smoke: seq<Byte> -> bool, unlink: Io, aside: Io, place: Io, restore: Io, discard: Io, save: Io)

  datatype Outcome =
    | NoManifest
    | UpToDate
    | Applied(version: string, sha256: string)
    | Deferred(jobs: nat)
    | WrongTarget
    | NotNewer

  /** What to do about a manifest for which this host is the right one. */
  function Ruling(m: Manifest, target: string, installed: string, last: int, jobs: nat): Outcome {
    if m.target != target then WrongTarget
    else if installed == m.sha256 then UpToDate
    else if m.publishedAt <= last then NotNewer
    else if jobs > 0 then Deferred(jobs)
    else Applied(m.version, m.sha256)
  }

  /** The old binary is in place or aside. */
  ghost predicate OldAtHand(before: Disk, after: Disk) {
    after.current == before.current || (after.current == None && after.backup == before.current)
  }

  /** The new binary is in place, verified, and the old one is aside. */
  ghost predicate NewInPlace(before: Disk, after: Disk, m: Manifest, luck: Luck, hash: seq<Byte> -> string) {
    after.current.Some? && Matches(after.current.value, m.totalBytes, m.sha256, hash) && luck.smoke(after.current.value)
    && after.backup == before.current
  }

  /** The one failure an installation cannot undo. */
  predicate RestoreFailed(luck: Luck) {
    luck.place.Errs? && luck.restore.Errs?
  }

  function Record(m: Manifest, appliedAt: int): UpdateState {
    UpdateState(m.publishedAt, m.version, m.sha256, appliedAt)
  }

  /** What one check leaves behind, in every way it can end. */
  ghost predicate CheckStep(before: Disk, after: Disk, read: Result<Option<Manifest>, ()>, target: string, jobs: nat,
                            luck: Luck, now: int, hash: seq<Byte> -> string, v: Verdict, outcome: Outcome) {
    && (v.Succeeded? ==> read.Ok?)
    && (v.Succeeded? && read.value.None? ==> outcome == NoManifest)
    && (v.Succeeded? && read.value.Some? && outcome != WrongTarget ==> before.current.Some?)
    && (v.Succeeded? && read.value.Some? && before.current.Some? ==>
          outcome == Ruling(read.value.value, target, hash(before.current.value), Last(before), jobs))
    // The state file changes only by recording a manifest that was accepted.
    && (after.saved == before.saved
        || (luck.save.Works? && v.Succeeded? && (outcome.Applied? || outcome.UpToDate?) && read.value.Some?
            && read.value.value.publishedAt > Last(before)
            && after.saved == Some(Record(read.value.value,
                                          if outcome.Applied? then now else before.saved.GetOr(NO_STATE).appliedAt))))
    && (v.Succeeded? && outcome.Applied? && luck.save.Works? ==> after.saved != before.saved)
    && (v.Succeeded? && outcome.UpToDate? && luck.save.Works? ==> read.value.value.publishedAt <= Last(after))
    // The binary changes only into the verified one, by a check that ruled for it.
    && (v.Succeeded? && outcome.Applied? ==> NewInPlace(before, after, read.value.value, luck, hash))
    && (v.Succeeded? && !outcome.Applied? ==> after == before.(saved := after.saved))
    && (v.Failed? ==> OldAtHand(before, after) && (!RestoreFailed(luck) ==> after.current == before.current))
    && (v.Crashed? && !OldAtHand(before, after) ==>
          (luck.save.Dies? && read.Ok? && read.value.Some? && before.current.Some?
             && Ruling(read.value.value, target, hash(before.current.value), Last(before), jobs).Applied?
             && NewInPlace(before, after, read.value.value, luck, hash)))
  }

  /** Exactly when the installation succeeds; the old backup need not be removable. */
  ghost predicate Installable(m: Manifest, luck: Luck, hash: seq<Byte> -> string) {
    && Rebuildable(m.chunks, m.totalBytes, m.sha256, hash, luck.supply)
    && luck.chmod.Works? && luck.smoke(Assembled(luck.supply.chunk, m.chunks))
    && !luck.unlink.Dies? && luck.aside.Works? && luck.place.Works?
  }

  /** Exactly when a check returns an outcome; a state that cannot be saved does not stop it. */
  ghost predicate Completes(before: Disk, read: Result<Option<Manifest>, ()>, target: string, jobs: nat,
                            luck: Luck, hash: seq<Byte> -> string) {
    read.Ok? && read.value.Some? && read.value.value.target == target ==>
      && luck.rehash.Works? && before.current.Some?
      && var m := read.value.value;
         match Ruling(m, target, hash(before.current.value), Last(before), jobs)
         case Applied(_, _) => luck.keyUsable && Installable(m, luck, hash) && !luck.save.Dies?
         case UpToDate => m.publishedAt > Last(before) ==> !luck.save.Dies?
         case NoManifest => true
         case Deferred(_) => true
         case WrongTarget => true
         case NotNewer => true
  }

  class Host {
    const hash: seq<Byte> -> string
    var current: Option<seq<Byte>>
    var backup: Option<seq<Byte>>
    var staged: Option<seq<Byte>>
    var saved: Option<UpdateState>

    constructor (hash: seq<Byte> -> string, disk: Disk)
      ensures this.hash == hash && Files() == disk
    {
      this.hash := hash;
      current, backup, staged, saved := disk.current, disk.backup, disk.staged, disk.saved;
    }

    ghost function Files(): Disk
      reads this
    {
      Disk(current, backup, staged, saved)
    }

    /**
     * Download, test, move the running binary aside, move the new one in. At every point at which
     * the process can die, the old binary is complete in place or aside; on success the new one,
     * verified and tried, is in place; an error leaves the old one in place unless putting it back fails.
     */
    method Install(m: Manifest, luck: Luck) returns (v: Verdict)
      requires current.Some?
      modifies this`current, this`backup, this`staged
      ensures v.Succeeded? <==> Installable(m, luck, hash)
      ensures v.Succeeded? ==> NewInPlace(old(Files()), Files(), m, luck, hash)
      ensures v.Succeeded? ==> current == Some(Assembled(luck.supply.chunk, m.chunks)) && staged == None
      ensures !v.Succeeded? ==> OldAtHand(old(Files()), Files())
      ensures v.Failed? && !RestoreFailed(luck) ==> current == old(current)
    {
      var file;
      v, file := Assemble(m.chunks, m.totalBytes, m.sha256, hash, luck.supply);
      if file.Some? { staged := file; }
      if !v.Succeeded? { return; }
      if luck.chmod.Dies? { return Crashed; }
      if luck.chmod.Errs? || !luck.smoke(staged.value) { return Failed; }
      if luck.unlink.Dies? { return Crashed; }
      if luck.unlink.Works? { backup := None; }
      if luck.aside.Dies? { return Crashed; }
      if luck.aside.Errs? { return Failed; }
      current, backup := None, current;
      if luck.place.Dies? { return Crashed; }
      if luck.place.Errs? {
        if luck.restore.Dies? { return Crashed; }
        if luck.restore.Works? { current, backup := backup, None; }
        return Failed;
      }
      current, staged := staged, None;
      v := Succeeded;
    }

    /** One check of the published manifest; `jobs` was sampled before the manifest was read. */
    method CheckAndApply(read: Result<Option<Manifest>, ()>, target: string, jobs: nat, luck: Luck, now: int)
        returns (v: Verdict, outcome: Outcome)
      modifies this
      ensures CheckStep(old(Files()), Files(), read, target, jobs, luck, now, hash, v, outcome)
      ensures v.Succeeded? <==> read.Ok? && Completes(old(Files()), read, target, jobs, luck, hash)
      ensures read.Err? ==> v.Failed? && Files() == old(Files())
      ensures v.Failed? && luck.discard.Works? && staged.Some? ==> staged == old(staged)
      // Which outcome it is, and what it records.
      ensures v.Succeeded? ==> (outcome == NoManifest <==> read.value.None?)
      ensures v.Succeeded? && read.value.Some? ==>
        var m, last := read.value.value, match old(saved) case Some(state) => state.lastPublishedAt case None => 0;
        && (outcome == WrongTarget <==> m.target != target)
        && (m.target == target ==>
              && old(current).Some?
              && (outcome == UpToDate <==> hash(old(current).value) == m.sha256)
              && (outcome == NotNewer <==> hash(old(current).value) != m.sha256 && m.publishedAt <= last)
              && (outcome == Deferred(jobs) <==> hash(old(current).value) != m.sha256 && m.publishedAt > last && jobs > 0)
              && (outcome == Applied(m.version, m.sha256)
                  <==> hash(old(current).value) != m.sha256 && m.publishedAt > last && jobs == 0)
              && (outcome.Applied? && luck.save.Works? ==>
                    saved == Some(UpdateState(m.publishedAt, m.version, m.sha256, now)))
              && (outcome.UpToDate? && luck.save.Works? && m.publishedAt > last ==>
                    saved.Some? && saved.value.lastPublishedAt == m.publishedAt && saved.value.version == m.version
                    && saved.value.sha256 == m.sha256)
              && (outcome.NotNewer? || outcome.Deferred? ==> saved == old(saved)))
    {
      outcome := NoManifest;
      if read.Err? { return Failed, outcome; }
      if read.value.None? { return Succeeded, outcome; }
      var m := read.value.value;
      if m.target != target { return Succeeded, WrongTarget; }
      if luck.rehash.Dies? { return Crashed, outcome; }
      if luck.rehash.Errs? || current.None? { return Failed, outcome; }
      var state := saved.GetOr(NO_STATE);
      if hash(current.value) == m.sha256 {
        if m.publishedAt > state.lastPublishedAt {
          if luck.save.Dies? { return Crashed, outcome; }
          if luck.save.Works? { saved := Some(Record(m, state.appliedAt)); }
        }
        return Succeeded, UpToDate;
      }
      if m.publishedAt <= state.lastPublishedAt { return Succeeded, NotNewer; }
      if jobs > 0 { return Succeeded, Deferred(jobs); }
      if !luck.keyUsable { return Failed, outcome; }
      v := Install(m, luck);
      if v.Crashed? { return; }
      if v.Failed? {
        if luck.discard.Dies? { return Crashed, outcome; }
        if luck.discard.Works? { staged := None; }
        return;
      }
      if luck.save.Dies? { return Crashed, outcome; }
      if luck.save.Works? { saved := Some(Record(m, now)); }
      v, outcome := Succeeded, Applied(m.version, m.sha256);
    }
  }

  // ---- Runs of checks ----

  /** One check together with the disk before and after it; a restart changes no file. */
  datatype Attempt = Attempt(before: Disk, after: Disk, read: Result<Option<Manifest>, ()>, jobs: nat, luck: Luck, now: int,
                             v: Verdict, outcome: Outcome)

  ghost predicate IsRun(run: seq<Attempt>, target: string, hash: seq<Byte> -> string) {
    && (forall i | 0 <= i < |run| ::
          var t := run[i];
          CheckStep(t.before, t.after, t.read, target, t.jobs, t.luck, t.now, hash, t.v, t.outcome))
    && (forall i | 0 < i < |run| :: run[i].before == run[i - 1].after)
  }

  /** A different binary is in place after the attempt. */
  predicate Replaces(t: Attempt) {
    t.after.current.Some? && t.after.current != t.before.current
  }

  /** The attempt installed its manifest's build or found it installed. */
  predicate Accepts(t: Attempt) {
    t.v.Succeeded? && (t.outcome.Applied? || t.outcome.UpToDate?)
  }

  ghost predicate SavesWork(run: seq<Attempt>) {
    forall t | t in run :: t.luck.save.Works?
  }

  /** The recorded time never goes back, whatever fails. */
  lemma {:induction false} LastNeverFalls(run: seq<Attempt>, target: string, hash: seq<Byte> -> string, i: nat, j: nat)
    requires IsRun(run, target, hash) && i <= j < |run|
    ensures Last(run[i].before) <= Last(run[i].after)
    ensures Last(run[i].after) <= Last(run[j].after)
    decreases j
  {
    if i < j { LastNeverFalls(run, target, hash, i, j - 1); }
  }

  /** An attempt that changes the binary does so for a newer manifest, into that manifest's build. */
  lemma ReplacingIsNewer(run: seq<Attempt>, target: string, hash: seq<Byte> -> string, i: nat)
    requires IsRun(run, target, hash) && i < |run| && Replaces(run[i])
    ensures run[i].read.Ok? && run[i].read.value.Some?
    ensures run[i].read.value.value.publishedAt > Last(run[i].before) && run[i].read.value.value.target == target
    ensures run[i].jobs == 0 && hash(run[i].after.current.value) == run[i].read.value.value.sha256
    ensures run[i].luck.save.Works? ==> Accepts(run[i])
  {
  }

  /**
   * Monotone updates. While state saves work, a binary is only ever replaced for a manifest
   * strictly newer than every one accepted before, and each replacement raises the recorded time.
   */
  lemma MonotoneUpdates(run: seq<Attempt>, target: string, hash: seq<Byte> -> string, i: nat, j: nat)
    requires IsRun(run, target, hash) && SavesWork(run)
    requires i < j < |run| && Replaces(run[j])
    ensures Accepts(run[j]) && Last(run[j].before) < Last(run[j].after)
    ensures Accepts(run[i]) ==> run[i].read.value.Some? && run[i].read.value.value.publishedAt < run[j].read.value.value.publishedAt
    ensures Replaces(run[i]) ==> Accepts(run[i])
  {
    LastNeverFalls(run, target, hash, i, j - 1);
    ReplacingIsNewer(run, target, hash, j);
    if Replaces(run[i]) { ReplacingIsNewer(run, target, hash, i); }
    assert run[i] in run && run[j] in run;
  }

  /**
   * Rollback is closed exactly when the save worked. After a replacement every manifest that is
   * not newer than the one just installed is refused if and only if the state was saved; if it was
   * not, an idle agent rules for each such manifest for its target with another hash that is newer
   * than the record from before.
   */
  lemma RollbackClosedIff(t: Attempt, target: string, hash: seq<Byte> -> string)
    requires CheckStep(t.before, t.after, t.read, target, t.jobs, t.luck, t.now, hash, t.v, t.outcome) && Replaces(t)
    ensures t.read.Ok? && t.read.value.Some?
    ensures (forall older: Manifest, jobs: nat | older.publishedAt <= t.read.value.value.publishedAt ::
               !Ruling(older, target, hash(t.after.current.value), Last(t.after), jobs).Applied?)
       <==> t.luck.save.Works?
    ensures !t.luck.save.Works? ==>
      forall older: Manifest | older.target == target && older.sha256 != t.read.value.value.sha256
                               && Last(t.before) < older.publishedAt <= t.read.value.value.publishedAt ::
        Ruling(older, target, hash(t.after.current.value), Last(t.after), 0) == Applied(older.version, older.sha256)
  {
    ReplacingIsNewer([t], target, hash, 0);
    var m := t.read.value.value;
    if !t.luck.save.Works? {
      var again := m.(sha256 := m.sha256 + "x", target := target);
      assert |again.sha256| != |m.sha256|;
      assert Ruling(again, target, hash(t.after.current.value), Last(t.after), 0).Applied?;
    }
  }

  /** A build published as one chunk. */
  function Offer(build: seq<Byte>, target: string, publishedAt: int, hash: seq<Byte> -> string): Manifest {
    Manifest("", target, "", 1, Saturated(|build|), hash(build), publishedAt)
  }

  /** Everything goes well, except possibly the save. */
  function Smooth(build: seq<Byte>, save: Io): Luck {
    Luck(Works, true, Supply(Works, _ => Found(build), _ => Works, _ => 0, Works), Works, _ => true,
         Works, Works, Works, Works, Works, save)
  }

  /** One idle check that installs `build` over `before`. */
  function Installs(before: Disk, build: seq<Byte>, target: string, publishedAt: int, save: Io, now: int,
                    hash: seq<Byte> -> string): Attempt
  {
    var m := Offer(build, target, publishedAt, hash);
    Attempt(before,
            Disk(Some(build), before.current, None, if save.Works? then Some(Record(m, now)) else before.saved),
            Ok(Some(m)), 0, Smooth(build, save), now, Succeeded, Applied(m.version, m.sha256))
  }

  lemma InstallsIsStep(before: Disk, build: seq<Byte>, target: string, publishedAt: int, save: Io, now: int,
                       hash: seq<Byte> -> string)
    requires before.current.Some? && hash(before.current.value) != hash(build) && publishedAt > Last(before) && !save.Dies?
    ensures var t := Installs(before, build, target, publishedAt, save, now, hash);
      && CheckStep(t.before, t.after, t.read, target, 0, t.luck, now, hash, t.v, t.outcome)
      && Completes(before, t.read, target, 0, t.luck, hash) && Replaces(t)
  {
    var s := Smooth(build, save).supply;
    assert Assembled(s.chunk, 1) == Assembled(s.chunk, 0) + build == build;
  }

  /**
   * The rollback happens: with a failed save a newer build is installed over the first one, and
   * then, from a manifest published before it, an older build over that.
   */
  lemma RollbackHappens(before: Disk, newer: seq<Byte>, older: seq<Byte>, target: string, late: int, early: int,
                        hash: seq<Byte> -> string) returns (run: seq<Attempt>)
    requires before.current.Some? && Last(before) < early < late
    requires hash(before.current.value) != hash(newer) && hash(newer) != hash(older)
    ensures |run| == 2 && IsRun(run, target, hash) && run[0].before == before
    ensures Replaces(run[0]) && run[0].after.current == Some(newer) && run[0].read.value.value.publishedAt == late
    ensures Replaces(run[1]) && run[1].after.current == Some(older) && run[1].read.value.value.publishedAt == early
    ensures Accepts(run[0]) && Accepts(run[1]) && run[0].luck.save.Errs?
    ensures forall t | t in run :: Completes(t.before, t.read, target, t.jobs, t.luck, hash)
  {
    var first := Installs(before, newer, target, late, Errs, 0, hash);
    InstallsIsStep(before, newer, target, late, Errs, 0, hash);
    InstallsIsStep(first.after, older, target, early, Works, 0, hash);
    run := [first, Installs(first.after, older, target, early, Works, 0, hash)];
  }
}
