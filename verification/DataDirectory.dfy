/** The boot guard: a boot counter inside the database file and a copy of it
    beside the file, compared on every boot before anything is migrated. */
module DataDirectory {
  import opened Options

  /** A database file: its boot generation and, in order, the rows committed
      to it. */
  datatype Image = Image(gen: nat, rows: seq<nat>)

  /** A small file as it lies on disk; one not yet synced may tear when the
      process dies. */
  datatype Bytes = Whole(gen: nat) | Torn

  datatype Stored = Stored(bytes: Bytes, synced: bool)

  /** How far a boot has come. */
  datatype Phase = Down | Opened | Verified | Migrated | Advanced | Written | Synced | Serving

  /** `trail` is the database after each commit since its log was last
      checkpointed, the present one last; `baseline` is what it held when the
      last boot was recorded. */
  datatype Dir = Dir(
    trail: seq<Image>, sidecar: Option<Stored>, temp: Option<Stored>, phase: Phase,
    snapshots: seq<Image>, baseline: seq<nat>)

  /** A database that no boot has been recorded for: a fresh one, or one from
      before the guard. */
  function Unguarded(image: Image): Dir { Dir([image], None, None, Down, [], []) }

  const FRESH := Unguarded(Image(0, []))

  function Db(d: Dir): Image
    requires d.trail != []
  {
    d.trail[|d.trail| - 1]
  }

  function Commit(d: Dir, image: Image): Dir { d.(trail := d.trail + [image]) }

  /** VerifyDataDirectory: no sidecar, or one that parses and is not ahead. */
  predicate Accepts(d: Dir, image: Image) {
    d.sidecar.None? || (d.sidecar.value.bytes.Whole? && image.gen >= d.sidecar.value.bytes.gen)
  }

  function Tear(file: Option<Stored>): Option<Stored> {
    match file
    case None => None
    case Some(stored) => if stored.synced then file else Some(Stored(Torn, false))
  }

  // ---- Steps -------------------------------------------------------------

  datatype Step =
    | Open
    | Verify
      /** The snapshot taken before pending migrations. */
    | BackUp
    | Migrate(rows: seq<nat>)
    | SetGeneration
    | WriteTemp
    | SyncTemp
    | Install
    | CommitRow(row: nat)
    | Snapshot
      /** The operator copies the file, at any time; without its log the copy is
          what an earlier commit left. */
    | Copy(commit: nat)
    | Checkpoint
      /** The process dies, or stops; commits survive. */
    | Crash
      /** A failing boot step; it removes its temporary file. */
    | Fail
      /** The machine dies: the database falls back to an earlier commit, as a
          log that is not synced on every commit allows. */
    | PowerLoss(keep: nat)
    | Restore(snapshot: nat)
    | DeleteSidecar

  function Take(d: Dir, step: Step): (r: Dir)
    requires d.trail != []
    ensures r.trail != []
  {
    var db := Db(d);
    match step
    case Open => if d.phase.Down? then d.(phase := Opened) else d
    case Verify => if d.phase.Opened? then d.(phase := if Accepts(d, db) then Verified else Down) else d
    case BackUp => if d.phase.Verified? then d.(snapshots := d.snapshots + [db]) else d
    case Migrate(rows) => if d.phase.Verified? then Commit(d, db.(rows := db.rows + rows)).(phase := Migrated) else d
    case SetGeneration => if d.phase.Migrated? then Commit(d, db.(gen := db.gen + 1)).(phase := Advanced) else d
    case WriteTemp =>
      if d.phase.Advanced? then d.(temp := Some(Stored(Whole(db.gen), false)), phase := Written) else d
    case SyncTemp =>
      if d.phase.Written? && d.temp.Some? then d.(temp := Some(d.temp.value.(synced := true)), phase := Synced) else d
    case Install =>
      if d.phase.Synced? then d.(sidecar := d.temp, temp := None, phase := Serving, baseline := db.rows) else d
    case CommitRow(row) => if d.phase.Serving? then Commit(d, db.(rows := db.rows + [row])) else d
    case Snapshot => if d.phase.Serving? then d.(snapshots := d.snapshots + [db]) else d
    case Copy(t) => if t < |d.trail| then d.(snapshots := d.snapshots + [d.trail[t]]) else d
    case Checkpoint => if d.phase.Serving? then d.(trail := [db]) else d
    case Crash => d.(phase := Down, sidecar := Tear(d.sidecar), temp := Tear(d.temp))
    case Fail => d.(phase := Down, temp := None)
    case PowerLoss(keep) =>
      if keep < |d.trail|
      then d.(phase := Down, sidecar := Tear(d.sidecar), temp := Tear(d.temp), trail := d.trail[..keep + 1])
      else d
    case Restore(k) => if d.phase.Down? && k < |d.snapshots| then d.(trail := [d.snapshots[k]]) else d
    case DeleteSidecar => if d.phase.Down? then d.(sidecar := None) else d
  }

  function Run(d: Dir, steps: seq<Step>): (r: Dir)
    requires d.trail != []
    ensures r.trail != []
    decreases |steps|
  {
    if steps == [] then d else Run(Take(d, steps[0]), steps[1..])
  }

  /** What serving, failing and the operator do to the database and to the
      copies that can come back. */
  lemma DatabaseAfter(d: Dir, step: Step)
    requires d.trail != []
    requires step.CommitRow? || step.Snapshot? || step.Copy? || step.Checkpoint? || step.Crash? || step.Fail?
             || step.PowerLoss? || step.Restore? || step.DeleteSidecar?
    ensures var r, db := Take(d, step), Db(d);
            && Db(r) == (
                 if step.CommitRow? && d.phase.Serving? then Image(db.gen, db.rows + [step.row])
                 else if step.PowerLoss? && step.keep < |d.trail| then d.trail[step.keep]
                 else if step.Restore? && d.phase.Down? && step.snapshot < |d.snapshots| then d.snapshots[step.snapshot]
                 else db)
            && r.snapshots == d.snapshots + (
                 if step.Snapshot? && d.phase.Serving? then [db]
                 else if step.Copy? && step.commit < |d.trail| then [d.trail[step.commit]]
                 else [])
            && r.baseline == d.baseline
            && (step.Crash? || step.Fail? ==> r.phase.Down? && r.trail == d.trail)
            && (step.PowerLoss? && step.keep < |d.trail| ==> r.phase.Down?)
  {
  }

  /** What is left of the small files: one that was synced comes through a
      crash or a power failure whole, one that was not is torn; a boot step that
      fails takes its temporary file away; and only the operator removes the
      sidecar. */
  lemma FilesAfter(d: Dir, step: Step)
    requires d.trail != []
    requires step.Crash? || step.Fail? || step.PowerLoss? || step.Restore? || step.DeleteSidecar?
    ensures var r := Take(d, step);
            && (r.sidecar.None? <==> d.sidecar.None? || (step.DeleteSidecar? && d.phase.Down?))
            && (r.sidecar.Some? && (d.sidecar.value.synced || !(step.Crash? || step.PowerLoss?)) ==> r.sidecar == d.sidecar)
            && (step.Crash? && d.sidecar.Some? && !d.sidecar.value.synced ==> r.sidecar.value.bytes.Torn?)
            && (step.Crash? && d.temp.Some? ==>
                  r.temp.Some? && (if d.temp.value.synced then r.temp == d.temp else r.temp.value.bytes.Torn?))
            && (step.Fail? ==> r.temp.None?)
            && (step.PowerLoss? && step.keep < |d.trail| ==>
                  r.sidecar == Take(d, Crash).sidecar && r.temp == Take(d, Crash).temp)
  {
  }

  /** A crash while the sidecar is rewritten: the old one stays until the new one
      takes its place, which only a synced file does. */
  lemma CrashWhileWriting(d: Dir)
    requires d.trail != [] && d.phase.Advanced? && (d.sidecar.Some? ==> d.sidecar.value.synced)
    ensures var written := Take(d, WriteTemp);
            var synced := Take(written, SyncTemp);
            var installed := Take(synced, Install);
            && Take(written, Install) == written
            && Take(written, Crash).sidecar == d.sidecar && Take(written, Crash).temp == Some(Stored(Torn, false))
            && Take(synced, Crash).sidecar == d.sidecar
            && Take(synced, Crash).temp == Some(Stored(Whole(Db(d).gen), true))
            && Take(installed, Crash).sidecar == Some(Stored(Whole(Db(d).gen), true))
            && Take(installed, Crash).temp.None?
  {
  }

  /** Once the log is checkpointed, no power failure takes anything back. */
  lemma CheckpointHolds(d: Dir, keep: nat)
    requires d.trail != [] && d.phase.Serving?
    ensures Db(Take(Take(d, Checkpoint), PowerLoss(keep))) == Db(d)
  {
  }

  // ---- The invariant -----------------------------------------------------

  /** The last recorded generation; none yet counts as minus one. */
  function Recorded(d: Dir): int {
    if d.sidecar.Some? && d.sidecar.value.bytes.Whole? then d.sidecar.value.bytes.gen else -1
  }

  ghost predicate Booting(d: Dir)
    requires d.trail != []
  {
    match d.phase
    case Down => true
    case Opened => true
    case Verified => Db(d).gen >= Recorded(d)
    case Migrated => Db(d).gen >= Recorded(d)
    case Advanced => Db(d).gen > Recorded(d)
    case Written => Db(d).gen > Recorded(d) && d.temp.Some? && d.temp.value.bytes == Whole(Db(d).gen)
    case Synced => Db(d).gen > Recorded(d) && d.temp == Some(Stored(Whole(Db(d).gen), true))
    case Serving => d.sidecar.Some? && Db(d).gen == Recorded(d)
  }

  /** An image the guard accepts holds everything of the last recorded boot. */
  ghost predicate Covers(d: Dir, image: Image) { image.gen >= Recorded(d) ==> d.baseline <= image.rows }

  /** No snapshot is ahead of a generation. */
  ghost predicate NoneNewer(d: Dir, gen: nat) {
    forall k :: 0 <= k < |d.snapshots| ==> d.snapshots[k].gen <= gen
  }

  /** What every image must satisfy that a restore or a power failure can bring
      back: it covers the baseline, and if the guard accepts it then no snapshot
      is newer, or a boot from it could be recorded under that one's
      generation. */
  ghost predicate Sound(d: Dir, image: Image) {
    Covers(d, image) && (image.gen >= Recorded(d) ==> NoneNewer(d, image.gen))
  }

  /** The commits in the log never go back; once this boot has advanced the
      counter, it is alone at its generation, and the commit before it is one
      that the guard accepts. */
  ghost predicate Ascending(d: Dir)
    requires d.trail != []
  {
    && (forall i, j :: 0 <= i < j < |d.trail| ==> d.trail[i].gen <= d.trail[j].gen)
    && (d.phase.Advanced? || d.phase.Written? || d.phase.Synced? ==>
          && |d.trail| >= 2 && d.trail[|d.trail| - 2].gen >= Recorded(d)
          && (forall i :: 0 <= i < |d.trail| - 1 ==> d.trail[i].gen < Db(d).gen)
          && (forall k :: 0 <= k < |d.snapshots| ==> d.snapshots[k].gen < Db(d).gen))
  }

  ghost predicate Inv(d: Dir) {
    && d.trail != []
    && (d.sidecar.Some? ==> d.sidecar.value.synced && d.sidecar.value.bytes.Whole?)
    && (d.sidecar.None? ==> d.baseline == [])
    && Booting(d)
    && Ascending(d)
    && (forall t :: 0 <= t < |d.trail| ==> Sound(d, d.trail[t]))
    && (forall k :: 0 <= k < |d.snapshots| ==> Sound(d, d.snapshots[k]))
  }

  // ---- When a backup or a copy is safe -----------------------------------

  /** The image that backing up or copying keeps. */
  function Kept(d: Dir, step: Step): Option<Image>
    requires d.trail != []
  {
    if step.BackUp? && d.phase.Verified? then Some(Db(d))
    else if step.Copy? && step.commit < |d.trail| then Some(d.trail[step.commit])
    else None
  }

  /** No image that a restore or a power failure can bring back, and the guard
      would accept, is older than the one to be kept. */
  ghost predicate SafeToKeep(d: Dir, image: Image) {
    && (forall t :: 0 <= t < |d.trail| && Accepts(d, d.trail[t]) ==> image.gen <= d.trail[t].gen)
    && (forall k :: 0 <= k < |d.snapshots| && Accepts(d, d.snapshots[k]) ==> image.gen <= d.snapshots[k].gen)
  }

  /** Everything but deleting the sidecar, and backing up or copying when that
      is not safe. */
  ghost predicate Careful(d: Dir, steps: seq<Step>)
    requires d.trail != []
    decreases |steps|
  {
    steps == [] ||
    (&& !steps[0].DeleteSidecar?
     && (Kept(d, steps[0]).Some? ==> SafeToKeep(d, Kept(d, steps[0]).value))
     && Careful(Take(d, steps[0]), steps[1..]))
  }

  lemma AdvancingKeeps(d: Dir)
    requires Inv(d) && d.phase.Migrated?
    ensures Inv(Take(d, SetGeneration))
  {
    var r := Take(d, SetGeneration);
    assert Sound(d, Db(d));
    forall t | 0 <= t < |r.trail| ensures Sound(r, r.trail[t]) {
      if t < |d.trail| {
        assert Sound(d, d.trail[t]);
      }
    }
    forall k | 0 <= k < |r.snapshots| ensures Sound(r, r.snapshots[k]) {
      assert Sound(d, d.snapshots[k]);
    }
  }

  lemma CommittingKeeps(d: Dir, rows: seq<nat>, phase: Phase)
    requires Inv(d) && Db(d).gen >= Recorded(d)
    requires (d.phase.Verified? && phase.Migrated?) || (d.phase.Serving? && phase.Serving?)
    ensures Inv(Commit(d, Db(d).(rows := Db(d).rows + rows)).(phase := phase))
  {
    var r := Commit(d, Db(d).(rows := Db(d).rows + rows)).(phase := phase);
    assert Sound(d, Db(d));
    assert Sound(r, Db(r));
    forall t | 0 <= t < |r.trail| ensures Sound(r, r.trail[t]) {
      if t < |d.trail| {
        assert Sound(d, d.trail[t]);
      }
    }
    forall k | 0 <= k < |r.snapshots| ensures Sound(r, r.snapshots[k]) {
      assert Sound(d, d.snapshots[k]);
    }
  }

  lemma InstallingKeeps(d: Dir)
    requires Inv(d) && d.phase.Synced?
    ensures Inv(Take(d, Install))
  {
    var r := Take(d, Install);
    forall t | 0 <= t < |r.trail| ensures Sound(r, r.trail[t]) {
      assert r.trail[t].gen >= Recorded(r) ==> t == |r.trail| - 1;
    }
    forall k | 0 <= k < |r.snapshots| ensures Sound(r, r.snapshots[k]) {
      assert r.snapshots[k].gen < Recorded(r);
    }
  }

  /** An image of some commit in the log, kept where that is safe. */
  lemma KeepingKeeps(d: Dir, image: Image)
    requires Inv(d) && Sound(d, image) && SafeToKeep(d, image)
    ensures Inv(d.(snapshots := d.snapshots + [image]))
  {
    var r := d.(snapshots := d.snapshots + [image]);
    if d.phase.Advanced? || d.phase.Written? || d.phase.Synced? {
      assert Accepts(d, d.trail[|d.trail| - 2]);
    }
    forall t | 0 <= t < |r.trail| ensures Sound(r, r.trail[t]) {
      assert Sound(d, d.trail[t]);
      assert Accepts(d, d.trail[t]) <==> d.trail[t].gen >= Recorded(d);
    }
    forall k | 0 <= k < |r.snapshots| ensures Sound(r, r.snapshots[k]) {
      if k < |d.snapshots| {
        assert Sound(d, d.snapshots[k]);
        assert Accepts(d, d.snapshots[k]) <==> d.snapshots[k].gen >= Recorded(d);
      }
    }
  }

  lemma FallingBackKeeps(d: Dir, keep: nat)
    requires Inv(d) && keep < |d.trail|
    ensures Inv(Take(d, PowerLoss(keep)))
  {
    var r := Take(d, PowerLoss(keep));
    forall t | 0 <= t < |r.trail| ensures Sound(r, r.trail[t]) {
      assert r.trail[t] == d.trail[t] && Sound(d, d.trail[t]);
    }
    forall k | 0 <= k < |r.snapshots| ensures Sound(r, r.snapshots[k]) {
      assert Sound(d, d.snapshots[k]);
    }
  }

  /** The same images under the same mark. */
  lemma SameImagesKeep(d: Dir, r: Dir)
    requires Inv(d) && r.trail != [] && Booting(r) && Ascending(r)
    requires r.sidecar == d.sidecar && r.snapshots == d.snapshots && r.baseline == d.baseline
    requires r.trail == d.trail || r.trail == [Db(d)] || exists k :: 0 <= k < |d.snapshots| && r.trail == [d.snapshots[k]]
    ensures Inv(r)
  {
    forall k | 0 <= k < |r.snapshots| ensures Sound(r, r.snapshots[k]) {
      assert Sound(d, d.snapshots[k]);
    }
    forall t | 0 <= t < |r.trail| ensures Sound(r, r.trail[t]) {
      assert r.trail[t] in d.trail || r.trail[t] in d.snapshots;
      assert Sound(d, r.trail[t]);
    }
  }

  /** While the server serves, whatever is in the log is safe to keep. */
  lemma ServingIsSafe(d: Dir, t: nat)
    requires Inv(d) && d.phase.Serving? && t < |d.trail|
    ensures SafeToKeep(d, d.trail[t])
  {
    assert d.trail[t].gen <= Db(d).gen == Recorded(d);
  }

  lemma TakeKeeps(d: Dir, step: Step)
    requires Inv(d) && !step.DeleteSidecar?
    requires Kept(d, step).Some? ==> SafeToKeep(d, Kept(d, step).value)
    ensures Inv(Take(d, step))
  {
    hide Sound;
    match step {
      case BackUp => if d.phase.Verified? { KeepingKeeps(d, Db(d)); }
      case Copy(t) => if t < |d.trail| { KeepingKeeps(d, d.trail[t]); }
      case Snapshot =>
        if d.phase.Serving? {
          ServingIsSafe(d, |d.trail| - 1);
          KeepingKeeps(d, Db(d));
        }
      case Migrate(rows) => if d.phase.Verified? { CommittingKeeps(d, rows, Migrated); }
      case CommitRow(row) => if d.phase.Serving? { CommittingKeeps(d, [row], Serving); }
      case SetGeneration => if d.phase.Migrated? { AdvancingKeeps(d); }
      case Install => if d.phase.Synced? { InstallingKeeps(d); }
      case PowerLoss(keep) => if keep < |d.trail| { FallingBackKeeps(d, keep); }
      case Restore(k) =>
        if d.phase.Down? && k < |d.snapshots| {
          assert Take(d, step).trail == [d.snapshots[k]];
          SameImagesKeep(d, Take(d, step));
        }
      case _ => if !step.DeleteSidecar? { QuietStepKeeps(d, step); }
    }
  }

  /** The steps that neither make an image nor bring one back. */
  lemma QuietStepKeeps(d: Dir, step: Step)
    requires Inv(d)
    requires step.Open? || step.Verify? || step.WriteTemp? || step.SyncTemp?
             || step.Checkpoint? || step.Crash? || step.Fail?
    ensures Inv(Take(d, step))
  {
    hide Sound;
    SameImagesKeep(d, Take(d, step));
  }

  lemma {:induction false} RunKeeps(d: Dir, steps: seq<Step>)
    requires Inv(d) && Careful(d, steps)
    ensures Inv(Run(d, steps))
    decreases |steps|
  {
    if steps != [] {
      hide Inv, Take, Kept, SafeToKeep;
      TakeKeeps(d, steps[0]);
      RunKeeps(Take(d, steps[0]), steps[1..]);
    }
  }

  lemma UnguardedHolds(image: Image)
    ensures Inv(Unguarded(image))
  {
    assert Sound(Unguarded(image), image);
  }

  /** Whatever the guard accepts, the present database, a snapshot or a commit
      that a power failure falls back to, holds every row that the database
      held when the last boot was recorded. */
  ghost predicate AcceptedHold(d: Dir)
    requires d.trail != []
  {
    && (forall t :: 0 <= t < |d.trail| && Accepts(d, d.trail[t]) ==> d.baseline <= d.trail[t].rows)
    && (forall k :: 0 <= k < |d.snapshots| && Accepts(d, d.snapshots[k]) ==> d.baseline <= d.snapshots[k].rows)
  }

  lemma InvHolds(d: Dir)
    requires Inv(d)
    ensures AcceptedHold(d)
  {
    forall t | 0 <= t < |d.trail| && Accepts(d, d.trail[t]) ensures d.baseline <= d.trail[t].rows {
      assert Sound(d, d.trail[t]);
    }
    forall k | 0 <= k < |d.snapshots| && Accepts(d, d.snapshots[k]) ensures d.baseline <= d.snapshots[k].rows {
      assert Sound(d, d.snapshots[k]);
    }
  }

  /** In every run of boots, crashes at any boot step, power failures, snapshots
      taken while serving, backups and copies made where that is safe, at any
      stage and of any commit in the log, and restores, from any database: what
      the guard accepts holds the baseline, and the sidecar is never torn. */
  lemma {:induction false} AcceptedHoldsTheBaseline(image: Image, steps: seq<Step>)
    requires Careful(Unguarded(image), steps)
    ensures var d := Run(Unguarded(image), steps);
            AcceptedHold(d) && (d.sidecar.Some? ==> d.sidecar.value.bytes.Whole?)
  {
    UnguardedHolds(image);
    RunKeeps(Unguarded(image), steps);
    InvHolds(Run(Unguarded(image), steps));
  }

  /** A server only serves, and only commits, on a database that passed. */
  lemma {:induction false} ServingHoldsTheBaseline(image: Image, steps: seq<Step>)
    requires Careful(Unguarded(image), steps)
    ensures var d := Run(Unguarded(image), steps);
            d.phase.Serving? ==> d.baseline <= Db(d).rows && Db(d).gen == Recorded(d)
  {
    UnguardedHolds(image);
    RunKeeps(Unguarded(image), steps);
    assert Sound(Run(Unguarded(image), steps), Db(Run(Unguarded(image), steps)));
  }

  // ---- Without restores --------------------------------------------------

  ghost predicate Ahead(d: Dir) {
    && d.trail != []
    && (d.sidecar.Some? ==> d.sidecar.value.synced && d.sidecar.value.bytes.Whole?)
    && Booting(d)
    && Db(d).gen >= Recorded(d)
  }

  lemma {:induction false} NoRestoreStaysAhead(d: Dir, steps: seq<Step>)
    requires Ahead(d)
    requires forall s :: s in steps ==> !s.Restore? && !s.PowerLoss?
    ensures Ahead(Run(d, steps))
    decreases |steps|
  {
    if steps != [] {
      assert steps[0] in steps;
      assert Ahead(Take(d, steps[0]));
      hide Take;
      NoRestoreStaysAhead(Take(d, steps[0]), steps[1..]);
    }
  }

  /** With no restore and no power failure the guard never refuses a boot,
      wherever earlier boots crashed, and whatever was backed up or deleted. */
  lemma {:induction false} NoRestoreNoRefusal(image: Image, steps: seq<Step>)
    requires forall s :: s in steps ==> !s.Restore? && !s.PowerLoss?
    ensures var d := Run(Unguarded(image), steps);
            d.phase.Opened? ==> Take(d, Verify).phase.Verified?
  {
    NoRestoreStaysAhead(Unguarded(image), steps);
  }

  // ---- What the guard cannot see -----------------------------------------

  /** Runs that take their images while serving only. */
  lemma {:induction false} SnapshotsAreRecorded(d: Dir, steps: seq<Step>)
    requires Inv(d) && forall k :: 0 <= k < |d.snapshots| ==> d.snapshots[k].gen <= Recorded(d)
    requires forall s :: s in steps ==> !s.BackUp? && !s.Copy? && !s.DeleteSidecar?
    ensures Inv(Run(d, steps))
    ensures forall k :: 0 <= k < |Run(d, steps).snapshots| ==> Run(d, steps).snapshots[k].gen <= Recorded(Run(d, steps))
    decreases |steps|
  {
    if steps != [] {
      assert steps[0] in steps;
      TakeKeeps(d, steps[0]);
      assert forall k :: 0 <= k < |Take(d, steps[0]).snapshots| ==>
          Take(d, steps[0]).snapshots[k].gen <= Recorded(Take(d, steps[0]));
      hide Take, Inv;
      SnapshotsAreRecorded(Take(d, steps[0]), steps[1..]);
    }
  }

  /** A restored snapshot is accepted exactly when it was taken since the last
      recorded boot; what an accepted one loses was committed after that. */
  lemma {:induction false} SameGenerationRestore(image: Image, steps: seq<Step>, k: nat)
    requires forall s :: s in steps ==> !s.BackUp? && !s.Copy? && !s.DeleteSidecar?
    ensures var d := Run(Unguarded(image), steps);
            var restored := Take(d, Restore(k));
            d.phase.Down? && k < |d.snapshots| ==>
            && (Accepts(restored, Db(restored)) <==> d.snapshots[k].gen == Recorded(d))
            && (Accepts(restored, Db(restored)) ==> d.baseline <= Db(restored).rows)
  {
    UnguardedHolds(image);
    SnapshotsAreRecorded(Unguarded(image), steps);
    InvHolds(Run(Unguarded(image), steps));
  }

  /** A boot that brings in some rows by migration. */
  function Boot(rows: seq<nat>): seq<Step> {
    [Open] + ([Verify] + ([Migrate(rows)] + ([SetGeneration] + ([WriteTemp] + ([SyncTemp] + ([Install] + []))))))
  }

  lemma {:induction false} Unroll(d: Dir, step: Step, others: seq<Step>)
    requires d.trail != []
    ensures Run(d, [step] + others) == Run(Take(d, step), others)
  {
    hide Take;
    assert ([step] + others)[1..] == others;
  }

  lemma {:induction false} BootRuns(d: Dir, rows: seq<nat>)
    requires d.trail != []
    ensures Run(d, Boot(rows))
         == Take(Take(Take(Take(Take(Take(Take(
              d, Open), Verify), Migrate(rows)), SetGeneration), WriteTemp), SyncTemp), Install)
  {
    hide Take;
    var d1 := Take(d, Open);
    var d2 := Take(d1, Verify);
    var d3 := Take(d2, Migrate(rows));
    var d4 := Take(d3, SetGeneration);
    var d5 := Take(d4, WriteTemp);
    var d6 := Take(d5, SyncTemp);
    var s6 := [Install] + [];
    var s5 := [SyncTemp] + s6;
    var s4 := [WriteTemp] + s5;
    var s3 := [SetGeneration] + s4;
    var s2 := [Migrate(rows)] + s3;
    var s1 := [Verify] + s2;
    Unroll(d, Open, s1);
    Unroll(d1, Verify, s2);
    Unroll(d2, Migrate(rows), s3);
    Unroll(d3, SetGeneration, s4);
    Unroll(d4, WriteTemp, s5);
    Unroll(d5, SyncTemp, s6);
    Unroll(d6, Install, []);
    hide Run;
    RunNothing(Take(d6, Install));
  }

  lemma {:induction false} RunNothing(d: Dir)
    requires d.trail != []
    ensures Run(d, []) == d
  {
  }

  /** A whole boot, on any database that is accepted. */
  lemma {:induction false} BootRecords(d: Dir, rows: seq<nat>)
    requires d.trail != [] && d.phase.Down? && Accepts(d, Db(d))
    ensures var booted := Run(d, Boot(rows));
            && booted.phase.Serving?
            && Db(booted) == Image(Db(d).gen + 1, Db(d).rows + rows)
            && booted.sidecar == Some(Stored(Whole(Db(d).gen + 1), true))
            && booted.baseline == Db(d).rows + rows && booted.snapshots == d.snapshots
            && d.trail <= booted.trail
  {
    BootRuns(d, rows);
    var verified := Take(Take(d, Open), Verify);
    assert verified == d.(phase := Verified);
    var migrated := Take(verified, Migrate(rows));
    assert migrated == Commit(d, Image(Db(d).gen, Db(d).rows + rows)).(phase := Migrated);
    var advanced := Take(migrated, SetGeneration);
    var synced := Take(Take(advanced, WriteTemp), SyncTemp);
    assert synced.phase.Synced? && synced.trail == advanced.trail;
    hide Run, Accepts, Boot;
  }

  /** A row committed after a snapshot of the same boot is lost to a restore of
      it, and the next boot does not notice. */
  lemma SameGenerationRestoreGoesUnseen()
    ensures var served := Run(FRESH, Boot([]));
            var d := Take(Take(Take(Take(served, Snapshot), CommitRow(1)), Crash), Restore(0));
            && 1 in Db(Take(Take(served, Snapshot), CommitRow(1))).rows
            && Accepts(d, Db(d)) && 1 !in Db(d).rows
  {
    hide Run, Boot;
    BootRecords(FRESH, []);
  }

  /** Deleting the sidecar accepts any database once: the next boot records a
      new mark, and anything older is refused again. */
  lemma EscapeHatchIsOneShot(d: Dir, older: Image)
    requires d.trail != [] && d.phase.Down? && older.gen <= Db(d).gen
    ensures var hatched := Take(d, DeleteSidecar);
            Accepts(hatched, Db(hatched)) && !Accepts(Run(hatched, Boot([])), older)
  {
    hide Run, Boot;
    BootRecords(Take(d, DeleteSidecar), []);
  }

  /** After a power failure the guard refuses exactly when the database fell
      back behind the recorded boot: its commits need not have reached the disk
      when the sidecar, which is synced, did. */
  lemma PowerLossRefuses(d: Dir, keep: nat)
    requires Inv(d) && keep < |d.trail|
    ensures var lost := Take(d, PowerLoss(keep));
            && (Accepts(lost, Db(lost)) <==> d.trail[keep].gen >= Recorded(d))
            && (Accepts(lost, Db(lost)) ==> lost.baseline <= Db(lost).rows)
  {
  }

  /** So a first boot followed by a power failure can leave a directory that
      refuses to start although nothing was ever restored. */
  lemma PowerLossCanRefuse()
    ensures var lost := Take(Run(FRESH, Boot([])), PowerLoss(0));
            !Accepts(lost, Db(lost))
  {
    hide Run, Boot;
    BootRecords(FRESH, []);
  }

  /** A boot that dies after it has advanced the header, and one that dies after
      its backup. */
  function DiesAdvanced(d: Dir): (r: Dir)
    requires d.trail != []
    ensures r.trail != []
  {
    Take(Take(Take(Take(Take(d, Open), Verify), Migrate([])), SetGeneration), Crash)
  }

  function DiesBackedUp(d: Dir): (r: Dir)
    requires d.trail != []
    ensures r.trail != []
  {
    Take(Take(Take(Take(d, Open), Verify), BackUp), Crash)
  }

  lemma SnapshotAndStop(d: Dir)
    requires d.trail != [] && d.phase.Serving? && d.sidecar.Some? && d.sidecar.value.synced
    ensures var r := Take(Take(d, Snapshot), Crash);
            r.phase.Down? && r.trail == d.trail && r.sidecar == d.sidecar && r.snapshots == d.snapshots + [Db(d)]
  {
  }

  lemma RestoringFirst(d: Dir)
    requires d.trail != [] && d.phase.Down? && d.snapshots != []
    ensures Take(d, Restore(0)) == d.(trail := [d.snapshots[0]])
  {
  }

  lemma DyingKeeps(d: Dir)
    requires d.trail != [] && d.phase.Down? && Accepts(d, Db(d))
    requires d.sidecar.Some? ==> d.sidecar.value.synced
    ensures var r := DiesAdvanced(d);
            r.phase.Down? && Db(r) == Image(Db(d).gen + 1, Db(d).rows) && r.sidecar == d.sidecar
                && r.snapshots == d.snapshots
    ensures var r := DiesBackedUp(d);
            r.phase.Down? && Db(r) == Db(d) && r.sidecar == d.sidecar && r.snapshots == d.snapshots + [Db(d)]
  {
    assert Db(d).rows + [] == Db(d).rows;
    var verified := Take(Take(d, Open), Verify);
    assert verified == d.(phase := Verified);
    hide Accepts;
  }

  /** The backup taken before migrations carries the generation of a boot that
      may never have been recorded. When another boot, after a restore, is
      recorded under that generation, the backup passes without holding what
      that boot recorded. */
  lemma BackupCanPass()
    ensures var served := Take(Take(Run(FRESH, Boot([])), Snapshot), Crash);
            var restored := Take(DiesBackedUp(DiesAdvanced(served)), Restore(0));
            var d := Run(restored, Boot([7]));
            && |d.snapshots| == 2
            && Accepts(d, d.snapshots[1]) && !(d.baseline <= d.snapshots[1].rows)
  {
    hide Take, Run, Boot, DiesAdvanced, DiesBackedUp;
    BootRecords(FRESH, []);
    var served := Take(Take(Run(FRESH, Boot([])), Snapshot), Crash);
    SnapshotAndStop(Run(FRESH, Boot([])));
    DyingKeeps(served);
    var advanced := DiesAdvanced(served);
    DyingKeeps(advanced);
    var restored := Take(DiesBackedUp(advanced), Restore(0));
    RestoringFirst(DiesBackedUp(advanced));
    assert Db(restored) == Image(1, []) && restored.snapshots == [Image(1, []), Image(2, [])];
    BootRecords(restored, [7]);
    assert [] + [7] == [7];
  }

  lemma {:induction false} WithoutBackUpsCareful(d: Dir, steps: seq<Step>)
    requires d.trail != [] && forall s :: s in steps ==> !s.BackUp? && !s.Copy? && !s.DeleteSidecar?
    ensures Careful(d, steps)
    decreases |steps|
  {
    if steps != [] {
      assert steps[0] in steps;
      hide Take;
      WithoutBackUpsCareful(Take(d, steps[0]), steps[1..]);
    }
  }

  /** A row that is not where the present database would have it. */
  function OtherRow(db: Image, older: Image): nat {
    if |older.rows| < |db.rows| then db.rows[|older.rows|] + 1 else 0
  }

  /** Boot from an older image that the guard accepts, bring in a row: the boot
      is recorded at a generation that the backup already carries, and the
      backup does not have the row. */
  lemma {:induction false} BootedFromOlder(d: Dir, db: Image, k: nat)
    requires d.trail != [] && d.phase.Down? && Accepts(d, Db(d)) && Db(d).gen < db.gen
    requires k < |d.snapshots| && d.snapshots[k] == db
    ensures var booted := Run(d, Boot([OtherRow(db, Db(d))]));
            !AcceptedHold(booted)
  {
    hide Take, Run, Boot;
    var row := OtherRow(db, Db(d));
    BootRecords(d, [row]);
    var booted := Run(d, Boot([row]));
    assert Accepts(booted, booted.snapshots[k]);
    assert booted.baseline[|Db(d).rows|] == row;
    assert !(booted.baseline <= db.rows);
  }

  /** A way from an image kept where it is not safe to its passing the guard
      without the baseline: bring back the older image, and boot. */
  lemma UnsafeBackUpPasses(d: Dir, image: Image) returns (steps: seq<Step>)
    requires Inv(d) && !SafeToKeep(d, image)
    ensures var kept := d.(snapshots := d.snapshots + [image]);
            Careful(kept, steps) && !AcceptedHold(Run(kept, steps))
  {
    hide Run, AcceptedHold, Careful, Accepts;
    if k: nat :| k < |d.snapshots| && Accepts(d, d.snapshots[k]) && d.snapshots[k].gen < image.gen {
      steps := PassesBySnapshot(d, image, k);
    } else {
      var t: nat :| t < |d.trail| && Accepts(d, d.trail[t]) && d.trail[t].gen < image.gen;
      steps := PassesByPowerLoss(d, image, t);
    }
    WithoutBackUpsCareful(d.(snapshots := d.snapshots + [image]), steps);
  }

  lemma PassesBySnapshot(d: Dir, image: Image, k: nat) returns (steps: seq<Step>)
    requires d.trail != [] && (d.sidecar.Some? ==> d.sidecar.value.synced)
    requires k < |d.snapshots| && Accepts(d, d.snapshots[k]) && d.snapshots[k].gen < image.gen
    ensures !AcceptedHold(Run(d.(snapshots := d.snapshots + [image]), steps))
    ensures forall s :: s in steps ==> !s.BackUp? && !s.Copy? && !s.DeleteSidecar?
  {
    hide Run, AcceptedHold, OtherRow;
    var boot := Boot([OtherRow(image, d.snapshots[k])]);
    steps := [Crash] + ([Restore(k)] + boot);
    assert forall s :: s in steps ==> !s.BackUp? && !s.Copy? && !s.DeleteSidecar?;
    hide Boot;
    var kept := d.(snapshots := d.snapshots + [image]);
    var down := Take(kept, Crash);
    var restored := Take(down, Restore(k));
    assert down.sidecar == d.sidecar && down.phase.Down? && down.snapshots == d.snapshots + [image];
    assert restored.trail == [d.snapshots[k]] && restored.sidecar == d.sidecar;
    hide Take;
    BootedFromOlder(restored, image, |d.snapshots|);
    Unroll(kept, Crash, [Restore(k)] + boot);
    Unroll(down, Restore(k), boot);
  }

  lemma PassesByPowerLoss(d: Dir, image: Image, t: nat) returns (steps: seq<Step>)
    requires d.sidecar.Some? ==> d.sidecar.value.synced
    requires t < |d.trail| && Accepts(d, d.trail[t]) && d.trail[t].gen < image.gen
    ensures !AcceptedHold(Run(d.(snapshots := d.snapshots + [image]), steps))
    ensures forall s :: s in steps ==> !s.BackUp? && !s.Copy? && !s.DeleteSidecar?
  {
    hide Run, AcceptedHold, OtherRow;
    var boot := Boot([OtherRow(image, d.trail[t])]);
    steps := [PowerLoss(t)] + boot;
    assert forall s :: s in steps ==> !s.BackUp? && !s.Copy? && !s.DeleteSidecar?;
    hide Boot;
    var kept := d.(snapshots := d.snapshots + [image]);
    var lost := Take(kept, PowerLoss(t));
    assert Db(lost) == d.trail[t] && lost.sidecar == d.sidecar && lost.snapshots == d.snapshots + [image];
    hide Take;
    BootedFromOlder(lost, image, |d.snapshots|);
    Unroll(kept, PowerLoss(t), boot);
  }

  /** The exact condition, checkable before the backup is taken or the copy
      made: it is safe, for ever, if and only if no image that can be brought
      back and would be accepted is older than the one kept. In particular it
      is safe on a database at the recorded generation or behind it, and so
      whenever the server is up. */
  lemma BackUpIsSafeIff(d: Dir, step: Step)
    requires Inv(d) && Kept(d, step).Some?
    ensures var kept := Take(d, step);
            SafeToKeep(d, Kept(d, step).value)
            <==> forall steps: seq<Step> :: Careful(kept, steps) ==> AcceptedHold(Run(kept, steps))
    ensures Kept(d, step).value.gen <= Recorded(d) || d.phase.Serving? ==> SafeToKeep(d, Kept(d, step).value)
  {
    var image := Kept(d, step).value;
    var kept := Take(d, step);
    assert kept == d.(snapshots := d.snapshots + [image]);
    if d.phase.Serving? {
      ServingIsSafe(d, step.commit);
    }
    if SafeToKeep(d, image) {
      TakeKeeps(d, step);
      hide Take, Inv, AcceptedHold, Careful;
      forall steps: seq<Step> | Careful(kept, steps) ensures AcceptedHold(Run(kept, steps)) {
        RunKeeps(kept, steps);
        InvHolds(Run(kept, steps));
      }
    } else {
      var steps := UnsafeBackUpPasses(d, image);
    }
  }

  // ---- The boot sequence -------------------------------------------------

  /** Where recording the new mark fails, if it does. */
  datatype Fault = NoFault | HeaderFails | CreateFails | WriteFails | SyncFails | RenameFails

  /** What ends a boot before that: reading the sidecar or the header, backing
      up, or migrating. */
  datatype BootStop = NoBootStop | ReadFails | BackUpFails | MigrationFails

  function WriteSteps(fault: Fault): seq<Step> {
    match fault
    case CreateFails => [Fail] + []
    case WriteFails => [WriteTemp] + ([Fail] + [])
    case SyncFails => [WriteTemp] + ([Fail] + [])
    case RenameFails => [WriteTemp] + ([SyncTemp] + ([Fail] + []))
    case _ => [WriteTemp] + ([SyncTemp] + ([Install] + []))
  }

  function RecordSteps(fault: Fault): seq<Step> {
    if fault.HeaderFails? then [Fail] + [] else [SetGeneration] + WriteSteps(fault)
  }

  /** What a boot does once it has opened the database. With migrations pending
      on a database that has had some, it backs up first; `rows` are what its
      migrations bring in, those before the failing one if one fails. */
  function BootSteps(rows: seq<nat>, pending: bool, stop: BootStop, fault: Fault): seq<Step> {
    if stop.ReadFails? then [Fail] + [] else [Verify] + UpgradeSteps(rows, pending, stop, fault)
  }

  function UpgradeSteps(rows: seq<nat>, pending: bool, stop: BootStop, fault: Fault): seq<Step> {
    if pending && stop.BackUpFails? then [Fail] + []
    else if pending then [BackUp] + MigrateSteps(rows, stop, fault)
    else MigrateSteps(rows, stop, fault)
  }

  function MigrateSteps(rows: seq<nat>, stop: BootStop, fault: Fault): seq<Step> {
    [Migrate(rows)] + (if stop.MigrationFails? then [Fail] + [] else RecordSteps(fault))
  }

  predicate UpgradeStops(pending: bool, stop: BootStop) { stop.MigrationFails? || (pending && stop.BackUpFails?) }

  /** Where the upgrade leads; a boot that it does not end goes on to record. */
  function Upgraded(d: Dir, rows: seq<nat>, pending: bool, stop: BootStop): (r: Dir)
    requires d.trail != []
    ensures r.trail != []
  {
    if pending && stop.BackUpFails? then Take(d, Fail)
    else
      var migrated := Take(if pending then Take(d, BackUp) else d, Migrate(rows));
      if stop.MigrationFails? then Take(migrated, Fail) else migrated
  }

  lemma {:induction false} UpgradingRuns(d: Dir, rows: seq<nat>, pending: bool, stop: BootStop, fault: Fault)
    requires d.trail != []
    ensures Run(d, UpgradeSteps(rows, pending, stop, fault))
         == if UpgradeStops(pending, stop) then Upgraded(d, rows, pending, stop)
            else Run(Upgraded(d, rows, pending, stop), RecordSteps(fault))
  {
    hide Take, Run, RecordSteps;
    if pending && stop.BackUpFails? {
      FailingStops(d);
    } else {
      var backed := if pending then Take(d, BackUp) else d;
      if pending {
        Unroll(d, BackUp, MigrateSteps(rows, stop, fault));
      }
      Unroll(backed, Migrate(rows), if stop.MigrationFails? then [Fail] + [] else RecordSteps(fault));
      FailingStops(Take(backed, Migrate(rows)));
    }
  }

  /** A failing step is the boot's last. */
  lemma {:induction false} FailingStops(d: Dir)
    requires d.trail != []
    ensures Run(d, [Fail] + []) == Take(d, Fail)
  {
    hide Take, Run;
    Unroll(d, Fail, []);
    RunNothing(Take(d, Fail));
  }

  lemma {:induction false} WritingStops(d: Dir)
    requires d.trail != []
    ensures Run(d, [WriteTemp] + ([Fail] + [])) == Take(Take(d, WriteTemp), Fail)
  {
    hide Take, Run;
    Unroll(d, WriteTemp, [Fail] + []);
    Unroll(Take(d, WriteTemp), Fail, []);
    RunNothing(Take(Take(d, WriteTemp), Fail));
  }

  /** Where the steps of writing the sidecar lead, one after another. */
  lemma {:induction false} WritingRuns(d: Dir, fault: Fault)
    requires d.trail != [] && !fault.HeaderFails?
    ensures Run(d, WriteSteps(fault))
         == match fault
            case CreateFails => Take(d, Fail)
            case WriteFails => Take(Take(d, WriteTemp), Fail)
            case SyncFails => Take(Take(d, WriteTemp), Fail)
            case RenameFails => Take(Take(Take(d, WriteTemp), SyncTemp), Fail)
            case NoFault => Take(Take(Take(d, WriteTemp), SyncTemp), Install)
  {
    hide Take, Run;
    var written := Take(d, WriteTemp);
    var synced := Take(written, SyncTemp);
    match fault {
      case CreateFails =>
        Unroll(d, Fail, []);
        RunNothing(Take(d, Fail));
      case RenameFails =>
        Unroll(d, WriteTemp, [SyncTemp] + ([Fail] + []));
        Unroll(written, SyncTemp, [Fail] + []);
        Unroll(synced, Fail, []);
        RunNothing(Take(synced, Fail));
      case NoFault =>
        Unroll(d, WriteTemp, [SyncTemp] + ([Install] + []));
        Unroll(written, SyncTemp, [Install] + []);
        Unroll(synced, Install, []);
        RunNothing(Take(synced, Install));
      case WriteFails => WritingStops(d);
      case SyncFails => WritingStops(d);
    }
  }

  // ---- Rolling an upgrade back -------------------------------------------

  /** Where recording leads: to a server at the next generation, or, with the
      sidecar as it was, nowhere. */
  lemma {:induction false} RecordingEnds(d: Dir, fault: Fault)
    requires d.trail != [] && d.phase.Migrated?
    ensures var r := Run(d, RecordSteps(fault));
            && r.snapshots == d.snapshots
            && if fault.NoFault? then r.phase.Serving? && r.sidecar == Some(Stored(Whole(Db(d).gen + 1), true))
               else r.phase.Down? && r.sidecar == d.sidecar
  {
    hide Run, WriteSteps;
    if fault.HeaderFails? {
      FailingStops(d);
    } else {
      Unroll(d, SetGeneration, WriteSteps(fault));
      WritingRuns(Take(d, SetGeneration), fault);
    }
  }

  /** What a server does until it stops leaves the sidecar, and adds to the
      snapshots. */
  lemma {:induction false} ServingLeaves(d: Dir, steps: seq<Step>)
    requires d.trail != [] && forall s :: s in steps ==> s.CommitRow? || s.Snapshot? || s.Checkpoint?
    ensures Run(d, steps).sidecar == d.sidecar && d.snapshots <= Run(d, steps).snapshots
    decreases |steps|
  {
    if steps != [] {
      assert steps[0] in steps;
      ServingLeaves(Take(d, steps[0]), steps[1..]);
    }
  }

  /** An upgrade, from its backup on: it migrates, records, serves for a while
      and stops, and the backup is put back. */
  function RolledBack(d: Dir, rows: seq<nat>, fault: Fault, served: seq<Step>): (r: Dir)
    requires d.trail != []
    ensures r.trail != []
  {
    var upgraded := Run(Take(Take(d, BackUp), Migrate(rows)), RecordSteps(fault));
    Take(Take(Run(upgraded, served), Crash), Restore(|d.snapshots|))
  }

  /** The backup is what the database was, but the guard takes it exactly when
      the upgrade never got as far as being recorded; after that only by
      deleting the sidecar. */
  lemma {:induction false} RollbackAcceptedIff(d: Dir, rows: seq<nat>, fault: Fault, served: seq<Step>)
    requires Inv(d) && d.phase.Verified?
    requires forall s :: s in served ==> s.CommitRow? || s.Snapshot? || s.Checkpoint?
    ensures var back := RolledBack(d, rows, fault, served);
            && back.phase.Down? && back.trail == [Db(d)]
            && (Accepts(back, Db(back)) <==> !fault.NoFault?)
            && Accepts(Take(back, DeleteSidecar), Db(back))
  {
    hide Run;
    var migrated := Take(Take(d, BackUp), Migrate(rows));
    assert migrated.snapshots == d.snapshots + [Db(d)] && migrated.sidecar == d.sidecar;
    RecordingEnds(migrated, fault);
    ServingLeaves(Run(migrated, RecordSteps(fault)), served);
  }

  /** A directory that has not fallen behind a generation, and has the sidecar
      it had then, or one that is ahead of it. */
  ghost predicate NotBehind(d: Dir, gen: nat, sidecar: Option<Stored>) {
    && Ahead(d) && Db(d).gen >= gen
    && (d.phase.Advanced? || d.phase.Written? || d.phase.Synced? ==> Db(d).gen > gen)
    && (d.sidecar == sidecar || Recorded(d) > gen)
  }

  lemma {:induction false} StaysNotBehind(d: Dir, steps: seq<Step>, gen: nat, sidecar: Option<Stored>)
    requires NotBehind(d, gen, sidecar)
    requires forall s :: s in steps ==> !s.Restore? && !s.PowerLoss? && !s.DeleteSidecar?
    ensures NotBehind(Run(d, steps), gen, sidecar) && d.snapshots <= Run(d, steps).snapshots
    decreases |steps|
  {
    if steps != [] {
      assert steps[0] in steps;
      StepNotBehind(d, steps[0], gen, sidecar);
      hide NotBehind, Take;
      StaysNotBehind(Take(d, steps[0]), steps[1..], gen, sidecar);
    }
  }

  lemma StepNotBehind(d: Dir, step: Step, gen: nat, sidecar: Option<Stored>)
    requires NotBehind(d, gen, sidecar) && !step.Restore? && !step.PowerLoss? && !step.DeleteSidecar?
    ensures NotBehind(Take(d, step), gen, sidecar) && d.snapshots <= Take(d, step).snapshots
  {
  }

  /** However an upgrade goes, through crashes, failures and any number of later
      boots, the backup can be put back exactly until one of them has been
      recorded. */
  lemma {:induction false} RollbackUntilRecorded(d: Dir, steps: seq<Step>)
    requires Inv(d) && d.phase.Verified?
    requires forall s :: s in steps ==> !s.Restore? && !s.PowerLoss? && !s.DeleteSidecar?
    ensures var upgraded := Run(Take(d, BackUp), steps);
            var back := Take(upgraded, Restore(|d.snapshots|));
            upgraded.phase.Down? ==>
              back.trail == [Db(d)] && (Accepts(back, Db(back)) <==> upgraded.sidecar == d.sidecar)
  {
    var kept := Take(d, BackUp);
    assert kept.snapshots[|d.snapshots|] == Db(d);
    StaysNotBehind(kept, steps, Db(d).gen, d.sidecar);
    hide Run;
  }

  /** A server that has booted once, stopped, and is booting again. */
  function Rebooting(): (d: Dir)
    ensures d.trail != []
  {
    Take(Take(Take(Run(FRESH, Boot([])), Crash), Open), Verify)
  }

  lemma BootedHolds()
    ensures Inv(Run(FRESH, Boot([])))
  {
    assert forall s :: s in Boot([]) ==> !s.BackUp? && !s.Copy? && !s.DeleteSidecar?;
    hide Run, Inv, Boot, Take;
    UnguardedHolds(Image(0, []));
    WithoutBackUpsCareful(FRESH, Boot([]));
    RunKeeps(FRESH, Boot([]));
  }

  lemma RebootingHolds()
    ensures Inv(Rebooting()) && Rebooting().phase.Verified?
  {
    hide Run, Inv, Boot;
    BootedHolds();
    BootRecords(FRESH, []);
    var served := Run(FRESH, Boot([]));
    TakeKeeps(served, Crash);
    TakeKeeps(Take(served, Crash), Open);
    TakeKeeps(Take(Take(served, Crash), Open), Verify);
  }

  /** So its first upgrade cannot be rolled back by restoring the file that was
      left for that. */
  lemma RollbackRefused()
    ensures var back := RolledBack(Rebooting(), [7], NoFault, []);
            back.trail == [Db(Rebooting())] && !Take(Take(back, Open), Verify).phase.Verified?
  {
    RebootingHolds();
    hide Inv, RolledBack, Rebooting;
    RollbackAcceptedIff(Rebooting(), [7], NoFault, []);
  }

  class Directory {
    var trail: seq<Image>
    var sidecar: Option<Stored>
    var temp: Option<Stored>
    ghost var phase: Phase
    ghost var snapshots: seq<Image>
    ghost var baseline: seq<nat>

    ghost function View(): Dir
      reads this
    {
      Dir(trail, sidecar, temp, phase, snapshots, baseline)
    }

    method VerifyDataDirectory(readFails: bool) returns (ok: bool)
      requires trail != [] && phase.Opened?
      modifies `temp, `phase
      ensures View() == Take(old(View()), if readFails then Fail else Verify)
      ensures ok <==> phase.Verified?
    {
      if readFails {
        GiveUp();
        return false;
      }
      phase := Down;
      if sidecar.Some? {
        if sidecar.value.bytes.Torn? {
          return false;
        }
        var generation := trail[|trail| - 1].gen;
        if generation < sidecar.value.bytes.gen {
          return false;
        }
      }
      phase := Verified;
      return true;
    }

    /** Fails closed: without a backup nothing is migrated. */
    method RunMigrations(rows: seq<nat>, pending: bool, stop: BootStop) returns (ok: bool)
      requires trail != [] && phase.Verified?
      modifies `trail, `temp, `phase, `snapshots
      ensures View() == Upgraded(old(View()), rows, pending, stop)
      ensures ok <==> !UpgradeStops(pending, stop)
      ensures trail != [] && phase == if ok then Migrated else Down
    {
      if pending {
        if stop.BackUpFails? {
          GiveUp();
          return false;
        }
        snapshots := snapshots + [trail[|trail| - 1]];
      }
      var db := trail[|trail| - 1];
      trail := trail + [Image(db.gen, db.rows + rows)];
      phase := Migrated;
      if stop.MigrationFails? {
        GiveUp();
        return false;
      }
      return true;
    }

    /** A failed step removes the temporary file and ends the boot. */
    method GiveUp()
      modifies `temp, `phase
      ensures View() == old(View()).(phase := Down, temp := None)
    {
      temp := None;
      phase := Down;
    }

    /** Writes beside, syncs, and renames into place. */
    method WriteStateFile(generation: nat, fault: Fault) returns (ok: bool)
      requires trail != [] && phase.Advanced? && trail[|trail| - 1].gen == generation && !fault.HeaderFails?
      modifies `sidecar, `temp, `phase, `baseline
      ensures View() == Run(old(View()), WriteSteps(fault))
      ensures ok <==> phase.Serving?
    {
      hide Run;
      ghost var before := View();
      WritingRuns(before, fault);
      if fault.CreateFails? {
        GiveUp();
        return false;
      }
      temp := Some(Stored(Whole(generation), false));
      phase := Written;
      if fault.WriteFails? || fault.SyncFails? {
        GiveUp();
        return false;
      }
      temp := Some(temp.value.(synced := true));
      phase := Synced;
      if fault.RenameFails? {
        GiveUp();
        return false;
      }
      sidecar := temp;
      temp := None;
      phase := Serving;
      baseline := trail[|trail| - 1].rows;
      return true;
    }

    /** The header first, then the sidecar. */
    method RecordDataDirectoryState(fault: Fault) returns (ok: bool)
      requires trail != [] && phase.Migrated?
      modifies this
      ensures View() == Run(old(View()), RecordSteps(fault))
      ensures ok <==> phase.Serving?
    {
      hide Run, WriteSteps;
      if fault.HeaderFails? {
        FailingStops(View());
        GiveUp();
        return false;
      }
      Unroll(View(), SetGeneration, WriteSteps(fault));
      var db := trail[|trail| - 1];
      trail := trail + [Image(db.gen + 1, db.rows)];
      phase := Advanced;
      ok := WriteStateFile(db.gen + 1, fault);
    }

    /** The order of main: verify, migrate, record. A boot that is refused, or
        cannot read, touches nothing; any other leaves the trace of a run of
        boot steps. */
    method StartUp(rows: seq<nat>, pending: bool, stop: BootStop, fault: Fault) returns (ok: bool)
      requires trail != [] && phase.Down?
      modifies this
      ensures Accepts(old(View()), Db(old(View()))) ==>
                View() == Run(old(View()), [Open] + BootSteps(rows, pending, stop, fault))
      ensures !Accepts(old(View()), Db(old(View()))) || stop.ReadFails? ==>
                !ok && trail == old(trail) && sidecar == old(sidecar) && snapshots == old(snapshots)
      ensures ok <==> phase.Serving?
    {
      hide Run, RecordSteps, UpgradeSteps, Upgraded;
      Unroll(View(), Open, BootSteps(rows, pending, stop, fault));
      phase := Opened;
      if stop.ReadFails? {
        FailingStops(View());
      } else {
        Unroll(View(), Verify, UpgradeSteps(rows, pending, stop, fault));
      }
      ok := VerifyDataDirectory(stop.ReadFails?);
      if !ok {
        return;
      }
      UpgradingRuns(View(), rows, pending, stop, fault);
      ok := RunMigrations(rows, pending, stop);
      if !ok {
        return;
      }
      ok := RecordDataDirectoryState(fault);
    }
  }
}
