/** A circle's published look, the look before it, and the photos on disk. */
module Appearance {
  import opened Options

  type File = string

  /** A photo and its focal point, in percent. */
  datatype Photo = Photo(file: File, x: int, y: int)

  /** A normalised look; `design` stands for its fabric and colours. */
  datatype Look = Look(design: string, photo: Option<Photo>, banner: Option<Photo>)

  /** The design that is the house look when there are no photos. */
  const PLAIN := "plain"

  /** A theme column: SQL NULL, the JSON text null, or a look. */
  datatype Column = SqlNull | LiteralNull | Stored(look: Look)

  /** SqlNull in `theme` is the house look; in `previous`, no restore point. */
  datatype Row = Row(theme: Column, previous: Column)

  // ---- PublishTheme and RestoreTheme -------------------------------------

  datatype Outcome = Done(row: Row) | ThemeChanged | NoRestorePoint

  function Coalesced(theme: Column): Column { if theme.SqlNull? then LiteralNull else theme }

  function PublishTheme(row: Row, expected: Column, next: Column): Outcome {
    if row.theme != expected then ThemeChanged
    else Done(Row(next, if row.theme == next then row.previous else Coalesced(row.theme)))
  }

  function RestoreTheme(row: Row): Outcome {
    if row.previous.SqlNull? then NoRestorePoint
    else Done(Row(if row.previous.LiteralNull? then SqlNull else row.previous, Coalesced(row.theme)))
  }

  /** A publish goes through exactly when the stored look is still the expected
      one; it then replaces that look, and remembers it unless it was the same. */
  lemma PublishReplacesExpected(row: Row, expected: Column, next: Column)
    ensures PublishTheme(row, expected, next).Done? <==> row.theme == expected
    ensures row.theme == expected ==>
              var after := PublishTheme(row, expected, next).row;
              && after.theme == next
              && (next == expected ==> after == row)
              && (next != expected ==> !after.previous.SqlNull? && RestoreTheme(after).Done?)
  {
  }

  /** Publishing a different look and restoring brings the earlier look back,
      the house look included, exactly when the earlier column did not hold the
      JSON text null: that text is how a restore point spells the house look. */
  lemma PublishThenRestore(row: Row, next: Column)
    requires next != row.theme
    ensures RestoreTheme(PublishTheme(row, row.theme, next).row).Done?
    ensures RestoreTheme(PublishTheme(row, row.theme, next).row).row.theme == row.theme <==> !row.theme.LiteralNull?
  {
  }

  /** Restoring twice is a redo: the row comes back as it was, exactly when the
      published column did not hold the JSON text null. */
  lemma RestoreTwice(row: Row)
    requires RestoreTheme(row).Done?
    ensures RestoreTheme(RestoreTheme(row).row).Done?
    ensures RestoreTheme(RestoreTheme(row).row).row == row <==> !row.theme.LiteralNull?
  {
  }

  // ---- Photos ------------------------------------------------------------

  function PhotosOf(column: Column): set<File> {
    if column.Stored? then
      (if column.look.photo.Some? then {column.look.photo.value.file} else {})
      + (if column.look.banner.Some? then {column.look.banner.value.file} else {})
    else {}
  }

  function InUse(row: Row): set<File> { PhotosOf(row.theme) + PhotosOf(row.previous) }

  /** The circle's own directory: its photos and when each was written. */
  type Files = map<File, int>

  const GRACE := 86400

  predicate Prunable(row: Row, files: Files, now: int, file: File) {
    file in files && file !in InUse(row) && files[file] <= now - GRACE
  }

  /** pruneBranding; `stuck` are the files whose removal fails. */
  function Prune(row: Row, files: Files, now: int, stuck: set<File>): Files {
    map file | file in files && !(Prunable(row, files, now, file) && file !in stuck) :: files[file]
  }

  // ---- The handlers ------------------------------------------------------

  /** What the editor submits: the fingerprint of the look it started from, and
      the look it made, still to be normalised. */
  datatype Request = Request(revision: nat, design: string, photo: Option<Photo>, banner: Option<Photo>)

  function ClampPercent(v: int): int { if v < 0 then 0 else if v > 100 then 100 else v }

  function ClampPhoto(p: Option<Photo>): Option<Photo> {
    match p
    case None => None
    case Some(photo) => Some(Photo(photo.file, ClampPercent(photo.x), ClampPercent(photo.y)))
  }

  function Normalize(req: Request): Column {
    var look := Look(req.design, ClampPhoto(req.photo), ClampPhoto(req.banner));
    if look.design == PLAIN && look.photo.None? && look.banner.None? then SqlNull else Stored(look)
  }

  /** brandingPath for a slot: absent, or a photo that is on disk. */
  predicate SlotOk(files: Files, p: Option<Photo>) { p.Some? ==> p.value.file in files }

  datatype Circle = Circle(row: Row, files: Files, now: int)

  datatype Faults = Faults(designRefused: bool, reloadFails: bool, stuck: set<File>)

  datatype Reply = Saved | PhotoMissing | Invalid | Conflict | NothingToRestore

  /** finishThemeChange after a change that went through. */
  function Finish(c: Circle, row: Row, f: Faults): Circle {
    if f.reloadFails then c.(row := row) else c.(row := row, files := Prune(row, c.files, c.now, f.stuck))
  }

  /** `revision` fingerprints a column; it need not be injective. */
  function Publish(c: Circle, req: Request, revision: Column -> nat, f: Faults): (Circle, Reply) {
    if !SlotOk(c.files, req.photo) || !SlotOk(c.files, req.banner) then (c, PhotoMissing)
    else if f.designRefused then (c, Invalid)
    else if req.revision != revision(c.row.theme) then (c, Conflict)
    else
      match PublishTheme(c.row, c.row.theme, Normalize(req))
      case Done(row) => (Finish(c, row, f), Saved)
      case _ => (c, Conflict)
  }

  function Restore(c: Circle, f: Faults): (Circle, Reply) {
    match RestoreTheme(c.row)
    case Done(row) => (Finish(c, row, f), Saved)
    case _ => (c, NothingToRestore)
  }

  /** The upload handler renames a finished file into place. */
  function UploadPhoto(c: Circle, file: File): Circle { c.(files := c.files[file := c.now]) }

  function DeletePhoto(c: Circle, file: File, removalFails: bool): Circle {
    if file in InUse(c.row) || removalFails then c else c.(files := c.files - {file})
  }

  /** A publish that is accepted replaces exactly the look its editor read, for
      any fingerprint that tells that look from the one stored; and the restore
      point then brings it back. */
  lemma PublishReplacesWhatWasRead(c: Circle, read: Column, req: Request, revision: Column -> nat, f: Faults)
    requires req.revision == revision(read)
    requires revision(read) == revision(c.row.theme) ==> read == c.row.theme
    requires Publish(c, req, revision, f).1.Saved?
    ensures var after := Publish(c, req, revision, f).0;
            && c.row.theme == read
            && after.row.theme == Normalize(req)
            && (Normalize(req) != read && !read.LiteralNull? ==> Restore(after, f).0.row.theme == read)
  {
  }

  // ---- What a change comes to --------------------------------------------

  /** A column shows a photo in one of its two places. */
  ghost predicate Shows(column: Column, file: File) {
    column.Stored? && exists p :: (column.look.photo == Some(p) || column.look.banner == Some(p)) && p.file == file
  }

  predicate NearestPercent(asked: int, kept: int) {
    && 0 <= kept <= 100
    && (asked <= 0 ==> kept == 0) && (asked >= 100 ==> kept == 100) && (0 <= asked <= 100 ==> kept == asked)
  }

  predicate KeepsPhoto(asked: Option<Photo>, kept: Option<Photo>) {
    if asked.None? || kept.None? then asked.None? && kept.None?
    else
      && kept.value.file == asked.value.file
      && NearestPercent(asked.value.x, kept.value.x) && NearestPercent(asked.value.y, kept.value.y)
  }

  /** A column that keeps what was asked for: NULL for the house look, and
      otherwise the design and both photos, each focal point in percent. */
  predicate Keeps(req: Request, column: Column) {
    if req.design == "plain" && req.photo.None? && req.banner.None? then column == SqlNull
    else
      && column.Stored? && column.look.design == req.design
      && KeepsPhoto(req.photo, column.look.photo) && KeepsPhoto(req.banner, column.look.banner)
  }

  /** The photos left after a change: all that a look of the new row shows, all
      written in the last day, and those whose removal failed; all of them when
      the row could not be read back. */
  ghost predicate Spared(c: Circle, row: Row, f: Faults, file: File)
    requires file in c.files
  {
    f.reloadFails || Shows(row.theme, file) || Shows(row.previous, file) || c.files[file] > c.now - 24 * 3600
    || file in f.stuck
  }

  lemma ShownIsInUse(column: Column, file: File)
    ensures file in PhotosOf(column) <==> Shows(column, file)
  {
    if column.Stored? && file in PhotosOf(column) {
      if column.look.photo.Some? && column.look.photo.value.file == file {
        assert column.look.photo == Some(column.look.photo.value);
      } else {
        assert column.look.banner == Some(column.look.banner.value);
      }
    }
  }

  lemma FinishSpares(c: Circle, row: Row, f: Faults)
    ensures var after := Finish(c, row, f);
            && after.row == row && after.now == c.now
            && (forall file :: file in after.files <==> file in c.files && Spared(c, row, f, file))
            && (forall file :: file in after.files ==> after.files[file] == c.files[file])
  {
    forall file ensures file in InUse(row) <==> Shows(row.theme, file) || Shows(row.previous, file) {
      ShownIsInUse(row.theme, file);
      ShownIsInUse(row.previous, file);
    }
    hide InUse, Shows;
  }

  /** A publish, whole: what refuses it, in order; and when nothing does, the
      look that is stored, the restore point, and the photos left on disk. */
  lemma PublishOutcome(c: Circle, req: Request, revision: Column -> nat, f: Faults)
    ensures var (after, reply) := Publish(c, req, revision, f);
            var missing := (req.photo.Some? && req.photo.value.file !in c.files)
                           || (req.banner.Some? && req.banner.value.file !in c.files);
            && reply == (if missing then PhotoMissing else if f.designRefused then Invalid
                         else if req.revision != revision(c.row.theme) then Conflict else Saved)
            && (reply != Saved ==> after == c)
            && (reply == Saved ==>
                  && Keeps(req, after.row.theme)
                  && after.row.previous == (if after.row.theme == c.row.theme then c.row.previous
                                            else if c.row.theme == SqlNull then LiteralNull else c.row.theme)
                  && after.now == c.now
                  && (forall file :: file in after.files <==> file in c.files && Spared(c, after.row, f, file))
                  && (forall file :: file in after.files ==> after.files[file] == c.files[file]))
  {
    var (after, reply) := Publish(c, req, revision, f);
    FinishSpares(c, after.row, f);
    hide Prune, Spared;
  }

  /** A restore: the restore point is published again, and the look it replaces
      is the restore point. */
  lemma RestoreOutcome(c: Circle, f: Faults)
    ensures var (after, reply) := Restore(c, f);
            && reply == (if c.row.previous == SqlNull then NothingToRestore else Saved)
            && (reply != Saved ==> after == c)
            && (reply == Saved ==>
                  && after.row == Row(if c.row.previous == LiteralNull then SqlNull else c.row.previous,
                                      if c.row.theme == SqlNull then LiteralNull else c.row.theme)
                  && after.now == c.now
                  && (forall file :: file in after.files <==> file in c.files && Spared(c, after.row, f, file))
                  && (forall file :: file in after.files ==> after.files[file] == c.files[file]))
  {
    FinishSpares(c, Restore(c, f).0.row, f);
    hide Prune, Spared;
  }

  /** A photo is deleted on request exactly when neither look shows it. */
  lemma DeleteOutcome(c: Circle, file: File, removalFails: bool)
    ensures var after := DeletePhoto(c, file, removalFails);
            && after.row == c.row && after.now == c.now
            && (forall other :: other in after.files <==>
                  && other in c.files
                  && (other != file || removalFails || Shows(c.row.theme, file) || Shows(c.row.previous, file)))
            && (forall other :: other in after.files ==> after.files[other] == c.files[other])
  {
    ShownIsInUse(c.row.theme, file);
    ShownIsInUse(c.row.previous, file);
    hide Shows;
  }

  // ---- Runs --------------------------------------------------------------

  datatype Step =
    | PublishStep(req: Request, faults: Faults)
    | RestoreStep(faults: Faults)
    | UploadStep(file: File)
    | DeleteStep(file: File, removalFails: bool)
    | WaitStep(seconds: nat)

  function Take(c: Circle, step: Step, revision: Column -> nat): Circle {
    match step
    case PublishStep(req, f) => Publish(c, req, revision, f).0
    case RestoreStep(f) => Restore(c, f).0
    case UploadStep(file) => UploadPhoto(c, file)
    case DeleteStep(file, removalFails) => DeletePhoto(c, file, removalFails)
    case WaitStep(seconds) => c.(now := c.now + seconds)
  }

  /** An upload puts its file on disk, as of now, and changes no look; time
      passing changes nothing else. */
  lemma UploadOutcome(c: Circle, step: Step, revision: Column -> nat)
    requires step.UploadStep? || step.WaitStep?
    ensures var after := Take(c, step, revision);
            && after.row == c.row
            && after.now == c.now + (if step.WaitStep? then step.seconds else 0)
            && (forall file :: file in after.files <==> file in c.files || (step.UploadStep? && file == step.file))
            && (forall file :: file in after.files ==>
                  after.files[file] == if step.UploadStep? && file == step.file then c.now else c.files[file])
  {
  }

  function Run(c: Circle, steps: seq<Step>, revision: Column -> nat): Circle {
    if steps == [] then c else Take(Run(c, steps[..|steps| - 1], revision), steps[|steps| - 1], revision)
  }

  /** Every photo of the published look and of the restore point is on disk, and
      the published column never holds the JSON text null. */
  ghost predicate Intact(c: Circle) { InUse(c.row) <= c.files.Keys && !c.row.theme.LiteralNull? }

  lemma FinishKeeps(c: Circle, row: Row, f: Faults)
    requires InUse(row) <= c.files.Keys && !row.theme.LiteralNull?
    ensures Intact(Finish(c, row, f))
  {
  }

  lemma TakeKeeps(c: Circle, step: Step, revision: Column -> nat)
    requires Intact(c)
    ensures Intact(Take(c, step, revision))
  {
    match step {
      case PublishStep(req, f) =>
        if Publish(c, req, revision, f).1.Saved? {
          var row := PublishTheme(c.row, c.row.theme, Normalize(req)).row;
          assert PhotosOf(Normalize(req)) <= c.files.Keys;
          FinishKeeps(c, row, f);
        }
      case RestoreStep(f) =>
        if RestoreTheme(c.row).Done? {
          FinishKeeps(c, RestoreTheme(c.row).row, f);
        }
      case _ =>
    }
  }

  /** Whatever is published, restored, uploaded, deleted and pruned, each photo
      that the published look or the restore point names is on disk, and the
      condition under which restoring is exact always holds. */
  lemma {:induction false} PhotosStay(now: int, steps: seq<Step>, revision: Column -> nat)
    ensures Intact(Run(Circle(Row(SqlNull, SqlNull), map[], now), steps, revision))
  {
    if steps != [] {
      hide Intact, Take;
      PhotosStay(now, steps[..|steps| - 1], revision);
      TakeKeeps(Run(Circle(Row(SqlNull, SqlNull), map[], now), steps[..|steps| - 1], revision), steps[|steps| - 1],
          revision);
    }
  }

  /** So in every reachable state publishing another look and restoring is an
      undo, and restoring twice is the identity. */
  lemma {:induction false} ReachableUndo(now: int, steps: seq<Step>, revision: Column -> nat, next: Column)
    ensures var row := Run(Circle(Row(SqlNull, SqlNull), map[], now), steps, revision).row;
            && (next != row.theme ==> RestoreTheme(PublishTheme(row, row.theme, next).row).row.theme == row.theme)
            && (RestoreTheme(row).Done? ==> RestoreTheme(RestoreTheme(row).row) == Done(row))
  {
    PhotosStay(now, steps, revision);
    var row := Run(Circle(Row(SqlNull, SqlNull), map[], now), steps, revision).row;
    if next != row.theme {
      PublishThenRestore(row, next);
    }
    if RestoreTheme(row).Done? {
      RestoreTwice(row);
    }
  }

  // ---- The loops ---------------------------------------------------------

  class Branding {
    var theme: Column
    var previous: Column
    var files: Files
    var now: int

    function View(): Circle
      reads this
    {
      Circle(Row(theme, previous), files, now)
    }

    /** Collects the photo files of both looks. */
    method BrandingInUse() returns (keep: set<File>)
      ensures keep == InUse(View().row)
    {
      keep := {};
      var columns := [theme, previous];
      for i := 0 to |columns|
        invariant keep == set c, file | c in columns[..i] && file in PhotosOf(c) :: file
      {
        assert columns[..i + 1] == columns[..i] + [columns[i]];
        if columns[i].Stored? {
          var look := columns[i].look;
          var photos := [look.photo, look.banner];
          ghost var before := keep;
          for k := 0 to |photos|
            invariant keep == before
              + (if k > 0 && look.photo.Some? then {look.photo.value.file} else {})
              + (if k > 1 && look.banner.Some? then {look.banner.value.file} else {})
          {
            if photos[k].Some? {
              keep := keep + {photos[k].value.file};
            }
          }
          assert keep == before + PhotosOf(columns[i]);
        }
      }
      assert columns[..|columns|] == [theme, previous];
    }

    /** Walks the directory in any order it is listed in. */
    method PruneBranding(entries: seq<File>, stuck: set<File>)
      requires forall file :: file in entries <==> file in files
      modifies `files
      ensures files == Prune(old(View().row), old(files), now, stuck)
    {
      var keep := BrandingInUse();
      for i := 0 to |entries|
        invariant unchanged(`theme, `previous, `now)
        invariant files.Keys == set file | file in old(files)
                    && !(file in entries[..i] && Prunable(old(View().row), old(files), now, file) && file !in stuck)
        invariant forall file :: file in files ==> files[file] == old(files)[file]
      {
        assert entries[..i + 1] == entries[..i] + [entries[i]];
        if entries[i] in keep || entries[i] !in files {
          continue;
        }
        if files[entries[i]] > now - GRACE {
          continue;
        }
        if entries[i] !in stuck {
          files := files - {entries[i]};
        }
      }
      assert entries[..|entries|] == entries;
    }

    method FinishThemeChange(entries: seq<File>, f: Faults)
      requires forall file :: file in entries <==> file in files
      modifies `files
      ensures View() == Finish(old(View()), old(View().row), f)
    {
      if f.reloadFails {
        return;
      }
      PruneBranding(entries, f.stuck);
    }

    method HandlePublish(req: Request, revision: Column -> nat, entries: seq<File>, f: Faults) returns (reply: Reply)
      requires forall file :: file in entries <==> file in files
      modifies this
      ensures (View(), reply) == Publish(old(View()), req, revision, f)
      ensures View() == Take(old(View()), PublishStep(req, f), revision)
    {
      hide Prune;
      if (req.photo.Some? && req.photo.value.file !in files) || (req.banner.Some? && req.banner.value.file !in files) {
        return PhotoMissing;
      }
      if f.designRefused {
        return Invalid;
      }
      if req.revision != revision(theme) {
        return Conflict;
      }
      var next := Normalize(req);
      if theme != next {
        previous := Coalesced(theme);
      }
      theme := next;
      FinishThemeChange(entries, f);
      return Saved;
    }

    method HandleRestore(entries: seq<File>, f: Faults) returns (reply: Reply)
      requires forall file :: file in entries <==> file in files
      modifies this
      ensures (View(), reply) == Restore(old(View()), f)
      ensures forall revision: Column -> nat :: View() == Take(old(View()), RestoreStep(f), revision)
    {
      hide Prune;
      if previous.SqlNull? {
        return NothingToRestore;
      }
      theme, previous := if previous.LiteralNull? then SqlNull else previous, Coalesced(theme);
      FinishThemeChange(entries, f);
      return Saved;
    }

    /** A finished upload, renamed into place. */
    method HandleUploadPhoto(file: File)
      modifies `files
      ensures forall revision: Column -> nat :: View() == Take(old(View()), UploadStep(file), revision)
      ensures files == old(files)[file := now]
    {
      files := files[file := now];
    }

    method HandleDeletePhoto(file: File, removalFails: bool)
      modifies `files
      ensures View() == DeletePhoto(old(View()), file, removalFails)
      ensures forall revision: Column -> nat :: View() == Take(old(View()), DeleteStep(file, removalFails), revision)
    {
      var keep := BrandingInUse();
      if file !in keep && !removalFails {
        files := files - {file};
      }
    }
  }
}
