/** Uploaded files, shared by path between journal pages and the snapshots made
    of them, and removed once nothing points at them. */
module UploadFiles {
  import opened Options
  import opened Journal

  datatype Attached = Attached(issue: nat, user: nat, section: Section)

  /** What a handler has still to do, between two of its statements. */
  datatype Task =
    | Receive(page: nat, path: Path)
      /** A deletion that has listed the paths it will release. */
    | Collected(section: nat, day: Option<Day>, paths: seq<Path>)
      /** removeUploadIfUnreferenced, before its count and after. */
    | Clean(path: Path)
    | Condemned(path: Path)

  /** The journal and snapshot tables, the files on disk, and the handlers in
      flight. Page and section ids, and file names, are never reused. */
  datatype Shelf = Shelf(
    pages: map<nat, Pages>, sections: map<nat, Attached>, nextId: nat,
    files: set<Path>, nextPath: Path, tasks: seq<Task>)

  // ---- References --------------------------------------------------------

  predicate HasPath(blocks: seq<Block>, p: Path) {
    exists k :: 0 <= k < |blocks| && blocks[k].path == Some(p)
  }

  predicate InPages(pages: Pages, p: Path) { exists day | day in pages :: HasPath(pages[day].blocks, p) }

  predicate InSection(s: Section, p: Path) { exists day | day in s.days :: HasPath(s.days[day], p) }

  /** CountUploadsReferencing is not zero. */
  predicate Referenced(s: Shelf, p: Path) {
    || (exists user | user in s.pages :: InPages(s.pages[user], p))
    || (exists id | id in s.sections :: InSection(s.sections[id].section, p))
  }

  function PagesOf(s: Shelf, user: nat): Pages { if user in s.pages then s.pages[user] else map[] }

  // ---- Statements --------------------------------------------------------

  function SetPages(s: Shelf, user: nat, pages: Pages): Shelf { s.(pages := s.pages[user := pages]) }

  function SetSection(s: Shelf, id: nat, section: Section): Shelf
    requires id in s.sections
  {
    s.(sections := s.sections[id := s.sections[id].(section := section)])
  }

  /** The page of a day, made when there is none. */
  function EnsurePage(s: Shelf, user: nat, day: Day): Shelf {
    if day in PagesOf(s, user) then s
    else SetPages(s, user, PagesOf(s, user)[day := Page(s.nextId, [])]).(nextId := s.nextId + 1)
  }

  function AppendBlock(s: Shelf, user: nat, day: Day, b: Block): Shelf
    requires day in PagesOf(s, user)
  {
    var page := PagesOf(s, user)[day];
    SetPages(s, user, PagesOf(s, user)[day := page.(blocks := page.blocks + [b])])
  }

  function ChangeBlock(s: Shelf, user: nat, day: Day, k: nat, b: Block): Shelf
    requires day in PagesOf(s, user) && k < |PagesOf(s, user)[day].blocks|
  {
    var page := PagesOf(s, user)[day];
    SetPages(s, user, PagesOf(s, user)[day := page.(blocks := page.blocks[k := b])])
  }

  /** A page left with no blocks goes with the last. */
  function RemoveBlock(s: Shelf, user: nat, day: Day, k: nat): Shelf
    requires day in PagesOf(s, user) && k < |PagesOf(s, user)[day].blocks|
  {
    var page := PagesOf(s, user)[day];
    var blocks := Without(page.blocks, k);
    SetPages(s, user,
      if blocks == [] then PagesOf(s, user) - {day} else PagesOf(s, user)[day := page.(blocks := blocks)])
  }

  predicate HasSection(s: Shelf, issue: nat, user: nat) {
    exists id | id in s.sections :: s.sections[id].issue == issue && s.sections[id].user == user
  }

  /** AttachDiarySection; the second section of a member on an issue is refused. */
  function AttachSection(s: Shelf, issue: nat, user: nat, from: Day, through: Day): Option<Shelf> {
    if HasSection(s, issue, user) then None
    else
      Some(s.(sections := s.sections[s.nextId := Attached(issue, user, Attach(PagesOf(s, user), from, through))],
              nextId := s.nextId + 1))
  }

  function RefreshSection(s: Shelf, id: nat, through: Day): Shelf
    requires id in s.sections
  {
    SetSection(s, id, Refresh(PagesOf(s, s.sections[id].user), s.sections[id].section, through))
  }

  /** The paths that deleting a day, or the whole section, will release, in
      whatever order the query returns them. */
  ghost predicate Lists(s: Shelf, id: nat, day: Option<Day>, paths: seq<Path>)
    requires id in s.sections
  {
    forall p: Path :: p in paths <==> InRows(s.sections[id].section, day, p)
  }

  predicate InRows(s: Section, day: Option<Day>, p: Path) {
    match day
    case Some(d) => d in s.days && HasPath(s.days[d], p)
    case None => InSection(s, p)
  }

  /** Drops a day, or the whole section; rows that are gone are no error. */
  function DropRows(s: Shelf, id: nat, day: Option<Day>): Shelf {
    if id !in s.sections then s
    else
      match day
      case Some(d) => SetSection(s, id, TrimDay(s.sections[id].section, d))
      case None => s.(sections := s.sections - {id})
  }

  // ---- The interleaved machine -------------------------------------------

  datatype Step =
    | WriteText(user: nat, day: Day, block: Block)
    | Ensure(user: nat, day: Day)
    | ReceiveFile(page: nat)
    | FinishUpload(task: nat, block: Block)
    | ChangeJournalBlock(user: nat, day: Day, k: nat, block: Block)
    | DeleteJournalBlock(user: nat, day: Day, k: nat)
    | AttachStep(issue: nat, user: nat, from: Day, through: Day)
    | RefreshStep(section: nat, through: Day)
    | ChangeSnapshotBlock(section: nat, day: Day, k: nat, block: Block)
    | DeleteSnapshotBlock(section: nat, day: Day, k: nat)
    | CollectStep(section: nat, toDelete: Option<Day>, paths: seq<Path>)
    | DropStep(task: nat)
    | CountStep(task: nat)
    | RemoveStep(task: nat)
      /** A handler that fails or dies where it stands. */
    | Abandon(task: nat)

  function Released(path: Option<Path>): seq<Task> { if path.Some? then [Clean(path.value)] else [] }

  function CleanAll(paths: seq<Path>): (r: seq<Task>)
    ensures |r| == |paths|
  {
    seq(|paths|, i requires 0 <= i < |paths| => Clean(paths[i]))
  }

  predicate IsTask(s: Shelf, t: nat) { t < |s.tasks| }

  /** The page with an id, if it still exists. */
  ghost predicate PageIs(s: Shelf, id: nat, user: nat, day: Day) {
    user in s.pages && day in s.pages[user] && s.pages[user][day].id == id
  }

  /** Where a finished upload lands: on the page it was meant for, if that is
      still there. */
  ghost function Land(s: Shelf, id: nat, b: Block): Shelf {
    if exists user, day :: PageIs(s, id, user, day) then
      var user, day :| PageIs(s, id, user, day);
      AppendBlock(s, user, day, b)
    else s
  }

  ghost function Take(s: Shelf, step: Step): Shelf {
    match step
    case WriteText(user, day, b) =>
      if b.path.Some? then s else AppendBlock(EnsurePage(s, user, day), user, day, b)
    case Ensure(user, day) => EnsurePage(s, user, day)
    case ReceiveFile(page) =>
      s.(files := s.files + {s.nextPath}, nextPath := s.nextPath + 1, tasks := s.tasks + [Receive(page, s.nextPath)])
    case FinishUpload(t, b) =>
      if IsTask(s, t) && s.tasks[t].Receive? && b.path == Some(s.tasks[t].path)
      then Land(s, s.tasks[t].page, b).(tasks := Without(s.tasks, t)) else s
    case ChangeJournalBlock(user, day, k, b) =>
      if day in PagesOf(s, user) && k < |PagesOf(s, user)[day].blocks| && b.path == PagesOf(s, user)[day].blocks[k].path
      then ChangeBlock(s, user, day, k, b) else s
    case DeleteJournalBlock(user, day, k) =>
      if day in PagesOf(s, user) && k < |PagesOf(s, user)[day].blocks|
      then RemoveBlock(s, user, day, k).(tasks := s.tasks + Released(PagesOf(s, user)[day].blocks[k].path)) else s
    case AttachStep(issue, user, from, through) =>
      var r := AttachSection(s, issue, user, from, through);
      if r.Some? then r.value else s
    case RefreshStep(id, through) => if id in s.sections then RefreshSection(s, id, through) else s
    case ChangeSnapshotBlock(id, day, k, b) =>
      if id in s.sections && day in s.sections[id].section.days && k < |s.sections[id].section.days[day]|
         && b.path == s.sections[id].section.days[day][k].path
      then SetSection(s, id, EditBlock(s.sections[id].section, day, k, b)) else s
    case DeleteSnapshotBlock(id, day, k) =>
      if id in s.sections && day in s.sections[id].section.days && k < |s.sections[id].section.days[day]|
      then
        SetSection(s, id, TrimBlock(s.sections[id].section, day, k))
          .(tasks := s.tasks + Released(s.sections[id].section.days[day][k].path))
      else s
    case CollectStep(id, day, paths) =>
      if id in s.sections && Lists(s, id, day, paths) then s.(tasks := s.tasks + [Collected(id, day, paths)]) else s
    case DropStep(t) =>
      if IsTask(s, t) && s.tasks[t].Collected?
      then DropRows(s, s.tasks[t].section, s.tasks[t].day).(tasks := Without(s.tasks, t) + CleanAll(s.tasks[t].paths))
          else s
    case CountStep(t) =>
      if IsTask(s, t) && s.tasks[t].Clean?
      then s.(tasks := Without(s.tasks, t) + (if Referenced(s, s.tasks[t].path) then []
          else [Condemned(s.tasks[t].path)])) else s
    case RemoveStep(t) =>
      if IsTask(s, t) && s.tasks[t].Condemned?
      then s.(files := s.files - {s.tasks[t].path}, tasks := Without(s.tasks, t)) else s
    case Abandon(t) => if IsTask(s, t) then s.(tasks := Without(s.tasks, t)) else s
  }

  ghost function Run(s: Shelf, steps: seq<Step>): Shelf {
    if steps == [] then s else Take(Run(s, steps[..|steps| - 1]), steps[|steps| - 1])
  }

  // ---- The invariant -----------------------------------------------------

  /** A path that no upload is still to bring in. */
  ghost predicate Settled(s: Shelf, p: Path) {
    p < s.nextPath && forall i :: 0 <= i < |s.tasks| && s.tasks[i].Receive? ==> s.tasks[i].path != p
  }

  ghost predicate TaskOk(s: Shelf, t: Task) {
    match t
    case Receive(_, p) => p < s.nextPath && p in s.files && !Referenced(s, p)
    case Collected(_, _, paths) => forall i :: 0 <= i < |paths| ==> Settled(s, paths[i])
    case Clean(p) => Settled(s, p)
    case Condemned(p) => Settled(s, p) && !Referenced(s, p)
  }

  ghost predicate Inv(s: Shelf) {
    && (forall p :: Referenced(s, p) ==> p in s.files && Settled(s, p))
    && (forall i :: 0 <= i < |s.tasks| ==> TaskOk(s, s.tasks[i]))
    && (forall i, j :: 0 <= i < j < |s.tasks| && s.tasks[i].Receive? && s.tasks[j].Receive? ==>
          s.tasks[i].path != s.tasks[j].path)
  }

  ghost predicate NoNewRefs(s: Shelf, s1: Shelf) { forall p :: Referenced(s1, p) ==> Referenced(s, p) }

  /** Rows change without new references, and tasks come and go but for new
      uploads. */
  lemma QuietStepKeeps(s: Shelf, s1: Shelf)
    requires Inv(s) && NoNewRefs(s, s1)
    requires s1.files == s.files && s1.nextPath == s.nextPath
    requires forall i :: 0 <= i < |s1.tasks| ==> s1.tasks[i] in s.tasks || (!s1.tasks[i].Receive? && TaskOk(s, s1.tasks[i]))
    requires forall i, j :: 0 <= i < j < |s1.tasks| && s1.tasks[i].Receive? && s1.tasks[j].Receive? ==>
               s1.tasks[i].path != s1.tasks[j].path
    ensures Inv(s1)
  {
    hide Referenced;
    assert forall p :: Settled(s, p) ==> Settled(s1, p);
  }

  // ---- What each statement does to the references ------------------------

  lemma SnapshotRefs(s: Shelf, id: nat, p: Path)
    requires id in s.sections && InSection(s.sections[id].section, p)
    ensures Referenced(s, p)
  {
  }

  lemma PageRefs(s: Shelf, user: nat, p: Path)
    requires InPages(PagesOf(s, user), p)
    ensures Referenced(s, p)
  {
  }

  lemma AttachRefs(s: Shelf, issue: nat, user: nat, from: Day, through: Day)
    requires AttachSection(s, issue, user, from, through).Some?
    ensures NoNewRefs(s, AttachSection(s, issue, user, from, through).value)
  {
    var s1 := AttachSection(s, issue, user, from, through).value;
    forall p | Referenced(s1, p) ensures Referenced(s, p) {
      if InSection(s1.sections[s.nextId].section, p) {
        PageRefs(s, user, p);
      }
    }
  }

  lemma RefreshRefs(s: Shelf, id: nat, through: Day)
    requires id in s.sections
    ensures NoNewRefs(s, RefreshSection(s, id, through))
  {
    var section := s.sections[id].section;
    var after := Refresh(PagesOf(s, s.sections[id].user), section, through);
    forall p | InSection(after, p) ensures Referenced(s, p) {
      if through >= section.copiedThrough {
        var copied := CopyDays(PagesOf(s, s.sections[id].user), section, section.copiedThrough, through);
        assert InSection(copied, p);
      }
      if InSection(section, p) {
        SnapshotRefs(s, id, p);
      } else {
        PageRefs(s, s.sections[id].user, p);
      }
    }
  }

  lemma WithoutPaths(blocks: seq<Block>, k: nat, p: Path)
    requires k < |blocks| && HasPath(Without(blocks, k), p)
    ensures HasPath(blocks, p)
  {
    var i :| 0 <= i < |blocks| - 1 && Without(blocks, k)[i].path == Some(p);
    assert blocks[if i < k then i else i + 1].path == Some(p);
  }

  lemma SamePathPaths(blocks: seq<Block>, k: nat, b: Block, p: Path)
    requires k < |blocks| && b.path == blocks[k].path
    ensures HasPath(blocks[k := b], p) <==> HasPath(blocks, p)
  {
    if i :| 0 <= i < |blocks| && blocks[i].path == Some(p) {
      assert blocks[k := b][i].path == Some(p);
    }
  }

  lemma TrimRefs(s: Shelf, id: nat, day: Day, k: nat)
    requires id in s.sections && day in s.sections[id].section.days && k < |s.sections[id].section.days[day]|
    ensures NoNewRefs(s, SetSection(s, id, TrimBlock(s.sections[id].section, day, k)))
  {
    var section := s.sections[id].section;
    var after := TrimBlock(section, day, k);
    forall p | InSection(after, p) ensures Referenced(s, p) {
      var d :| d in after.days && HasPath(after.days[d], p);
      if d == day {
        WithoutPaths(section.days[day], k, p);
      }
      assert HasPath(section.days[d], p);
      SnapshotRefs(s, id, p);
    }
  }

  lemma EditRefs(s: Shelf, id: nat, day: Day, k: nat, b: Block)
    requires id in s.sections && day in s.sections[id].section.days && k < |s.sections[id].section.days[day]|
    requires b.path == s.sections[id].section.days[day][k].path
    ensures NoNewRefs(s, SetSection(s, id, EditBlock(s.sections[id].section, day, k, b)))
  {
    var section := s.sections[id].section;
    var after := EditBlock(section, day, k, b);
    forall p | InSection(after, p) ensures Referenced(s, p) {
      var d :| d in after.days && HasPath(after.days[d], p);
      if d == day {
        SamePathPaths(section.days[day], k, b, p);
      }
      assert HasPath(section.days[d], p);
      SnapshotRefs(s, id, p);
    }
  }

  lemma DropRefs(s: Shelf, id: nat, day: Option<Day>)
    ensures NoNewRefs(s, DropRows(s, id, day))
  {
    if id in s.sections && day.Some? {
      var after := TrimDay(s.sections[id].section, day.value);
      forall p | InSection(after, p) ensures Referenced(s, p) {
        var d :| d in after.days && HasPath(after.days[d], p);
        assert d in s.sections[id].section.days;
        SnapshotRefs(s, id, p);
      }
    }
  }

  lemma EnsureRefs(s: Shelf, user: nat, day: Day)
    ensures NoNewRefs(s, EnsurePage(s, user, day))
  {
    var pages := PagesOf(s, user);
    if day !in pages {
      assert !exists p :: HasPath([], p);
      var after := pages[day := Page(s.nextId, [])];
      forall p | InPages(after, p) ensures InPages(pages, p) {
        var d :| d in after && HasPath(after[d].blocks, p);
        assert d in pages && HasPath(pages[d].blocks, p);
      }
    }
  }

  lemma AppendPaths(blocks: seq<Block>, b: Block, p: Path)
    ensures HasPath(blocks + [b], p) <==> HasPath(blocks, p) || b.path == Some(p)
  {
    if HasPath(blocks, p) {
      var k :| 0 <= k < |blocks| && blocks[k].path == Some(p);
      assert (blocks + [b])[k].path == Some(p);
    }
    if b.path == Some(p) {
      assert (blocks + [b])[|blocks|].path == Some(p);
    }
  }

  /** Appending a block brings in its own path and no other. */
  lemma AppendRefs(s: Shelf, user: nat, day: Day, b: Block, p: Path)
    requires day in PagesOf(s, user) && Referenced(AppendBlock(s, user, day, b), p)
    ensures Referenced(s, p) || b.path == Some(p)
  {
    var s1 := AppendBlock(s, user, day, b);
    if exists u | u in s1.pages :: InPages(s1.pages[u], p) {
      var u :| u in s1.pages && InPages(s1.pages[u], p);
      if u == user {
        var d :| d in s1.pages[user] && HasPath(s1.pages[user][d].blocks, p);
        AppendPaths(PagesOf(s, user)[day].blocks, b, p);
        hide HasPath;
        if b.path != Some(p) {
          assert d in PagesOf(s, user) && HasPath(PagesOf(s, user)[d].blocks, p);
          PageRefs(s, user, p);
        }
      }
    }
  }

  // ---- Every step --------------------------------------------------------

  lemma WithoutTasks(s: Shelf, t: nat)
    requires Inv(s) && IsTask(s, t)
    ensures forall i :: 0 <= i < |s.tasks| - 1 ==> Without(s.tasks, t)[i] == s.tasks[if i < t then i else i + 1]
    ensures forall i :: 0 <= i < |s.tasks| - 1 ==> Without(s.tasks, t)[i] in s.tasks
    ensures forall i, j ::
              0 <= i < j < |s.tasks| - 1 && Without(s.tasks, t)[i].Receive? && Without(s.tasks, t)[j].Receive? ==>
              Without(s.tasks, t)[i].path != Without(s.tasks, t)[j].path
  {
    hide TaskOk;
  }

  lemma ReceiveKeeps(s: Shelf, page: nat)
    requires Inv(s)
    ensures Inv(Take(s, ReceiveFile(page)))
  {
    var s1 := Take(s, ReceiveFile(page));
    assert forall p :: Referenced(s1, p) == Referenced(s, p);
    hide Referenced;
    assert forall p :: Settled(s, p) ==> Settled(s1, p);
    assert !Referenced(s, s.nextPath);
  }

  lemma FinishKeeps(s: Shelf, t: nat, b: Block)
    requires Inv(s)
    ensures Inv(Take(s, FinishUpload(t, b)))
  {
    if IsTask(s, t) && s.tasks[t].Receive? && b.path == Some(s.tasks[t].path) {
      var p0 := s.tasks[t].path;
      var s1 := Take(s, FinishUpload(t, b));
      assert TaskOk(s, s.tasks[t]);
      WithoutTasks(s, t);
      forall p | Referenced(s1, p) ensures Referenced(s, p) || p == p0 {
        LandRefs(s, s.tasks[t].page, b, s1.tasks, p);
      }
      hide Referenced;
      forall i | 0 <= i < |s1.tasks| ensures TaskOk(s1, s1.tasks[i]) {
        assert TaskOk(s, s1.tasks[i]);
      }
    }
  }

  lemma LandRefs(s: Shelf, id: nat, b: Block, tasks: seq<Task>, p: Path)
    requires b.path.Some? && Referenced(Land(s, id, b).(tasks := tasks), p)
    ensures Referenced(s, p) || b.path == Some(p)
  {
    if exists user, day :: PageIs(s, id, user, day) {
      var user, day :| PageIs(s, id, user, day) && Land(s, id, b) == AppendBlock(s, user, day, b);
      assert Referenced(Land(s, id, b), p);
      AppendRefs(s, user, day, b, p);
    }
  }

  /** Tasks that leave the rows alone leave the references alone. */
  lemma SameRowsSameRefs(s: Shelf, s1: Shelf)
    requires s1.pages == s.pages && s1.sections == s.sections
    ensures forall p :: Referenced(s1, p) == Referenced(s, p)
  {
  }

  lemma TaskStepKeeps(s: Shelf, step: Step)
    requires Inv(s) && (step.CountStep? || step.RemoveStep? || step.Abandon? || step.DropStep?)
    ensures Inv(Take(s, step))
  {
    hide Referenced;
    var t := step.task;
    if IsTask(s, t) {
      WithoutTasks(s, t);
      if step.DropStep? {
        if s.tasks[t].Collected? {
          DropKeeps(s, t);
        }
      } else if step.RemoveStep? {
        if s.tasks[t].Condemned? {
          RemovalKeeps(s, t);
        }
      } else {
        SameRowsSameRefs(s, Take(s, step));
        assert TaskOk(s, s.tasks[t]);
        QuietStepKeeps(s, Take(s, step));
      }
    }
  }

  lemma DropKeeps(s: Shelf, t: nat)
    requires Inv(s) && IsTask(s, t) && s.tasks[t].Collected?
    ensures Inv(Take(s, DropStep(t)))
  {
    hide Referenced;
    WithoutTasks(s, t);
    assert TaskOk(s, s.tasks[t]);
    var rows := DropRows(s, s.tasks[t].section, s.tasks[t].day);
    DropRefs(s, s.tasks[t].section, s.tasks[t].day);
    SameRowsSameRefs(rows, Take(s, DropStep(t)));
    hide DropRows;
    QuietStepKeeps(s, Take(s, DropStep(t)));
  }

  lemma RemovalKeeps(s: Shelf, t: nat)
    requires Inv(s) && IsTask(s, t) && s.tasks[t].Condemned?
    ensures Inv(Take(s, RemoveStep(t)))
  {
    var s1 := Take(s, RemoveStep(t));
    assert TaskOk(s, s.tasks[t]);
    WithoutTasks(s, t);
    assert forall p :: Referenced(s1, p) == Referenced(s, p);
    hide Referenced;
    assert forall p :: Settled(s, p) ==> Settled(s1, p);
    forall i | 0 <= i < |s1.tasks| ensures TaskOk(s1, s1.tasks[i]) {
      var j := if i < t then i else i + 1;
      assert s1.tasks[i] == s.tasks[j];
      assert TaskOk(s, s.tasks[j]);
    }
  }

  lemma JournalStepKeeps(s: Shelf, step: Step)
    requires Inv(s) && (step.WriteText? || step.Ensure? || step.ChangeJournalBlock? || step.DeleteJournalBlock?)
    ensures Inv(Take(s, step))
  {
    var user, day := step.user, step.day;
    match step {
      case WriteText(_, _, b) =>
        if b.path.None? {
          var ensured := EnsurePage(s, user, day);
          EnsureRefs(s, user, day);
          forall p | Referenced(AppendBlock(ensured, user, day, b), p) ensures Referenced(s, p) {
            AppendRefs(ensured, user, day, b, p);
          }
          hide Referenced;
          QuietStepKeeps(s, Take(s, step));
        }
      case Ensure(_, _) =>
        EnsureRefs(s, user, day);
        hide Referenced;
        QuietStepKeeps(s, Take(s, step));
      case ChangeJournalBlock(_, _, k, b) =>
        if day in PagesOf(s, user) && k < |PagesOf(s, user)[day].blocks| && b.path == PagesOf(s, user)[day].blocks[k].path {
          var blocks := PagesOf(s, user)[day].blocks;
          forall p | HasPath(blocks[k := b], p) ensures HasPath(blocks, p) {
            SamePathPaths(blocks, k, b, p);
          }
          hide Referenced;
          QuietStepKeeps(s, Take(s, step));
        }
      case DeleteJournalBlock(_, _, k) =>
        if day in PagesOf(s, user) && k < |PagesOf(s, user)[day].blocks| {
          DeletedJournalBlock(s, user, day, k);
        }
    }
  }

  lemma DeletedJournalBlock(s: Shelf, user: nat, day: Day, k: nat)
    requires Inv(s) && day in PagesOf(s, user) && k < |PagesOf(s, user)[day].blocks|
    ensures Inv(Take(s, DeleteJournalBlock(user, day, k)))
  {
    var blocks := PagesOf(s, user)[day].blocks;
    forall p | HasPath(Without(blocks, k), p) ensures HasPath(blocks, p) {
      WithoutPaths(blocks, k, p);
    }
    if blocks[k].path.Some? {
      assert HasPath(blocks, blocks[k].path.value);
      assert InPages(PagesOf(s, user), blocks[k].path.value);
      PageRefs(s, user, blocks[k].path.value);
    }
    var rows := RemoveBlock(s, user, day, k);
    var s1 := Take(s, DeleteJournalBlock(user, day, k));
    assert forall p :: Referenced(s1, p) == Referenced(rows, p);
    hide Referenced;
    QuietStepKeeps(s, s1);
  }

  lemma SnapshotStepKeeps(s: Shelf, step: Step)
    requires Inv(s)
    requires step.AttachStep? || step.RefreshStep? || step.ChangeSnapshotBlock? || step.DeleteSnapshotBlock?
             || step.CollectStep?
    ensures Inv(Take(s, step))
  {
    var s1 := Take(s, step);
    match step {
      case AttachStep(issue, user, from, through) =>
        if AttachSection(s, issue, user, from, through).Some? {
          AttachRefs(s, issue, user, from, through);
          hide Referenced;
          QuietStepKeeps(s, s1);
        }
      case RefreshStep(id, through) =>
        if id in s.sections {
          RefreshRefs(s, id, through);
          hide Referenced;
          QuietStepKeeps(s, s1);
        }
      case ChangeSnapshotBlock(id, day, k, b) =>
        if s1 != s {
          EditRefs(s, id, day, k, b);
          hide Referenced;
          QuietStepKeeps(s, s1);
        }
      case DeleteSnapshotBlock(id, day, k) =>
        if id in s.sections && day in s.sections[id].section.days && k < |s.sections[id].section.days[day]| {
          DeletedSnapshotBlock(s, id, day, k);
        }
      case CollectStep(id, day, paths) =>
        if id in s.sections && Lists(s, id, day, paths) {
          CollectedPaths(s, id, day, paths);
        }
    }
  }

  lemma DeletedSnapshotBlock(s: Shelf, id: nat, day: Day, k: nat)
    requires Inv(s) && id in s.sections && day in s.sections[id].section.days && k < |s.sections[id].section.days[day]|
    ensures Inv(Take(s, DeleteSnapshotBlock(id, day, k)))
  {
    TrimRefs(s, id, day, k);
    var blocks := s.sections[id].section.days[day];
    if blocks[k].path.Some? {
      assert HasPath(blocks, blocks[k].path.value);
      SnapshotRefs(s, id, blocks[k].path.value);
    }
    var rows := SetSection(s, id, TrimBlock(s.sections[id].section, day, k));
    var s1 := Take(s, DeleteSnapshotBlock(id, day, k));
    assert forall p :: Referenced(s1, p) == Referenced(rows, p);
    hide Referenced;
    QuietStepKeeps(s, s1);
  }

  lemma ListedInSection(s: Shelf, id: nat, day: Option<Day>, paths: seq<Path>, p: Path)
    requires id in s.sections && Lists(s, id, day, paths) && p in paths
    ensures InSection(s.sections[id].section, p)
  {
    assert InRows(s.sections[id].section, day, p);
  }

  lemma CollectedPaths(s: Shelf, id: nat, day: Option<Day>, paths: seq<Path>)
    requires Inv(s) && id in s.sections && Lists(s, id, day, paths)
    ensures Inv(Take(s, CollectStep(id, day, paths)))
  {
    forall i | 0 <= i < |paths| ensures Referenced(s, paths[i]) {
      ListedInSection(s, id, day, paths, paths[i]);
      SnapshotRefs(s, id, paths[i]);
    }
    var s1 := Take(s, CollectStep(id, day, paths));
    assert forall p :: Referenced(s1, p) == Referenced(s, p);
    hide Referenced;
    QuietStepKeeps(s, s1);
  }

  lemma StepKeeps(s: Shelf, step: Step)
    requires Inv(s)
    ensures Inv(Take(s, step))
  {
    hide Inv, Take;
    if step.ReceiveFile? {
      ReceiveKeeps(s, step.page);
    } else if step.FinishUpload? {
      FinishKeeps(s, step.task, step.block);
    } else if step.CountStep? || step.RemoveStep? || step.Abandon? || step.DropStep? {
      TaskStepKeeps(s, step);
    } else if step.WriteText? || step.Ensure? || step.ChangeJournalBlock? || step.DeleteJournalBlock? {
      JournalStepKeeps(s, step);
    } else {
      SnapshotStepKeeps(s, step);
    }
  }

  lemma {:induction false} RunKeeps(s: Shelf, steps: seq<Step>)
    requires Inv(s)
    ensures Inv(Run(s, steps))
  {
    if steps != [] {
      RunKeeps(s, steps[..|steps| - 1]);
      hide Inv, Take;
      StepKeeps(Run(s, steps[..|steps| - 1]), steps[|steps| - 1]);
    }
  }

  const EMPTY := Shelf(map[], map[], 0, {}, 0, [])

  /** No interleaving of uploads, edits, attaching, refreshing, detaching and
      cleanup, whichever handlers die on the way, removes a file that a journal
      page or a snapshot still points at. */
  lemma {:induction false} ReferencedFilesStay(steps: seq<Step>, p: Path)
    ensures Referenced(Run(EMPTY, steps), p) ==> p in Run(EMPTY, steps).files
  {
    assert forall q :: !Referenced(EMPTY, q);
    assert Inv(EMPTY);
    RunKeeps(EMPTY, steps);
  }

  // ---- Zero is final -----------------------------------------------------

  /** Every statement but an upload's last brings in no reference, and that one
      brings in the upload's own path. */
  ghost predicate BringsIn(s: Shelf, step: Step, p: Path) {
    step.FinishUpload? && IsTask(s, step.task) && s.tasks[step.task].Receive? && s.tasks[step.task].path == p
  }

  lemma NewRefs(s: Shelf, step: Step, p: Path)
    requires Referenced(Take(s, step), p)
    ensures Referenced(s, p) || BringsIn(s, step, p)
  {
    hide Referenced, Land, Lists, TrimBlock, EditBlock, AttachSection, RefreshSection, DropRows, AppendBlock,
        ChangeBlock, RemoveBlock;
    var s1 := Take(s, step);
    match step {
      case WriteText(user, day, b) =>
        if b.path.None? {
          EnsureRefs(s, user, day);
          AppendRefs(EnsurePage(s, user, day), user, day, b, p);
        }
      case Ensure(user, day) => EnsureRefs(s, user, day);
      case FinishUpload(t, b) =>
        if IsTask(s, t) && s.tasks[t].Receive? && b.path == Some(s.tasks[t].path) {
          LandRefs(s, s.tasks[t].page, b, Without(s.tasks, t), p);
        }
      case AttachStep(issue, user, from, through) =>
        if AttachSection(s, issue, user, from, through).Some? {
          AttachRefs(s, issue, user, from, through);
        }
      case RefreshStep(id, through) => if id in s.sections { RefreshRefs(s, id, through); }
      case ChangeSnapshotBlock(id, day, k, b) => if s1 != s { EditRefs(s, id, day, k, b); }
      case DropStep(t) =>
        if IsTask(s, t) && s.tasks[t].Collected? {
          DropRefs(s, s.tasks[t].section, s.tasks[t].day);
          SameRowsSameRefs(DropRows(s, s.tasks[t].section, s.tasks[t].day), s1);
        }
      case ChangeJournalBlock(_, _, _, _) => JournalNewRefs(s, step, p);
      case DeleteJournalBlock(_, _, _) => JournalNewRefs(s, step, p);
      case DeleteSnapshotBlock(id, day, k) =>
        if s1 != s {
          TrimRefs(s, id, day, k);
          SameRowsSameRefs(SetSection(s, id, TrimBlock(s.sections[id].section, day, k)), s1);
        }
      case _ => SameRowsSameRefs(s, s1);
    }
  }

  lemma JournalNewRefs(s: Shelf, step: Step, p: Path)
    requires step.ChangeJournalBlock? || step.DeleteJournalBlock?
    requires Referenced(Take(s, step), p)
    ensures Referenced(s, p)
  {
    var user, day, k := step.user, step.day, step.k;
    if Take(s, step) != s {
      var blocks := PagesOf(s, user)[day].blocks;
      if step.ChangeJournalBlock? {
        forall q | HasPath(blocks[k := step.block], q) ensures HasPath(blocks, q) {
          SamePathPaths(blocks, k, step.block, q);
        }
      } else {
        forall q | HasPath(Without(blocks, k), q) ensures HasPath(blocks, q) {
          WithoutPaths(blocks, k, q);
        }
        SameRowsSameRefs(RemoveBlock(s, user, day, k), Take(s, step));
      }
    }
  }

  lemma StaysSettled(s: Shelf, step: Step, p: Path)
    requires Settled(s, p)
    ensures Settled(Take(s, step), p)
  {
    var s1 := Take(s, step);
    assert s.nextPath <= s1.nextPath;
    forall i | 0 <= i < |s1.tasks| && s1.tasks[i].Receive? ensures s1.tasks[i].path != p {
      assert s1.tasks[i] in s.tasks || s1.tasks[i].path >= s.nextPath;
    }
  }

  /** Once nothing points at a path that no upload is still to bring in, nothing
      ever will: so a count of zero holds good however long after it the file is
      removed. */
  lemma {:induction false} ZeroIsFinal(s: Shelf, steps: seq<Step>, p: Path)
    requires Settled(s, p) && !Referenced(s, p)
    ensures Settled(Run(s, steps), p) && !Referenced(Run(s, steps), p)
  {
    if steps != [] {
      ZeroIsFinal(s, steps[..|steps| - 1], p);
      hide Referenced, Settled, Take;
      var before := Run(s, steps[..|steps| - 1]);
      StaysSettled(before, steps[|steps| - 1], p);
      if Referenced(Take(before, steps[|steps| - 1]), p) {
        NewRefs(before, steps[|steps| - 1], p);
      }
    }
  }

  // ---- One handler at a time ---------------------------------------------

  /** The loop of a handler that calls removeUploadIfUnreferenced; `stuck` are
      the turns whose count or removal fails, which is logged. */
  function CleanUp(s: Shelf, paths: seq<Path>, stuck: set<nat>): Shelf {
    if paths == [] then s
    else
      var last := |paths| - 1;
      var before := CleanUp(s, paths[..last], stuck);
      if last in stuck || Referenced(before, paths[last]) then before
      else before.(files := before.files - {paths[last]})
  }

  /** A path that some turn gets as far as counting and removing. */
  predicate HasTurn(paths: seq<Path>, stuck: set<nat>, p: Path) {
    exists k :: 0 <= k < |paths| && paths[k] == p && k !in stuck
  }

  lemma {:induction false} CleanUpFiles(s: Shelf, paths: seq<Path>, stuck: set<nat>)
    ensures CleanUp(s, paths, stuck) == s.(files := CleanUp(s, paths, stuck).files)
    ensures forall p: Path :: p in CleanUp(s, paths, stuck).files
                              <==> p in s.files && (HasTurn(paths, stuck, p) ==> Referenced(s, p))
  {
    if paths != [] {
      var front, last := paths[..|paths| - 1], |paths| - 1;
      CleanUpFiles(s, front, stuck);
      SameRowsSameRefs(s, CleanUp(s, front, stuck));
      forall p: Path ensures HasTurn(paths, stuck, p)
                             <==> HasTurn(front, stuck, p) || (last !in stuck && paths[last] == p) {
        HasTurnLast(paths, stuck, p);
      }
      hide Referenced, HasTurn;
    }
  }

  lemma HasTurnLast(paths: seq<Path>, stuck: set<nat>, p: Path)
    requires paths != []
    ensures var last := |paths| - 1;
            HasTurn(paths, stuck, p) <==> HasTurn(paths[..last], stuck, p) || (last !in stuck && paths[last] == p)
  {
    if k :| 0 <= k < |paths| - 1 && paths[k] == p && k !in stuck {
      assert paths[..|paths| - 1][k] == p;
    }
  }

  /** Nothing in flight, and exactly the files that something points at, but
      for those left behind. */
  ghost predicate Tidy(s: Shelf, left: set<Path>) {
    && s.tasks == []
    && (forall p: Path :: Referenced(s, p) ==> p in s.files)
    && (forall p: Path :: p in s.files ==> Referenced(s, p) || p in left)
  }

  /** A handler, run from its first statement to its last; of its calls, only
      those that clean up may fail. The file names an upload brings in are its
      own. */
  datatype Handler =
    | SaveText(user: nat, day: Day, block: Block)
    | Upload(user: nat, day: Day, block: Block)
    | DeleteFromJournal(user: nat, day: Day, k: nat, stuck: set<nat>)
    | AttachDiary(issue: nat, user: nat, from: Day, through: Day)
    | RefreshDiary(section: nat, through: Day)
    | DeleteFromSnapshot(section: nat, day: Day, k: nat, stuck: set<nat>)
    | DeleteDay(section: nat, day: Day, paths: seq<Path>, stuck: set<nat>)
    | Detach(section: nat, paths: seq<Path>, stuck: set<nat>)

  function PathOf(path: Option<Path>): seq<Path> { if path.Some? then [path.value] else [] }

  ghost predicate CanRun(s: Shelf, h: Handler) {
    match h
    case SaveText(_, _, b) => b.path.None?
    case Upload(_, _, b) => b.path == Some(s.nextPath)
    case DeleteFromJournal(user, day, k, _) => day in PagesOf(s, user) && k < |PagesOf(s, user)[day].blocks|
    case AttachDiary(issue, user, _, _) => !HasSection(s, issue, user)
    case RefreshDiary(id, _) => id in s.sections
    case DeleteFromSnapshot(id, day, k, _) =>
      id in s.sections && day in s.sections[id].section.days && k < |s.sections[id].section.days[day]|
    case DeleteDay(id, day, paths, _) => id in s.sections && Lists(s, id, Some(day), paths)
    case Detach(id, paths, _) => id in s.sections && Lists(s, id, None, paths)
  }

  function Handle(s: Shelf, h: Handler): Shelf
    requires CanRun(s, h)
  {
    match h
    case SaveText(user, day, b) => AppendBlock(EnsurePage(s, user, day), user, day, b)
    case Upload(user, day, b) =>
      var ensured := EnsurePage(s, user, day);
      AppendBlock(ensured.(files := s.files + {s.nextPath}, nextPath := s.nextPath + 1), user, day, b)
    case DeleteFromJournal(user, day, k, stuck) =>
      CleanUp(RemoveBlock(s, user, day, k), PathOf(PagesOf(s, user)[day].blocks[k].path), stuck)
    case AttachDiary(issue, user, from, through) => AttachSection(s, issue, user, from, through).value
    case RefreshDiary(id, through) => RefreshSection(s, id, through)
    case DeleteFromSnapshot(id, day, k, stuck) =>
      CleanUp(SetSection(s, id, TrimBlock(s.sections[id].section, day, k)),
          PathOf(s.sections[id].section.days[day][k].path), stuck)
    case DeleteDay(id, day, paths, stuck) => CleanUp(DropRows(s, id, Some(day)), paths, stuck)
    case Detach(id, paths, stuck) => CleanUp(DropRows(s, id, None), paths, stuck)
  }

  /** The paths that a clean-up may leave behind: those of its stuck turns. */
  function StuckOf(paths: seq<Path>, stuck: set<nat>): set<Path> { set k | k in stuck && k < |paths| :: paths[k] }

  function LeftBy(s: Shelf, h: Handler): set<Path>
    requires CanRun(s, h)
  {
    match h
    case DeleteFromJournal(user, day, k, stuck) => StuckOf(PathOf(PagesOf(s, user)[day].blocks[k].path), stuck)
    case DeleteFromSnapshot(id, day, k, stuck) => StuckOf(PathOf(s.sections[id].section.days[day][k].path), stuck)
    case DeleteDay(_, _, paths, stuck) => StuckOf(paths, stuck)
    case Detach(_, paths, stuck) => StuckOf(paths, stuck)
    case _ => {}
  }

  /** Deleting rows and cleaning up every path they held leaves things tidy. */
  lemma {:induction false} CleanUpTidies(s: Shelf, rows: Shelf, paths: seq<Path>, stuck: set<nat>, left: set<Path>)
    requires Tidy(s, left) && rows.files == s.files && rows.tasks == [] && NoNewRefs(s, rows)
    requires forall p :: Referenced(s, p) && !Referenced(rows, p) ==> p in paths
    ensures Tidy(CleanUp(rows, paths, stuck), left + StuckOf(paths, stuck))
  {
    CleanUpFiles(rows, paths, stuck);
    SameRowsSameRefs(rows, CleanUp(rows, paths, stuck));
    forall p | p in paths && !HasTurn(paths, stuck, p) ensures p in StuckOf(paths, stuck) {
      var k :| 0 <= k < |paths| && paths[k] == p;
    }
    hide Referenced, HasTurn;
  }

  lemma WithoutKeepsOthers(blocks: seq<Block>, k: nat, p: Path)
    requires k < |blocks| && HasPath(blocks, p) && blocks[k].path != Some(p)
    ensures HasPath(Without(blocks, k), p)
  {
    var i :| 0 <= i < |blocks| && blocks[i].path == Some(p);
    assert Without(blocks, k)[if i < k then i else i - 1].path == Some(p);
  }

  /** Removing a page's block loses no path but its own. */
  lemma RemoveLoses(s: Shelf, user: nat, day: Day, k: nat, p: Path)
    requires day in PagesOf(s, user) && k < |PagesOf(s, user)[day].blocks|
    requires Referenced(s, p) && PagesOf(s, user)[day].blocks[k].path != Some(p)
    ensures Referenced(RemoveBlock(s, user, day, k), p)
  {
    var s1 := RemoveBlock(s, user, day, k);
    var pages, after := PagesOf(s, user), PagesOf(s1, user);
    if InPages(pages, p) {
      var d :| d in pages && HasPath(pages[d].blocks, p);
      if d == day {
        WithoutKeepsOthers(pages[day].blocks, k, p);
      }
      assert HasPath(after[d].blocks, p);
      PageRefs(s1, user, p);
    } else {
      hide InPages, InSection;
      if exists id | id in s.sections :: InSection(s.sections[id].section, p) {
        assert s1.sections == s.sections;
      } else {
        var u :| u in s.pages && InPages(s.pages[u], p);
        assert u != user && s1.pages[u] == s.pages[u];
      }
    }
  }

  /** What a changed section no longer names was named in what it lost. */
  lemma SectionLoses(s: Shelf, id: nat, section: Section, p: Path)
    requires id in s.sections && Referenced(s, p)
    requires InSection(s.sections[id].section, p) ==> InSection(section, p)
    ensures Referenced(SetSection(s, id, section), p)
  {
    hide InPages, InSection;
    var s1 := SetSection(s, id, section);
    if exists i | i in s.sections :: InSection(s.sections[i].section, p) {
      var i :| i in s.sections && InSection(s.sections[i].section, p);
      assert InSection(s1.sections[i].section, p);
    } else {
      assert s1.pages == s.pages;
    }
  }

  lemma SnapshotDeleteTidies(s: Shelf, id: nat, day: Day, k: nat, stuck: set<nat>, left: set<Path>)
    requires Tidy(s, left) && CanRun(s, DeleteFromSnapshot(id, day, k, stuck))
    ensures var h := DeleteFromSnapshot(id, day, k, stuck);
            Tidy(Handle(s, h), left + LeftBy(s, h))
  {
    var section := s.sections[id].section;
    var after := TrimBlock(section, day, k);
    TrimRefs(s, id, day, k);
    forall p: Path | Referenced(s, p) && section.days[day][k].path != Some(p)
        ensures Referenced(SetSection(s, id, after), p) {
      if InSection(section, p) {
        var d :| d in section.days && HasPath(section.days[d], p);
        if d == day {
          WithoutKeepsOthers(section.days[day], k, p);
        }
        assert HasPath(after.days[d], p);
      }
      SectionLoses(s, id, after, p);
    }
    hide Referenced;
    CleanUpTidies(s, SetSection(s, id, after), PathOf(section.days[day][k].path), stuck, left);
  }

  lemma {:induction false} DropTidies(
    s: Shelf, id: nat, day: Option<Day>, paths: seq<Path>, stuck: set<nat>, left: set<Path>)
    requires Tidy(s, left) && id in s.sections && Lists(s, id, day, paths)
    ensures Tidy(CleanUp(DropRows(s, id, day), paths, stuck), left + StuckOf(paths, stuck))
  {
    var section := s.sections[id].section;
    var rows := DropRows(s, id, day);
    DropRefs(s, id, day);
    forall p | Referenced(s, p) && p !in paths ensures Referenced(rows, p) {
      if day.Some? {
        if InSection(section, p) {
          var d :| d in section.days && HasPath(section.days[d], p);
          assert d != day.value && HasPath(rows.sections[id].section.days[d], p);
        }
        SectionLoses(s, id, TrimDay(section, day.value), p);
      } else {
        hide InPages, InSection;
        if exists i | i in s.sections :: InSection(s.sections[i].section, p) {
          var i :| i in s.sections && InSection(s.sections[i].section, p);
          assert i != id && i in rows.sections;
        } else {
          assert rows.pages == s.pages;
        }
      }
    }
    hide Referenced;
    CleanUpTidies(s, rows, paths, stuck, left);
  }

  /** Appending, attaching and refreshing lose nothing. */
  lemma AppendLosesNothing(s: Shelf, user: nat, day: Day, b: Block, p: Path)
    requires day in PagesOf(s, user)
    requires Referenced(s, p) || b.path == Some(p)
    ensures Referenced(AppendBlock(s, user, day, b), p)
  {
    var s1 := AppendBlock(s, user, day, b);
    var pages, after := PagesOf(s, user), PagesOf(s1, user);
    if InPages(pages, p) || b.path == Some(p) {
      if b.path == Some(p) {
        AppendPaths(pages[day].blocks, b, p);
        assert HasPath(after[day].blocks, p);
      } else {
        var d :| d in pages && HasPath(pages[d].blocks, p);
        AppendPaths(pages[day].blocks, b, p);
        assert HasPath(after[d].blocks, p);
      }
      PageRefs(s1, user, p);
    } else {
      hide InPages, InSection;
      if exists id | id in s.sections :: InSection(s.sections[id].section, p) {
        assert s1.sections == s.sections;
      } else {
        var u :| u in s.pages && InPages(s.pages[u], p);
        assert u != user && s1.pages[u] == s.pages[u];
      }
    }
  }

  lemma EnsureLosesNothing(s: Shelf, user: nat, day: Day, p: Path)
    requires Referenced(s, p)
    ensures Referenced(EnsurePage(s, user, day), p)
  {
    var s1 := EnsurePage(s, user, day);
    var pages, after := PagesOf(s, user), PagesOf(s1, user);
    if InPages(pages, p) {
      var d :| d in pages && HasPath(pages[d].blocks, p);
      assert HasPath(after[d].blocks, p);
      PageRefs(s1, user, p);
    } else {
      hide InPages, InSection;
      if exists id | id in s.sections :: InSection(s.sections[id].section, p) {
        assert s1.sections == s.sections;
      } else {
        var u :| u in s.pages && InPages(s.pages[u], p);
        assert u in s1.pages && s1.pages[u] == s.pages[u];
      }
    }
  }

  lemma RefreshLosesNothing(s: Shelf, id: nat, through: Day, p: Path)
    requires id in s.sections && Referenced(s, p)
    ensures Referenced(RefreshSection(s, id, through), p)
  {
    var pages, section := PagesOf(s, s.sections[id].user), s.sections[id].section;
    var after := Refresh(pages, section, through);
    if InSection(section, p) {
      var d :| d in section.days && HasPath(section.days[d], p);
      if through >= section.copiedThrough {
        CopyDay(pages, section, section.copiedThrough, through, d);
      }
      assert HasPath(after.days[d], p);
    }
    SectionLoses(s, id, after, p);
  }

  lemma AttachLosesNothing(s: Shelf, issue: nat, user: nat, from: Day, through: Day, p: Path)
    requires Keyed(s) && AttachSection(s, issue, user, from, through).Some? && Referenced(s, p)
    ensures Referenced(AttachSection(s, issue, user, from, through).value, p)
  {
    hide InPages, InSection;
    var s1 := AttachSection(s, issue, user, from, through).value;
    if exists id | id in s.sections :: InSection(s.sections[id].section, p) {
      var id :| id in s.sections && InSection(s.sections[id].section, p);
      assert id in s1.sections && s1.sections[id] == s.sections[id];
    } else {
      assert s1.pages == s.pages;
    }
  }

  /** Section ids are handed out in advance of `nextId`. */
  ghost predicate Keyed(s: Shelf) { forall id :: id in s.sections ==> id < s.nextId }

  lemma WriteTidies(s: Shelf, user: nat, day: Day, b: Block, left: set<Path>)
    requires Tidy(s, left) && (b.path.None? || b.path == Some(s.nextPath))
    ensures Tidy(Handle(s, if b.path.None? then SaveText(user, day, b) else Upload(user, day, b)), left)
  {
    var h := if b.path.None? then SaveText(user, day, b) else Upload(user, day, b);
    var ensured := EnsurePage(s, user, day);
    var after := Handle(s, h);
    var ready := if b.path.None? then ensured else ensured.(files := s.files + {s.nextPath}, nextPath := s.nextPath + 1);
    assert after == AppendBlock(ready, user, day, b);
    SameRowsSameRefs(ensured, ready);
    EnsureRefs(s, user, day);
    hide EnsurePage, AppendBlock;
    forall p: Path ensures Referenced(after, p) <==> Referenced(s, p) || b.path == Some(p) {
      if Referenced(after, p) {
        AppendRefs(ready, user, day, b, p);
      }
      if Referenced(s, p) {
        EnsureLosesNothing(s, user, day, p);
      }
      if Referenced(s, p) || b.path == Some(p) {
        AppendLosesNothing(ready, user, day, b, p);
      }
    }
  }

  lemma HandleTidies(s: Shelf, h: Handler, left: set<Path>)
    requires Tidy(s, left) && Keyed(s) && CanRun(s, h)
    ensures Tidy(Handle(s, h), left + LeftBy(s, h))
  {
    match h {
      case SaveText(user, day, b) => WriteTidies(s, user, day, b, left);
      case Upload(user, day, b) => WriteTidies(s, user, day, b, left);
      case DeleteFromJournal(user, day, k, stuck) =>
        JournalDeleteTidies(s, user, day, k, stuck, left);
      case AttachDiary(issue, user, from, through) =>
        AttachRefs(s, issue, user, from, through);
        forall p | Referenced(s, p) ensures Referenced(Handle(s, h), p) {
          AttachLosesNothing(s, issue, user, from, through, p);
        }
        hide Referenced;
      case RefreshDiary(id, through) =>
        RefreshRefs(s, id, through);
        forall p | Referenced(s, p) ensures Referenced(Handle(s, h), p) {
          RefreshLosesNothing(s, id, through, p);
        }
        hide Referenced;
      case DeleteFromSnapshot(id, day, k, stuck) => SnapshotDeleteTidies(s, id, day, k, stuck, left);
      case DeleteDay(id, day, paths, stuck) => DropTidies(s, id, Some(day), paths, stuck, left);
      case Detach(id, paths, stuck) => DropTidies(s, id, None, paths, stuck, left);
    }
  }

  lemma JournalDeleteTidies(s: Shelf, user: nat, day: Day, k: nat, stuck: set<nat>, left: set<Path>)
    requires Tidy(s, left) && CanRun(s, DeleteFromJournal(user, day, k, stuck))
    ensures var h := DeleteFromJournal(user, day, k, stuck);
            Tidy(Handle(s, h), left + LeftBy(s, h))
  {
    var blocks := PagesOf(s, user)[day].blocks;
    var rows := RemoveBlock(s, user, day, k);
    forall p | HasPath(Without(blocks, k), p) ensures HasPath(blocks, p) {
      WithoutPaths(blocks, k, p);
    }
    forall p: Path | Referenced(s, p) && blocks[k].path != Some(p) ensures Referenced(rows, p) {
      RemoveLoses(s, user, day, k, p);
    }
    assert NoNewRefs(s, rows);
    hide Referenced;
    CleanUpTidies(s, rows, PathOf(blocks[k].path), stuck, left);
  }

  lemma HandleKeyed(s: Shelf, h: Handler)
    requires Keyed(s) && CanRun(s, h)
    ensures Keyed(Handle(s, h))
  {
    hide Lists, Refresh, Attach, CleanUp, Referenced;
    match h {
      case DeleteFromJournal(user, day, k, stuck) =>
        CleanUpFiles(RemoveBlock(s, user, day, k), PathOf(PagesOf(s, user)[day].blocks[k].path), stuck);
      case DeleteFromSnapshot(id, day, k, stuck) =>
        CleanUpFiles(SetSection(s, id, TrimBlock(s.sections[id].section, day, k)),
            PathOf(s.sections[id].section.days[day][k].path), stuck);
      case DeleteDay(id, day, paths, stuck) => CleanUpFiles(DropRows(s, id, Some(day)), paths, stuck);
      case Detach(id, paths, stuck) => CleanUpFiles(DropRows(s, id, None), paths, stuck);
      case _ =>
    }
  }

  ghost function HandleAll(s: Shelf, handlers: seq<Handler>): Shelf {
    if handlers == [] then s
    else
      var before := HandleAll(s, handlers[..|handlers| - 1]);
      if CanRun(before, handlers[|handlers| - 1]) then Handle(before, handlers[|handlers| - 1]) else before
  }

  /** The paths whose count or removal got stuck in some handler. */
  ghost function LeftByAll(s: Shelf, handlers: seq<Handler>): set<Path> {
    if handlers == [] then {}
    else
      var front, last := handlers[..|handlers| - 1], handlers[|handlers| - 1];
      var before := HandleAll(s, front);
      LeftByAll(s, front) + if CanRun(before, last) then LeftBy(before, last) else {}
  }

  predicate Unfailing(h: Handler) {
    h.SaveText? || h.Upload? || h.AttachDiary? || h.RefreshDiary? || h.stuck == {}
  }

  /** Run one at a time, handlers keep every file that a journal page or a
      snapshot points at, and no other but those whose clean-up got stuck; so
      without such failures exactly the files that something points at. */
  lemma {:induction false} FilesAreTheReferencedOnes(handlers: seq<Handler>)
    ensures var s := HandleAll(EMPTY, handlers);
            && Tidy(s, LeftByAll(EMPTY, handlers)) && Keyed(s)
            && ((forall h :: h in handlers ==> Unfailing(h)) ==> forall p: Path :: p in s.files <==> Referenced(s, p))
  {
    StaysTidy(handlers);
    if forall h :: h in handlers ==> Unfailing(h) {
      NothingLeft(EMPTY, handlers);
    }
    hide Referenced;
  }

  lemma {:induction false} StaysTidy(handlers: seq<Handler>)
    ensures Tidy(HandleAll(EMPTY, handlers), LeftByAll(EMPTY, handlers)) && Keyed(HandleAll(EMPTY, handlers))
  {
    if handlers == [] {
      assert forall p :: !Referenced(EMPTY, p);
    } else {
      var front, last := handlers[..|handlers| - 1], handlers[|handlers| - 1];
      StaysTidy(front);
      var before := HandleAll(EMPTY, front);
      hide Tidy, Keyed, Handle, LeftBy;
      if CanRun(before, last) {
        HandleTidies(before, last, LeftByAll(EMPTY, front));
        HandleKeyed(before, last);
      } else {
        assert LeftByAll(EMPTY, handlers) == LeftByAll(EMPTY, front);
      }
    }
  }

  lemma {:induction false} NothingLeft(s: Shelf, handlers: seq<Handler>)
    requires forall h :: h in handlers ==> Unfailing(h)
    ensures LeftByAll(s, handlers) == {}
  {
    if handlers != [] {
      assert handlers[|handlers| - 1] in handlers;
      NothingLeft(s, handlers[..|handlers| - 1]);
      hide HandleAll, Referenced, Lists;
    }
  }

  // ---- A handler is the run of its statements ----------------------------

  /** Page ids are handed out in advance of `nextId`, each once. */
  ghost predicate PagesKeyed(s: Shelf) {
    && (forall id: nat, user: nat, day :: PageIs(s, id, user, day) ==> id < s.nextId)
    && (forall id: nat, user: nat, day, user1: nat, day1 :: PageIs(s, id, user, day) && PageIs(s, id, user1, day1) ==>
          user == user1 && day == day1)
  }

  lemma {:induction false} RunOneMore(s: Shelf, steps: seq<Step>, last: Step)
    ensures Run(s, steps + [last]) == Take(Run(s, steps), last)
  {
    hide Take;
    assert (steps + [last])[..|steps|] == steps;
  }

  /** One turn of a clean-up: a count, and a removal unless something points at
      the path; or, for a stuck one, neither. */
  lemma {:induction false} CleaningTurn(s: Shelf, steps: seq<Step>, rows: Shelf, paths: seq<Path>, stuck: bool)
    returns (more: seq<Step>)
    requires rows.tasks == [] && paths != [] && Run(s, steps) == rows.(tasks := CleanAll(paths))
    ensures var files := if stuck || Referenced(rows, paths[0]) then rows.files else rows.files - {paths[0]};
            Run(s, more) == rows.(files := files, tasks := CleanAll(paths[1..]))
  {
    var rest := CleanAll(paths[1..]);
    SameRowsSameRefs(rows, Run(s, steps));
    assert Without(CleanAll(paths), 0) == rest;
    hide Run, CleanAll, Referenced;
    more := steps + [if stuck then Abandon(0) else CountStep(0)];
    RunOneMore(s, steps, if stuck then Abandon(0) else CountStep(0));
    if stuck || Referenced(rows, paths[0]) {
      assert rest + [] == rest;
    } else {
      RunOneMore(s, more, RemoveStep(|rest|));
      more := more + [RemoveStep(|rest|)];
      assert Without(rest + [Condemned(paths[0])], |rest|) == rest;
    }
  }

  lemma {:induction false} CleaningRuns(s: Shelf, rows: Shelf, before: seq<Step>, paths: seq<Path>, stuck: set<nat>)
    returns (steps: seq<Step>)
    requires rows.tasks == [] && Run(s, before) == rows.(tasks := CleanAll(paths))
    ensures Run(s, steps) == CleanUp(rows, paths, stuck)
  {
    hide Referenced, Take, Run;
    steps := before;
    assert paths[..0] == [] && paths[0..] == paths;
    for k := 0 to |paths|
      invariant Run(s, steps) == CleanUp(rows, paths[..k], stuck).(tasks := CleanAll(paths[k..]))
    {
      assert paths[..k + 1][..k] == paths[..k] && paths[k..][1..] == paths[k + 1..];
      CleanUpFiles(rows, paths[..k], stuck);
      steps := CleaningTurn(s, steps, CleanUp(rows, paths[..k], stuck), paths[k..], k in stuck);
    }
    assert paths[..|paths|] == paths && CleanAll(paths[|paths|..]) == [];
    CleanUpFiles(rows, paths, stuck);
  }

  lemma {:induction false} TwoMore(s: Shelf, steps: seq<Step>, first: Step, last: Step)
    ensures Run(s, steps + [first, last]) == Take(Take(Run(s, steps), first), last)
  {
    hide Take;
    RunOneMore(s, steps, first);
    RunOneMore(s, steps + [first], last);
    assert steps + [first, last] == steps + [first] + [last];
  }

  lemma LandsThere(s: Shelf, s1: Shelf, user: nat, day: Day, b: Block)
    requires PagesKeyed(s) && s1.pages == s.pages && day in PagesOf(s, user)
    ensures Land(s1, PagesOf(s, user)[day].id, b) == AppendBlock(s1, user, day, b)
  {
    var id := PagesOf(s, user)[day].id;
    assert PageIs(s1, id, user, day);
    assert forall u: nat, d :: PageIs(s1, id, u, d) ==> PageIs(s, id, u, d);
  }

  /** An upload lands on the page that its first statement found or made. */
  lemma {:induction false} UploadRuns(s: Shelf, before: seq<Step>, user: nat, day: Day, b: Block)
    returns (steps: seq<Step>)
    requires Run(s, before).tasks == [] && PagesKeyed(Run(s, before)) && b.path == Some(Run(s, before).nextPath)
    ensures Run(s, steps) == Handle(Run(s, before), Upload(user, day, b))
  {
    var ensured := EnsurePage(Run(s, before), user, day);
    var page := PagesOf(ensured, user)[day].id;
    EnsureKeyed(Run(s, before), user, day);
    hide Run;
    RunOneMore(s, before, Ensure(user, day));
    TwoMore(s, before + [Ensure(user, day)], ReceiveFile(page), FinishUpload(0, b));
    steps := before + [Ensure(user, day)] + [ReceiveFile(page), FinishUpload(0, b)];
    LandsThere(ensured, Take(ensured, ReceiveFile(page)), user, day, b);
  }

  lemma EnsureKeyed(s: Shelf, user: nat, day: Day)
    requires PagesKeyed(s)
    ensures PagesKeyed(EnsurePage(s, user, day))
  {
    var s1 := EnsurePage(s, user, day);
    if s1 != s {
      forall id: nat, u: nat, d | PageIs(s1, id, u, d)
          ensures PageIs(s, id, u, d) || (id == s.nextId && u == user && d == day) {
      }
    }
  }

  /** A handler that nothing interrupts is one run of its statements. */
  lemma {:induction false} HandlerIsARun(s: Shelf, before: seq<Step>, h: Handler) returns (steps: seq<Step>)
    requires var now := Run(s, before); now.tasks == [] && PagesKeyed(now) && CanRun(now, h)
    ensures Run(s, steps) == Handle(Run(s, before), h)
  {
    var now := Run(s, before);
    hide Run, CleanUp, Lists, PagesKeyed, HasSection, Attach, Refresh, TrimBlock;
    match h {
      case SaveText(user, day, b) =>
        steps := before + [WriteText(user, day, b)];
        RunOneMore(s, before, WriteText(user, day, b));
      case Upload(user, day, b) => steps := UploadRuns(s, before, user, day, b);
      case DeleteFromJournal(user, day, k, stuck) =>
        var paths := PathOf(PagesOf(now, user)[day].blocks[k].path);
        RunOneMore(s, before, DeleteJournalBlock(user, day, k));
        assert [] + Released(PagesOf(now, user)[day].blocks[k].path) == CleanAll(paths);
        steps := CleaningRuns(s, RemoveBlock(now, user, day, k), before + [DeleteJournalBlock(user, day, k)], paths, stuck);
      case AttachDiary(issue, user, from, through) =>
        steps := before + [AttachStep(issue, user, from, through)];
        RunOneMore(s, before, AttachStep(issue, user, from, through));
      case RefreshDiary(id, through) =>
        steps := before + [RefreshStep(id, through)];
        RunOneMore(s, before, RefreshStep(id, through));
      case DeleteFromSnapshot(id, day, k, stuck) =>
        var path := now.sections[id].section.days[day][k].path;
        RunOneMore(s, before, DeleteSnapshotBlock(id, day, k));
        assert [] + Released(path) == CleanAll(PathOf(path));
        steps := CleaningRuns(s, SetSection(now, id, TrimBlock(now.sections[id].section, day, k)),
          before + [DeleteSnapshotBlock(id, day, k)], PathOf(path), stuck);
      case DeleteDay(id, day, paths, stuck) => steps := DropRuns(s, before, id, Some(day), paths, stuck);
      case Detach(id, paths, stuck) => steps := DropRuns(s, before, id, None, paths, stuck);
    }
  }

  lemma {:induction false} DropRuns(
    s: Shelf, before: seq<Step>, id: nat, day: Option<Day>, paths: seq<Path>, stuck: set<nat>)
    returns (steps: seq<Step>)
    requires var now := Run(s, before); now.tasks == [] && id in now.sections && Lists(now, id, day, paths)
    ensures Run(s, steps) == CleanUp(DropRows(Run(s, before), id, day), paths, stuck)
  {
    var now := Run(s, before);
    hide Run, CleanUp, Lists, CleanAll;
    TwoMore(s, before, CollectStep(id, day, paths), DropStep(0));
    assert Without([Collected(id, day, paths)], 0) + CleanAll(paths) == CleanAll(paths);
    steps := CleaningRuns(s, DropRows(now, id, day), before + [CollectStep(id, day, paths), DropStep(0)], paths, stuck);
  }

  lemma SamePagesKeyed(s: Shelf, s1: Shelf)
    requires PagesKeyed(s) && s1.nextId >= s.nextId
    requires forall id: nat, user: nat, day :: PageIs(s1, id, user, day) ==> PageIs(s, id, user, day)
    ensures PagesKeyed(s1)
  {
    hide PageIs;
  }

  lemma HandleKeepsPages(s: Shelf, h: Handler)
    requires PagesKeyed(s) && CanRun(s, h)
    ensures PagesKeyed(Handle(s, h)) && Handle(s, h).tasks == s.tasks
  {
    hide Lists, Refresh, Attach, CleanUp, Referenced, HasSection;
    match h {
      case SaveText(user, day, b) =>
        EnsureKeyed(s, user, day);
        SamePagesKeyed(EnsurePage(s, user, day), Handle(s, h));
      case Upload(user, day, b) =>
        EnsureKeyed(s, user, day);
        SamePagesKeyed(EnsurePage(s, user, day), Handle(s, h));
      case DeleteFromJournal(user, day, k, stuck) =>
        CleanUpFiles(RemoveBlock(s, user, day, k), PathOf(PagesOf(s, user)[day].blocks[k].path), stuck);
      case DeleteFromSnapshot(id, day, k, stuck) =>
        CleanUpFiles(SetSection(s, id, TrimBlock(s.sections[id].section, day, k)),
            PathOf(s.sections[id].section.days[day][k].path), stuck);
      case DeleteDay(id, day, paths, stuck) => CleanUpFiles(DropRows(s, id, Some(day)), paths, stuck);
      case Detach(id, paths, stuck) => CleanUpFiles(DropRows(s, id, None), paths, stuck);
      case _ =>
    }
    if !h.SaveText? && !h.Upload? {
      SamePagesKeyed(s, Handle(s, h));
    }
  }

  /** Handlers run one at a time are one of the interleavings of their
      statements. */
  lemma {:induction false} HandlersAreARun(handlers: seq<Handler>) returns (steps: seq<Step>)
    ensures Run(EMPTY, steps) == HandleAll(EMPTY, handlers)
    ensures PagesKeyed(HandleAll(EMPTY, handlers)) && HandleAll(EMPTY, handlers).tasks == []
  {
    if handlers == [] {
      steps := [];
    } else {
      hide Take, Handle, CanRun, PagesKeyed;
      var front, last := handlers[..|handlers| - 1], handlers[|handlers| - 1];
      steps := HandlersAreARun(front);
      if CanRun(HandleAll(EMPTY, front), last) {
        HandleKeepsPages(HandleAll(EMPTY, front), last);
        steps := HandlerIsARun(EMPTY, steps, last);
      }
    }
  }

  // ---- What a handler leaves ---------------------------------------------

  /** A member's own blocks of a day. */
  function BlocksOf(s: Shelf, user: nat, day: Day): seq<Block> {
    if user in s.pages && day in s.pages[user] then s.pages[user][day].blocks else []
  }

  ghost predicate HasPage(s: Shelf, user: nat, day: Day) { user in s.pages && day in s.pages[user] }

  /** Nothing in any journal differs, but for one member's day. */
  ghost predicate OnlyDayDiffers(s: Shelf, s1: Shelf, user: nat, day: Day) {
    forall u: nat, d :: (u != user || d != day) ==>
      HasPage(s1, u, d) == HasPage(s, u, d) && (HasPage(s, u, d) ==> s1.pages[u][d] == s.pages[u][d])
  }

  /** Writing appends the block to the member's page of the day, making the page
      if need be, and touches nothing else; an upload keeps its file too. */
  lemma WriteOutcome(s: Shelf, h: Handler)
    requires CanRun(s, h) && (h.SaveText? || h.Upload?)
    ensures var s1 := Handle(s, h);
            && HasPage(s1, h.user, h.day)
            && BlocksOf(s1, h.user, h.day) == BlocksOf(s, h.user, h.day) + [h.block]
            && (HasPage(s, h.user, h.day) ==> s1.pages[h.user][h.day].id == s.pages[h.user][h.day].id)
            && OnlyDayDiffers(s, s1, h.user, h.day)
            && s1.sections == s.sections
            && s1.files == s.files + (if h.Upload? then {s.nextPath} else {})
            && (h.Upload? ==> s1.nextPath > s.nextPath)
  {
    assert [] + [h.block] == [h.block];
  }

  /** Deleting a block takes that block out, and the page with the last one; its
      file goes if nothing in any journal or snapshot shows it any more. */
  lemma JournalDeleteOutcome(s: Shelf, h: Handler)
    requires CanRun(s, h) && h.DeleteFromJournal?
    ensures var s1, was := Handle(s, h), BlocksOf(s, h.user, h.day);
            && BlocksOf(s1, h.user, h.day) == was[..h.k] + was[h.k + 1..]
            && (HasPage(s1, h.user, h.day) <==> |was| > 1)
            && OnlyDayDiffers(s, s1, h.user, h.day)
            && s1.sections == s.sections
            && forall p: Path :: p in s1.files <==>
                 p in s.files && (was[h.k].path == Some(p) && 0 !in h.stuck ==> Referenced(s1, p))
  {
    hide Referenced;
    var path := BlocksOf(s, h.user, h.day)[h.k].path;
    CleanUpFiles(RemoveBlock(s, h.user, h.day, h.k), PathOf(path), h.stuck);
    SameRowsSameRefs(RemoveBlock(s, h.user, h.day, h.k), Handle(s, h));
    forall p: Path ensures HasTurn(PathOf(path), h.stuck, p) <==> path == Some(p) && 0 !in h.stuck {
      if path == Some(p) {
        assert PathOf(path)[0] == p;
      }
    }
  }

  /** A member's second section on an issue is refused, and no other. */
  lemma AttachOutcome(s: Shelf, issue: nat, user: nat, from: Day, through: Day)
    ensures AttachSection(s, issue, user, from, through).None?
            <==> exists id :: id in s.sections && s.sections[id].issue == issue && s.sections[id].user == user
  {
  }

  ghost predicate OneSectionEach(s: Shelf) {
    && Keyed(s)
    && (forall i: nat, j: nat | i in s.sections && j in s.sections ::
          s.sections[i].issue == s.sections[j].issue && s.sections[i].user == s.sections[j].user ==> i == j)
  }

  lemma StepKeepsOneEach(s: Shelf, step: Step)
    requires OneSectionEach(s)
    ensures OneSectionEach(Take(s, step))
  {
    hide Referenced, Lists, TrimBlock, EditBlock, Refresh, Attach, TrimDay, PageIs;
    match step {
      case AttachStep(issue, user, from, through) => AttachOutcome(s, issue, user, from, through);
      case _ =>
    }
  }

  /** Through any interleaving no member has two sections on an issue. */
  lemma {:induction false} NeverTwoSections(steps: seq<Step>)
    ensures OneSectionEach(Run(EMPTY, steps))
  {
    if steps != [] {
      NeverTwoSections(steps[..|steps| - 1]);
      hide Take, OneSectionEach;
      StepKeepsOneEach(Run(EMPTY, steps[..|steps| - 1]), steps[|steps| - 1]);
    }
  }

  /** Attaching and refreshing write one section, and no file comes or goes. */
  lemma SnapshotOutcome(s: Shelf, h: Handler)
    requires CanRun(s, h) && (h.AttachDiary? || h.RefreshDiary?)
    ensures var s1, id := Handle(s, h), if h.AttachDiary? then s.nextId else h.section;
            && s1.pages == s.pages && s1.files == s.files
            && id in s1.sections
            && (forall i: nat :: i != id ==> (i in s1.sections <==> i in s.sections))
            && (forall i: nat :: i != id && i in s.sections ==> s1.sections[i] == s.sections[i])
            && (h.AttachDiary? ==>
                  s1.sections[id] == Attached(h.issue, h.user, Attach(PagesOf(s, h.user), h.from, h.through)))
            && (h.RefreshDiary? ==>
                  var was := s.sections[id];
                  s1.sections[id] == Attached(was.issue, was.user, Refresh(PagesOf(s, was.user), was.section, h.through)))
  {
    hide Attach, Refresh, HasSection;
  }

  /** Deleting a day or detaching takes away that day or that section and
      nothing else, and every file the rows showed that nothing shows any more,
      but for stuck turns. */
  lemma SnapshotDeleteOutcome(s: Shelf, h: Handler)
    requires CanRun(s, h) && (h.DeleteDay? || h.Detach?)
    ensures var s1 := Handle(s, h);
            && s1.pages == s.pages
            && (forall i: nat :: i in s1.sections <==> i in s.sections && (h.Detach? ==> i != h.section))
            && (forall i: nat :: i in s1.sections && i != h.section ==> s1.sections[i] == s.sections[i])
            && (h.DeleteDay? ==>
                  var was := s.sections[h.section];
                  s1.sections[h.section] == was.(section := was.section.(days := was.section.days - {h.day})))
            && forall p: Path :: p in s1.files <==>
                 p in s.files && (HasTurn(h.paths, h.stuck, p) ==> Referenced(s1, p))
  {
    hide Referenced, HasTurn, Lists;
    var day := if h.DeleteDay? then Some(h.day) else None;
    CleanUpFiles(DropRows(s, h.section, day), h.paths, h.stuck);
    SameRowsSameRefs(DropRows(s, h.section, day), Handle(s, h));
  }

  /** Deleting one block of a snapshot trims that section and no other; its file
      goes if nothing shows it any more. */
  lemma TrimOutcome(s: Shelf, h: Handler)
    requires CanRun(s, h) && h.DeleteFromSnapshot?
    ensures var s1, was := Handle(s, h), s.sections[h.section];
            && s1.pages == s.pages
            && s1.sections == s.sections[h.section :=
                 Attached(was.issue, was.user, Apply(was.section, TrimBlockEdit(h.day, h.k)))]
            && forall p: Path :: p in s1.files <==>
                 p in s.files && (was.section.days[h.day][h.k].path == Some(p) && 0 !in h.stuck ==> Referenced(s1, p))
  {
    hide Referenced;
    var was := s.sections[h.section].section;
    var path := was.days[h.day][h.k].path;
    var rows := SetSection(s, h.section, TrimBlock(was, h.day, h.k));
    CleanUpFiles(rows, PathOf(path), h.stuck);
    SameRowsSameRefs(rows, Handle(s, h));
    forall p: Path ensures HasTurn(PathOf(path), h.stuck, p) <==> path == Some(p) && 0 !in h.stuck {
      if path == Some(p) {
        assert PathOf(path)[0] == p;
      }
    }
  }

  /** An edit puts the new block where the old one stood, keeping its path, on
      the journal page or in the section it was meant for. */
  lemma ChangeOutcome(s: Shelf, step: Step)
    requires step.ChangeJournalBlock? || step.ChangeSnapshotBlock?
    ensures var s1 := Take(s, step);
            && s1.files == s.files && s1.tasks == s.tasks && s1.nextId == s.nextId && s1.nextPath == s.nextPath
            && (step.ChangeJournalBlock? ==>
                  var was := BlocksOf(s, step.user, step.day);
                  && s1.sections == s.sections
                  && OnlyDayDiffers(s, s1, step.user, step.day)
                  && (if step.k < |was| && was[step.k].path == step.block.path
                      then
                        && HasPage(s1, step.user, step.day)
                        && BlocksOf(s1, step.user, step.day) == was[step.k := step.block]
                      else s1 == s))
            && (step.ChangeSnapshotBlock? ==>
                  && s1.pages == s.pages
                  && if step.section !in s.sections then s1 == s
                     else
                       var was := s.sections[step.section];
                       var days := was.section.days;
                       if step.day in days && step.k < |days[step.day]| && days[step.day][step.k].path == step.block.path
                       then s1.sections == s.sections[step.section :=
                              was.(section := was.section.(days := days[step.day := days[step.day][step.k := step.block]]))]
                       else s1 == s)
  {
  }
}
