/** The journal and diary handlers as they run: statements on the tables, then
    a loop over the released paths. */
module JournalServer {
  import opened Options
  import opened Journal
  import opened UploadFiles

  class Server {
    var pages: map<nat, Pages>
    var sections: map<nat, Attached>
    var nextId: nat
    var files: set<Path>
    var nextPath: Path

    function View(): Shelf
      reads this
    {
      Shelf(pages, sections, nextId, files, nextPath, [])
    }

    // ---- Snapshots -------------------------------------------------------

    /** Copies journal days into a section in two statements. */
    method CopyDiaryDays(id: nat, user: nat, from: Day, through: Day) returns (copied: nat)
      requires id in sections
      modifies `sections
      ensures sections == old(SetSection(View(), id,
                CopyDays(PagesOf(View(), user), sections[id].section, from, through))).sections
      ensures copied == old(Copied(PagesOf(View(), user), sections[id].section, from, through))
    {
      var journal := PagesOf(View(), user);
      var section := sections[id].section;
      var inserted := map day | day in journal.Keys && Offered(journal, section, from, through, day) :: [];
      section := section.(days := section.days + inserted);
      copied := |inserted.Keys|;
      assert inserted.Keys == OfferedDays(journal, old(sections[id].section), from, through);
      section := section.(days := map day | day in section.days ::
        if section.days[day] == [] && day in journal then journal[day].blocks else section.days[day]);
      sections := sections[id := sections[id].(section := section)];
    }

    method AttachDiarySection(issue: nat, user: nat, from: Day, through: Day) returns (copied: Option<nat>)
      modifies `sections, `nextId
      ensures copied.None? <==> old(HasSection(View(), issue, user))
      ensures copied.None? ==> View() == old(View())
      ensures copied.Some? ==> View() == old(AttachSection(View(), issue, user, from, through).value)
      ensures copied.Some? ==> copied.value == old(Copied(PagesOf(View(), user), Section(through, map[]), from, through))
    {
      hide HasSection, CopyDays, Copied;
      if HasSection(View(), issue, user) {
        return None;
      }
      var id := nextId;
      sections := sections[id := Attached(issue, user, Section(through, map[]))];
      nextId := nextId + 1;
      var n := CopyDiaryDays(id, user, from, through);
      return Some(n);
    }

    method RefreshDiarySection(id: nat, through: Day) returns (added: nat)
      requires id in sections
      modifies `sections
      ensures View() == old(RefreshSection(View(), id, through))
      ensures added == old(Added(PagesOf(View(), sections[id].user), sections[id].section, through))
    {
      var boundary := sections[id].section.copiedThrough;
      if through < boundary {
        assert sections[id := sections[id]] == sections;
        return 0;
      }
      added := CopyDiaryDays(id, sections[id].user, boundary, through);
      sections := sections[id := sections[id].(section := sections[id].section.(copiedThrough := through))];
    }

    // ---- Cleanup ---------------------------------------------------------

    method RemoveUploadIfUnreferenced(path: Path, countFails: bool, removeFails: bool)
      modifies `files
      ensures View() == CleanUp(old(View()), [path], if countFails || removeFails then {0} else {})
    {
      assert [path][..0] == [];
      if countFails || Referenced(View(), path) {
        return;
      }
      if !removeFails {
        files := files - {path};
      }
    }

    /** `uncounted` and `unremoved` are the turns whose call fails. */
    method RemoveUnreferenced(paths: seq<Path>, uncounted: set<nat>, unremoved: set<nat>)
      modifies `files
      ensures View() == CleanUp(old(View()), paths, uncounted + unremoved)
    {
      hide Referenced;
      assert paths[..0] == [];
      for k := 0 to |paths|
        invariant View() == CleanUp(old(View()), paths[..k], uncounted + unremoved)
      {
        assert paths[..k + 1][..k] == paths[..k];
        RemoveUploadIfUnreferenced(paths[k], k in uncounted, k in unremoved);
      }
      assert paths[..|paths|] == paths;
    }

    /** The paths that the query lists are what `paths` stands for. */
    method HandleDeleteDay(id: nat, day: Day, paths: seq<Path>, uncounted: set<nat>, unremoved: set<nat>)
      requires id in sections && Lists(View(), id, Some(day), paths)
      modifies `sections, `files
      ensures View() == old(Handle(View(), DeleteDay(id, day, paths, uncounted + unremoved)))
    {
      hide CleanUp;
      var section := sections[id].section;
      sections := sections[id := sections[id].(section := section.(days := section.days - {day}))];
      RemoveUnreferenced(paths, uncounted, unremoved);
    }

    method HandleDetach(id: nat, paths: seq<Path>, uncounted: set<nat>, unremoved: set<nat>)
      requires id in sections && Lists(View(), id, None, paths)
      modifies `sections, `files
      ensures View() == old(Handle(View(), Detach(id, paths, uncounted + unremoved)))
    {
      hide CleanUp;
      sections := sections - {id};
      RemoveUnreferenced(paths, uncounted, unremoved);
    }

    method HandleDeleteSnapshotBlock(id: nat, day: Day, k: nat, countFails: bool, removeFails: bool)
      requires id in sections && day in sections[id].section.days && k < |sections[id].section.days[day]|
      modifies `sections, `files
      ensures View() == old(Handle(View(), DeleteFromSnapshot(id, day, k, if countFails || removeFails then {0} else {})))
    {
      var section := sections[id].section;
      var path := section.days[day][k].path;
      var left := section.days[day][..k] + section.days[day][k + 1..];
      if left == [] {
        section := section.(days := section.days - {day});
      } else {
        section := section.(days := section.days[day := left]);
      }
      sections := sections[id := sections[id].(section := section)];
      if path.Some? {
        RemoveUploadIfUnreferenced(path.value, countFails, removeFails);
      }
    }

    method HandleDeleteJournalBlock(user: nat, day: Day, k: nat, countFails: bool, removeFails: bool)
      requires day in PagesOf(View(), user) && k < |PagesOf(View(), user)[day].blocks|
      modifies `pages, `files
      ensures View() == old(Handle(View(), DeleteFromJournal(user, day, k, if countFails || removeFails then {0} else {})))
    {
      hide Referenced;
      var page := pages[user][day];
      var path := page.blocks[k].path;
      var left := page.blocks[..k] + page.blocks[k + 1..];
      if left == [] {
        pages := pages[user := pages[user] - {day}];
      } else {
        pages := pages[user := pages[user][day := page.(blocks := left)]];
      }
      if path.Some? {
        RemoveUploadIfUnreferenced(path.value, countFails, removeFails);
      }
    }
  }
}
