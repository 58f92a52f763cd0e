/** Journal pages, and the snapshots of them that members attach to a round. */
module Journal {
  import opened Options

  /** Days are ISO dates, which compare as numbers do. */
  type Day = int

  type Path = nat

  /** A block; media blocks name an uploaded file, which a snapshot's copy
      shares. */
  datatype Block = Block(kind: BlockKind, content: string, path: Option<Path>, caption: string, covered: bool, note: string)

  datatype BlockKind = Text | Photo | Audio | Video

  /** A page's row may briefly stand empty, between an upload's first and last
      statement. */
  datatype Page = Page(id: nat, blocks: seq<Block>)

  type Pages = map<Day, Page>

  datatype Section = Section(copiedThrough: Day, days: map<Day, seq<Block>>)

  predicate Offered(pages: Pages, s: Section, from: Day, through: Day, day: Day) {
    day in pages && pages[day].blocks != [] && from <= day <= through && day !in s.days
  }

  // ---- copyDiaryDays -----------------------------------------------------

  /** The first statement: rows for the offered days, still without blocks. */
  function InsertDays(pages: Pages, s: Section, from: Day, through: Day): Section {
    s.(days := s.days + (map day | day in pages.Keys && Offered(pages, s, from, through, day) :: []))
  }

  /** The second: blocks for every day of the section that has none. */
  function FillDays(pages: Pages, s: Section): Section {
    s.(days := map day | day in s.days ::
      if s.days[day] == [] && day in pages then pages[day].blocks else s.days[day])
  }

  function CopyDays(pages: Pages, s: Section, from: Day, through: Day): Section {
    FillDays(pages, InsertDays(pages, s, from, through))
  }

  ghost function OfferedDays(pages: Pages, s: Section, from: Day, through: Day): set<Day> {
    set day | day in pages && Offered(pages, s, from, through, day)
  }

  /** How many days are copied. */
  ghost function Copied(pages: Pages, s: Section, from: Day, through: Day): nat {
    |OfferedDays(pages, s, from, through)|
  }

  /** CountPullableRambleDays: the "pull in N new days" a member is shown. */
  ghost function CountPullable(pages: Pages, s: Section, through: Day): nat {
    |set day | day in pages && s.copiedThrough <= day <= through && pages[day].blocks != [] && day !in s.days|
  }

  ghost predicate NoEmptyDay(s: Section) { forall day :: day in s.days ==> s.days[day] != [] }

  /** What copying does to one day: an offered day gets the page's blocks, an
      empty one is filled whatever its date, and any other stays as it was. */
  lemma CopyDay(pages: Pages, s: Section, from: Day, through: Day, day: Day)
    ensures var after := CopyDays(pages, s, from, through);
            && (day in after.days <==> day in s.days || Offered(pages, s, from, through, day))
            && (Offered(pages, s, from, through, day) ==> after.days[day] == pages[day].blocks)
            && (day in s.days ==>
                  after.days[day] == if s.days[day] == [] && day in pages then pages[day].blocks else s.days[day])
  {
  }

  // ---- Attach and refresh ------------------------------------------------

  function Attach(pages: Pages, from: Day, through: Day): Section {
    CopyDays(pages, Section(through, map[]), from, through)
  }

  function Refresh(pages: Pages, s: Section, through: Day): Section {
    if through < s.copiedThrough then s
    else CopyDays(pages, s, s.copiedThrough, through).(copiedThrough := through)
  }

  /** What a refresh reports: the rows its first statement added. */
  ghost function Added(pages: Pages, s: Section, through: Day): nat {
    if through < s.copiedThrough then 0 else Copied(pages, s, s.copiedThrough, through)
  }

  /** An attached section holds exactly the written days of its window, as they
      stand. */
  lemma AttachCopies(pages: Pages, from: Day, through: Day)
    ensures var s := Attach(pages, from, through);
            && s.copiedThrough == through
            && NoEmptyDay(s)
            && (forall day :: day in s.days <==> day in pages && pages[day].blocks != [] && from <= day <= through)
            && (forall day :: day in s.days ==> s.days[day] == pages[day].blocks)
  {
  }

  /** A refresh leaves every day already in the section alone, adds exactly the
      written days from the boundary on, as many as were offered, never a day
      older than the boundary; the boundary never moves back; and no day is
      ever empty. */
  lemma RefreshAddsOnly(pages: Pages, s: Section, through: Day)
    requires NoEmptyDay(s)
    ensures var after := Refresh(pages, s, through);
            && (forall day :: day in s.days ==> day in after.days && after.days[day] == s.days[day])
            && (forall day :: day in after.days && day !in s.days <==> Offered(pages, s, s.copiedThrough, through, day))
            && (forall day :: day in after.days && day !in s.days ==> after.days[day] == pages[day].blocks)
            && (forall day :: day < s.copiedThrough && day !in s.days ==> day !in after.days)
            && after.copiedThrough == (if through < s.copiedThrough then s.copiedThrough else through)
            && NoEmptyDay(after)
  {
    hide CopyDays;
    forall day
      ensures through >= s.copiedThrough ==>
                var after := CopyDays(pages, s, s.copiedThrough, through);
                && (day in after.days <==> day in s.days || Offered(pages, s, s.copiedThrough, through, day))
                && (Offered(pages, s, s.copiedThrough, through, day) ==> after.days[day] == pages[day].blocks)
                && (day in s.days ==> after.days[day] == s.days[day])
    {
      CopyDay(pages, s, s.copiedThrough, through, day);
    }
  }

  /** The number shown and the number added agree, and count the new days. */
  lemma RefreshAddsWhatWasOffered(pages: Pages, s: Section, through: Day)
    requires NoEmptyDay(s)
    ensures Added(pages, s, through) == CountPullable(pages, s, through)
    ensures |Refresh(pages, s, through).days| == |s.days| + CountPullable(pages, s, through)
  {
    var offered := OfferedDays(pages, s, s.copiedThrough, through);
    assert offered == set day | day in pages && s.copiedThrough <= day <= through && pages[day].blocks != []
        && day !in s.days;
    RefreshAddsOnly(pages, s, through);
    hide Refresh, NoEmptyDay, CopyDays;
    DaysAdd(s.days, Refresh(pages, s, through).days, offered);
  }

  lemma DaysAdd<D, B>(before: map<D, B>, after: map<D, B>, added: set<D>)
    requires forall day :: day in before ==> day in after
    requires forall day :: day in added <==> day in after && day !in before
    ensures |after| == |before| + |added|
  {
    assert after.Keys == before.Keys + added;
    assert |after| == |after.Keys| && |before| == |before.Keys|;
  }

  /** The rule that no day is empty is what keeps a refresh from touching old
      days: a day stays as it was exactly when it has blocks, or its page has
      none to give it. */
  lemma RefreshFillsEmptyDays(pages: Pages, s: Section, through: Day, day: Day)
    requires day in s.days && through >= s.copiedThrough
    ensures Refresh(pages, s, through).days[day] == s.days[day]
            <==> s.days[day] != [] || day !in pages || pages[day].blocks == []
  {
  }

  /** Refreshing again at once adds nothing. */
  lemma RefreshTwice(pages: Pages, s: Section, through: Day)
    requires NoEmptyDay(s)
    ensures Refresh(pages, Refresh(pages, s, through), through) == Refresh(pages, s, through)
    ensures CountPullable(pages, Refresh(pages, s, through), through) == 0
  {
    RefreshAddsOnly(pages, s, through);
    var after := Refresh(pages, s, through);
    RefreshAddsOnly(pages, after, through);
    assert after.copiedThrough >= through;
    assert forall day :: !Offered(pages, after, after.copiedThrough, through, day);
    hide Refresh, CopyDays, NoEmptyDay;
    var again := Refresh(pages, after, through);
    assert forall day :: day in again.days <==> day in after.days;
    assert again.days == after.days;
    assert forall day ::
      !(day in pages && after.copiedThrough <= day <= through && pages[day].blocks != [] && day !in after.days);
  }

  // ---- Trimming ----------------------------------------------------------

  function Without<T>(items: seq<T>, k: nat): (r: seq<T>)
    requires k < |items|
    ensures |r| == |items| - 1
  {
    items[..k] + items[k + 1..]
  }

  /** Removes a block; a day left with none goes with it. */
  function TrimBlock(s: Section, day: Day, k: nat): Section
    requires day in s.days && k < |s.days[day]|
  {
    var blocks := Without(s.days[day], k);
    if blocks == [] then s.(days := s.days - {day}) else s.(days := s.days[day := blocks])
  }

  function TrimDay(s: Section, day: Day): Section { s.(days := s.days - {day}) }

  function EditBlock(s: Section, day: Day, k: nat, b: Block): Section
    requires day in s.days && k < |s.days[day]|
  {
    s.(days := s.days[day := s.days[day][k := b]])
  }

  /** What a member does with a snapshot under review. */
  datatype Edit =
    | RefreshEdit(pages: Pages, through: Day)
    | TrimDayEdit(day: Day)
    | TrimBlockEdit(day: Day, k: nat)
    | ChangeBlockEdit(day: Day, k: nat, block: Block)

  function Apply(s: Section, e: Edit): Section {
    match e
    case RefreshEdit(pages, through) => Refresh(pages, s, through)
    case TrimDayEdit(day) => TrimDay(s, day)
    case TrimBlockEdit(day, k) => if day in s.days && k < |s.days[day]| then TrimBlock(s, day, k) else s
    case ChangeBlockEdit(day, k, b) => if day in s.days && k < |s.days[day]| then EditBlock(s, day, k, b) else s
  }

  function ApplyAll(s: Section, edits: seq<Edit>): Section {
    if edits == [] then s else Apply(ApplyAll(s, edits[..|edits| - 1]), edits[|edits| - 1])
  }

  /** Trimming a day takes that day; trimming a block takes that block, and its
      day with the last; changing one replaces it. Nothing else moves. */
  lemma EditOutcome(s: Section, e: Edit)
    requires !e.RefreshEdit?
    ensures var after := Apply(s, e);
            && after.copiedThrough == s.copiedThrough
            && (forall day :: day != e.day ==> (day in after.days <==> day in s.days))
            && (forall day :: day != e.day && day in s.days ==> after.days[day] == s.days[day])
            && match e
               case TrimDayEdit(day) => day !in after.days
               case TrimBlockEdit(day, k) =>
                 if day !in s.days || k >= |s.days[day]| then after == s
                 else if |s.days[day]| == 1 then day !in after.days
                 else day in after.days && after.days[day] == s.days[day][..k] + s.days[day][k + 1..]
               case ChangeBlockEdit(day, k, b) =>
                 if day !in s.days || k >= |s.days[day]| then after == s
                 else
                   && day in after.days && |after.days[day]| == |s.days[day]| && after.days[day][k] == b
                   && (forall i :: 0 <= i < |s.days[day]| && i != k ==> after.days[day][i] == s.days[day][i])
  {
  }

  /** Through any review, with journal pages changing in any way between its
      refreshes: no snapshot day is ever empty, the boundary only grows, and a
      day older than the boundary that is not in the section, because it was
      trimmed or written late, never enters it. */
  lemma {:induction false} TrimmedStaysTrimmed(s: Section, edits: seq<Edit>)
    requires NoEmptyDay(s)
    ensures var after := ApplyAll(s, edits);
            && NoEmptyDay(after)
            && s.copiedThrough <= after.copiedThrough
            && (forall day :: day < s.copiedThrough && day !in s.days ==> day !in after.days)
  {
    if edits != [] {
      TrimmedStaysTrimmed(s, edits[..|edits| - 1]);
    }
  }

  /** The boundary day itself can come back after a trim: the lower bound of a
      refresh is inclusive. */
  lemma BoundaryDayReturns(pages: Pages, s: Section, through: Day)
    requires s.copiedThrough in pages && pages[s.copiedThrough].blocks != [] && s.copiedThrough <= through
    ensures s.copiedThrough in Refresh(pages, TrimDay(s, s.copiedThrough), through).days
  {
    CopyDay(pages, TrimDay(s, s.copiedThrough), s.copiedThrough, through, s.copiedThrough);
  }
}
