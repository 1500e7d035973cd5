/**
 * `plan_layout`: slots are grouped by page and ordered top to bottom, left
 * to right; notes are grouped by their page hint; a hint without slots of its
 * own falls back to the page named by the first number in it; each page's
 * notes receive the page's images and are placed (see `PagePlacement`); and
 * the result lists, page by page, the placements, the height left in each
 * slot and the notes that could not be placed.
 */
module PlanLayout {
  import opened Wrappers
  import opened Text
  import opened PageKeys
  import opened Sorting
  import opened LayoutTypes
  import opened PlannerConfig
  import opened Heights
  import ColumnWidth
  import Images
  import opened SlotFit
  import opened PageGroups
  import opened PagePlacement

  // ---------------------------------------------------------------- pages and their slots

  /** The page a slot belongs to: its page name, or its page number when the name is empty. */
  function SlotPageKey(slot: Slot): string {
    NormalizePageKey(if slot.pageName != "" then slot.pageName else IntToString(slot.pageIndex))
  }

  /** The page a note asks for. */
  function NoteKey(note: Note): string {
    NormalizePageKey(note.pageHint)
  }

  /** The sort key `(y_pt, x_pt)`: top to bottom, then left to right. */
  predicate SlotBefore(a: Slot, b: Slot) {
    a.y < b.y || (a.y == b.y && a.x <= b.x)
  }

  lemma SlotBeforeIsTotal()
    ensures TotalPreorder(SlotBefore)
  {
  }

  /** `page_slots.sort(key=lambda s: (s.y_pt, s.x_pt))`, a stable sort. */
  function SortSlots(slots: seq<Slot>): seq<Slot> {
    SortBy(slots, SlotBefore)
  }

  /** `slots_by_page` once each page's list is sorted. */
  function SlotsByPage(slots: seq<Slot>): Groups<Slot> {
    MapValues(GroupBy(slots, SlotPageKey), SortSlots)
  }

  /**
   * Each page lists exactly the slots whose page key is its own (the same
   * number of them), sorted; no page is listed twice or without slots. Slots
   * at the same `(y, x)` keep their order in the input list.
   */
  lemma SlotsByPageFacts(slots: seq<Slot>, k: string, slot: Slot)
    ensures DistinctKeys(SlotsByPage(slots))
    ensures forall i :: 0 <= i < |SlotsByPage(slots)| ==> SlotsByPage(slots)[i].1 != []
    ensures k in Keys(SlotsByPage(slots)) <==> Filter(slots, SlotPageKey, k) != []
    ensures slot in Get(SlotsByPage(slots), k) <==> slot in slots && SlotPageKey(slot) == k
    ensures multiset(Get(SlotsByPage(slots), k)) == multiset(Filter(slots, SlotPageKey, k))
    ensures SortedBy(Get(SlotsByPage(slots), k), SlotBefore)
    ensures forall s :: LevelWith(Get(SlotsByPage(slots), k), s, SlotBefore) == LevelWith(Filter(slots, SlotPageKey, k), s, SlotBefore)
  {
    var g := GroupBy(slots, SlotPageKey);
    GroupByFind(slots, SlotPageKey, k);
    GroupByNonEmpty(slots, SlotPageKey);
    MapValuesFind(g, SortSlots, k);
    FilterMembers(slots, SlotPageKey, k, slot);
    SlotBeforeIsTotal();
    SortByIsSorted(Get(g, k), SlotBefore);
    SortByMembers(Get(g, k), SlotBefore);
    SortByStable(Get(g, k), SlotBefore);
    if k !in Keys(g) {
      SortByIsSorted([], SlotBefore);
    }
  }

  // ---------------------------------------------------------------- which slots a hint gets

  /** How the slots of a note group are found. */
  datatype Resolution = Direct(slots: seq<Slot>) | Aliased(altKey: string, slots: seq<Slot>) | Missing

  /** The page named by the first number in a hint, if any. */
  function AltKey(originalKey: string): Option<string> {
    var idx := FirstIntInString(originalKey);
    if idx.Some? then Some(NormalizePageKey(NatToString(idx.value))) else None
  }

  /**
   * The slots of the hint's own page; failing that, those of the page named
   * by the hint's first number; failing that, none.
   */
  function Resolve(byPage: Groups<Slot>, originalKey: string): (r: Resolution)
    ensures r.Direct? <==> Get(byPage, originalKey) != []
    ensures r.Aliased? <==> (Get(byPage, originalKey) == [] && AltKey(originalKey).Some? &&
      AltKey(originalKey).value != "" && Get(byPage, AltKey(originalKey).value) != [])
    ensures r.Direct? ==> r.slots == Get(byPage, originalKey)
    ensures r.Aliased? ==> r.altKey == AltKey(originalKey).value && r.slots == Get(byPage, r.altKey)
  {
    var direct := Get(byPage, originalKey);
    if direct != [] then Direct(direct)
    else
      var alt := AltKey(originalKey);
      if alt.Some? && alt.value != "" && Get(byPage, alt.value) != [] then Aliased(alt.value, Get(byPage, alt.value))
      else Missing
  }

  /** The page whose slots a resolved group uses. */
  function PageKeyOf(res: Resolution, originalKey: string): string {
    if res.Aliased? then res.altKey else originalKey
  }

  /** A resolved group uses the slots of a page that exists. */
  lemma ResolvedPageExists(byPage: Groups<Slot>, originalKey: string)
    requires !Resolve(byPage, originalKey).Missing?
    ensures PageKeyOf(Resolve(byPage, originalKey), originalKey) in Keys(byPage)
    ensures Resolve(byPage, originalKey).slots == Get(byPage, PageKeyOf(Resolve(byPage, originalKey), originalKey)) != []
  {
  }

  /** A hint that numbers a page with slots reaches that page's slots. */
  lemma NumberedHintFindsPage(byPage: Groups<Slot>, originalKey: string, n: nat)
    requires Get(byPage, originalKey) == []
    requires FirstIntInString(originalKey) == Some(n)
    requires Get(byPage, NormalizePageKey(NatToString(n))) != []
    ensures Resolve(byPage, originalKey) == Aliased(NormalizePageKey(NatToString(n)), Get(byPage, NormalizePageKey(NatToString(n))))
  {
  }

  /**
   * `len(images_by_page.get(original_key, []) or images_by_page.get(page_key, []))`:
   * the hint's own images unless it has none.
   */
  function AvailableImages(images: map<string, seq<string>>, originalKey: string, pageKey: string): (r: nat)
    ensures originalKey in images && images[originalKey] != [] ==> r == |images[originalKey]|
    ensures (originalKey !in images || images[originalKey] == []) && pageKey in images ==> r == |images[pageKey]|
    ensures (originalKey !in images || images[originalKey] == []) && pageKey !in images ==> r == 0
  {
    if originalKey in images && images[originalKey] != [] then |images[originalKey]|
    else if pageKey in images then |images[pageKey]|
    else 0
  }

  // ---------------------------------------------------------------- the tables being filled

  /** `placements_by_page`, `unplaced_by_page` and `alias_mapping`. */
  datatype PlanState = PlanState(placements: Groups<LayoutResult>, unplaced: Groups<UnplacedNote>, aliases: map<string, string>)

  /** What `plan_layout` reads besides the notes: the slots by page and the planner's settings. */
  datatype Context = Context(
    byPage: Groups<Slot>, images: map<string, seq<string>>, strategy: string,
    tryIn: Trial, noteSpacing: real, asWritten: bool)

  /**
   * The table key of a placement. As written, `plan_layout` stores it under
   * the slot's raw page name; the page is read back under its normalized
   * key, which is what the corrected plan stores it under.
   */
  function StoreKey(r: LayoutResult, pageKey: string, asWritten: bool): string {
    if asWritten then r.slot.pageName else pageKey
  }

  /** One outcome appended to its table. */
  function RecordOne(st: PlanState, o: Outcome, pageKey: string, asWritten: bool): PlanState {
    if o.Placed? then st.(placements := Add(st.placements, StoreKey(o.result, pageKey, asWritten), [o.result]))
    else st.(unplaced := Add(st.unplaced, pageKey, [o.entry]))
  }

  /** The outcomes of a page, in order. */
  function Record(st: PlanState, outs: seq<Outcome>, pageKey: string, asWritten: bool): PlanState {
    if outs == [] then st
    else RecordOne(Record(st, outs[..|outs| - 1], pageKey, asWritten), outs[|outs| - 1], pageKey, asWritten)
  }

  function NoSlot(n: Note): UnplacedNote {
    UnplacedNote(n, NoSlotForPage)
  }

  /** One note group: without slots every note is unplaced; else images are assigned and the notes placed. */
  function ProcessGroup(st: PlanState, originalKey: string, pageNotes: seq<Note>, ctx: Context): PlanState {
    var res := Resolve(ctx.byPage, originalKey);
    if res.Missing? then
      st.(unplaced := Add(st.unplaced, originalKey, MapSeq(pageNotes, NoSlot)))
    else
      var pageKey := PageKeyOf(res, originalKey);
      var st1 := if res.Aliased? then st.(aliases := st.aliases[originalKey := pageKey]) else st;
      var notes := Images.Assigned(pageNotes, AvailableImages(ctx.images, originalKey, pageKey), ctx.strategy);
      Record(st1, PlacePage(notes, res.slots, ctx.tryIn, ctx.noteSpacing).0, pageKey, ctx.asWritten)
  }

  /** `for original_key, page_notes in grouped_notes.items()`, from empty tables. */
  function ProcessGroups(groups: Groups<Note>, ctx: Context): PlanState {
    if groups == [] then PlanState([], [], map[])
    else
      var (k, ns) := groups[|groups| - 1];
      ProcessGroup(ProcessGroups(groups[..|groups| - 1], ctx), k, ns, ctx)
  }

  // ---------------------------------------------------------------- the output

  /** One entry of `pages`: `page_index` is absent for a page without slots. */
  datatype PageOut = PageOut(
    pageName: string, pageIndex: Option<int>, slots: seq<Slot>,
    placements: seq<LayoutResult>, remaining: map<string, real>, unplaced: seq<UnplacedNote>)

  /** The plan: the column model, the hints resolved through a page number, the pages. */
  datatype Plan = Plan(columnModel: ColumnModel, aliases: map<string, string>, pages: seq<PageOut>)

  /** `{slot.slot_id: slot.height_pt for slot in slot_list}`: a later slot with the same id wins. */
  function InitialHeights(slots: seq<Slot>): map<string, real> {
    if slots == [] then map[]
    else InitialHeights(slots[..|slots| - 1])[slots[|slots| - 1].slotId := slots[|slots| - 1].height]
  }

  /** Each placement takes its used height off its slot, never below zero. */
  function RemainingHeights(slots: seq<Slot>, placements: seq<LayoutResult>): map<string, real> {
    if placements == [] then InitialHeights(slots)
    else
      var m := RemainingHeights(slots, placements[..|placements| - 1]);
      var p := placements[|placements| - 1];
      var id := p.slot.slotId;
      m[id := Max((if id in m then m[id] else p.slot.height) - p.used, 0.0)]
  }

  function PlacedIds(placements: seq<LayoutResult>): set<string> {
    set p | p in placements :: p.slot.slotId
  }

  /** Every slot id maps to the height of the last slot listed with it. */
  lemma {:induction false} InitialHeightsFacts(slots: seq<Slot>, id: string)
    ensures id in InitialHeights(slots) <==> exists i :: 0 <= i < |slots| && slots[i].slotId == id
    ensures id in InitialHeights(slots) ==> exists i :: (0 <= i < |slots| && slots[i].slotId == id &&
      InitialHeights(slots)[id] == slots[i].height && forall j :: i < j < |slots| ==> slots[j].slotId != id)
  {
    if slots != [] {
      var init := slots[..|slots| - 1];
      InitialHeightsFacts(init, id);
      assert forall i :: 0 <= i < |init| ==> init[i] == slots[i];
      if slots[|slots| - 1].slotId != id && id in InitialHeights(init) {
        var i :| 0 <= i < |init| && init[i].slotId == id &&
          InitialHeights(init)[id] == init[i].height && forall j :: i < j < |init| ==> init[j].slotId != id;
        assert slots[i].slotId == id && forall j :: i < j < |slots| ==> slots[j].slotId != id;
      }
    }
  }

  /**
   * `remaining_height_pt` covers the page's slots and the placed slots; a
   * placed slot never goes below zero; a slot nothing was placed in keeps
   * its full height.
   */
  lemma {:induction false} RemainingHeightsFacts(slots: seq<Slot>, placements: seq<LayoutResult>, id: string)
    ensures id in RemainingHeights(slots, placements) <==> id in InitialHeights(slots) || id in PlacedIds(placements)
    ensures id in PlacedIds(placements) ==> RemainingHeights(slots, placements)[id] >= 0.0
    ensures id !in PlacedIds(placements) && id in InitialHeights(slots) ==>
      RemainingHeights(slots, placements)[id] == InitialHeights(slots)[id]
  {
    if placements != [] {
      var init := placements[..|placements| - 1];
      var p := placements[|placements| - 1];
      RemainingHeightsFacts(slots, init, id);
      assert placements == init + [p];
      assert PlacedIds(placements) == PlacedIds(init) + {p.slot.slotId};
    }
  }

  /** The page of a slot group: its placements, remaining heights and unplaced notes. */
  function SlotPage(key: string, list: seq<Slot>, st: PlanState): PageOut {
    var placements := Get(st.placements, key);
    PageOut(key, Some(if list != [] then list[0].pageIndex else 0), list, placements,
            RemainingHeights(list, placements), Get(st.unplaced, key))
  }

  /** A page for every slot group, in order. */
  function SlotPages(byPage: Groups<Slot>, st: PlanState): (r: seq<PageOut>)
    ensures |r| == |byPage|
  {
    if byPage == [] then []
    else
      var (k, list) := byPage[|byPage| - 1];
      SlotPages(byPage[..|byPage| - 1], st) + [SlotPage(k, list, st)]
  }

  /** A page for every group of unplaced notes whose key has no slots. */
  function OrphanPages(unplaced: Groups<UnplacedNote>, byPage: Groups<Slot>): seq<PageOut> {
    if unplaced == [] then []
    else
      var (k, entries) := unplaced[|unplaced| - 1];
      OrphanPages(unplaced[..|unplaced| - 1], byPage) +
        (if k in Keys(byPage) then [] else [PageOut(k, None, [], [], map[], entries)])
  }

  // ---------------------------------------------------------------- the plan

  /** Settings under which no size or factor the planner divides by is zero. */
  predicate Usable(s: Settings) {
    PositiveSizes(s.title) && PositiveSizes(s.body) && s.charWidthFactor > 0.0 && s.leadingFactor > 0.0
  }

  /** The column model: the detected column width with the gutter and factors from the settings. */
  function ColumnModelOf(slots: seq<Slot>, s: Settings): (cm: ColumnModel)
    ensures cm.columnWidth == ColumnWidth.DetectColumnWidth(slots) && cm.gutter == s.gutter
    ensures Usable(s) ==> cm.Valid()
  {
    ColumnModel(ColumnWidth.DetectColumnWidth(slots), s.gutter, s.charWidthFactor, s.leadingFactor)
  }

  /** `try_note_in_slot(note, slot, remaining, column_model, config)` as a trial. */
  function TrialOf(cm: ColumnModel, s: Settings): Trial
    requires cm.Valid() && PositiveSizes(s.title) && PositiveSizes(s.body)
  {
    (n: Note, sl: Slot, rem: real) => TryInSlot(n, sl, rem, cm, s)
  }

  lemma TrialReports(cm: ColumnModel, s: Settings)
    requires cm.Valid() && PositiveSizes(s.title) && PositiveSizes(s.body)
    ensures Reports(TrialOf(cm, s))
  {
    forall n: Note, sl: Slot, rem: real {
      TryIsATrial(n, sl, rem, cm, s);
    }
  }

  function ContextOf(slots: seq<Slot>, images: map<string, seq<string>>, s: Settings, strategy: string, asWritten: bool): Context
    requires Usable(s)
  {
    Context(SlotsByPage(slots), images, strategy, TrialOf(ColumnModelOf(slots, s), s), s.noteSpacing, asWritten)
  }

  function PlanWith(slots: seq<Slot>, notes: seq<Note>, images: map<string, seq<string>>, s: Settings, strategy: string, asWritten: bool): Plan
    requires Usable(s)
  {
    var ctx := ContextOf(slots, images, s, strategy, asWritten);
    var st := ProcessGroups(GroupBy(notes, NoteKey), ctx);
    Plan(ColumnModelOf(slots, s), st.aliases, SlotPages(ctx.byPage, st) + OrphanPages(st.unplaced, ctx.byPage))
  }

  /** `plan_layout`, with each placement kept under the page key it is read back with. */
  function PlanLayout(slots: seq<Slot>, notes: seq<Note>, images: map<string, seq<string>>, s: Settings, strategy: string): Plan
    requires Usable(s)
  {
    PlanWith(slots, notes, images, s, strategy, false)
  }

  /** `plan_layout` as written: placements kept under the slot's raw page name. */
  function PlanLayoutAsWritten(slots: seq<Slot>, notes: seq<Note>, images: map<string, seq<string>>, s: Settings, strategy: string): Plan
    requires Usable(s)
  {
    PlanWith(slots, notes, images, s, strategy, true)
  }

  // ---------------------------------------------------------------- every note is accounted for

  /** A note apart from its image count, the one field `assign_images` may raise. */
  function Unimaged(n: Note): Note {
    n.(imageCount := 0)
  }

  function ResultNote(r: LayoutResult): Note {
    Unimaged(r.note)
  }

  function EntryNote(u: UnplacedNote): Note {
    Unimaged(u.note)
  }

  function OutcomeNote(o: Outcome): Note {
    Unimaged(o.NoteOf())
  }

  /** The notes a list of pages mentions, placed or not, apart from their image counts. */
  function NotesIn(pages: seq<PageOut>): multiset<Note> {
    if pages == [] then multiset{}
    else NotesIn(pages[..|pages| - 1]) + Image(pages[|pages| - 1].placements, ResultNote)
         + Image(pages[|pages| - 1].unplaced, EntryNote)
  }

  lemma {:induction false} NotesInAppend(p: seq<PageOut>, q: seq<PageOut>)
    ensures NotesIn(p + q) == NotesIn(p) + NotesIn(q)
  {
    if q == [] {
      assert p + q == p;
    } else {
      assert (p + q)[..|p + q| - 1] == p + q[..|q| - 1];
      NotesInAppend(p, q[..|q| - 1]);
    }
  }

  /** The notes the two tables hold. */
  function TableNotes(st: PlanState): multiset<Note> {
    Bag(st.placements, ResultNote) + Bag(st.unplaced, EntryNote)
  }

  /** Every key of a table lies in `ks`. */
  predicate KeysIn<V>(g: Groups<V>, ks: set<string>) {
    forall i :: 0 <= i < |g| ==> g[i].0 in ks
  }

  lemma AddKeysIn<V>(g: Groups<V>, k: string, vs: seq<V>, ks: set<string>)
    requires KeysIn(g, ks) && k in ks
    ensures KeysIn(Add(g, k, vs), ks)
  {
    var r := Add(g, k, vs);
    forall i | 0 <= i < |r|
      ensures r[i].0 in ks
    {
      assert r[i].0 == Keys(r)[i];
      if i < |g| {
        assert Keys(g)[i] == g[i].0;
      }
    }
  }

  /** The tables are well formed, and (corrected) every placement sits under a page with slots. */
  predicate Tidy(st: PlanState, ctx: Context) {
    && DistinctKeys(st.placements) && DistinctKeys(st.unplaced)
    && (!ctx.asWritten ==> KeysIn(st.placements, set k | k in Keys(ctx.byPage)))
  }

  /** A placement added under any key adds its note. */
  lemma PlacedNotes(st: PlanState, key: string, r: LayoutResult)
    ensures TableNotes(st.(placements := Add(st.placements, key, [r])))
         == TableNotes(st) + multiset{ResultNote(r)}
  {
    AddBag(st.placements, key, [r], ResultNote);
    assert Image([r], ResultNote) == multiset{ResultNote(r)} by {
      assert [r][..0] == [];
    }
    UnionSwap(Bag(st.placements, ResultNote), multiset{ResultNote(r)}, Bag(st.unplaced, EntryNote));
  }

  /** An unplaced entry added under any key adds its note. */
  lemma UnplacedNotes(st: PlanState, key: string, e: UnplacedNote)
    ensures TableNotes(st.(unplaced := Add(st.unplaced, key, [e])))
         == TableNotes(st) + multiset{EntryNote(e)}
  {
    AddBag(st.unplaced, key, [e], EntryNote);
    assert Image([e], EntryNote) == multiset{EntryNote(e)} by {
      assert [e][..0] == [];
    }
  }

  /** Recording one outcome adds its note. */
  lemma RecordOneNotes(st: PlanState, o: Outcome, pageKey: string, ctx: Context)
    requires Tidy(st, ctx) && pageKey in Keys(ctx.byPage)
    ensures var st' := RecordOne(st, o, pageKey, ctx.asWritten);
      && Tidy(st', ctx)
      && TableNotes(st') == TableNotes(st) + multiset{OutcomeNote(o)}
      && st'.aliases == st.aliases
  {
    if o.Placed? {
      var key := StoreKey(o.result, pageKey, ctx.asWritten);
      AddFind(st.placements, key, [o.result], key);
      PlacedNotes(st, key, o.result);
      if !ctx.asWritten {
        AddKeysIn(st.placements, key, [o.result], set k | k in Keys(ctx.byPage));
      }
    } else {
      AddFind(st.unplaced, pageKey, [o.entry], pageKey);
      UnplacedNotes(st, pageKey, o.entry);
    }
  }

  /** Recording a page's outcomes adds the note of each outcome. */
  lemma {:induction false} RecordNotes(st: PlanState, outs: seq<Outcome>, pageKey: string, ctx: Context)
    requires Tidy(st, ctx) && pageKey in Keys(ctx.byPage)
    ensures var st' := Record(st, outs, pageKey, ctx.asWritten);
      && Tidy(st', ctx)
      && TableNotes(st') == TableNotes(st) + Image(outs, OutcomeNote)
      && st'.aliases == st.aliases
  {
    if outs != [] {
      var init := outs[..|outs| - 1];
      var o := outs[|outs| - 1];
      RecordNotes(st, init, pageKey, ctx);
      RecordOneNotes(Record(st, init, pageKey, ctx.asWritten), o, pageKey, ctx);
    }
  }

  /** A note group adds its notes, whatever images they were given. */
  lemma ProcessGroupNotes(st: PlanState, originalKey: string, pageNotes: seq<Note>, ctx: Context)
    requires Tidy(st, ctx) && Reports(ctx.tryIn)
    ensures var st' := ProcessGroup(st, originalKey, pageNotes, ctx);
      && Tidy(st', ctx)
      && TableNotes(st') == TableNotes(st) + Image(pageNotes, Unimaged)
  {
    var res := Resolve(ctx.byPage, originalKey);
    if res.Missing? {
      var entries := MapSeq(pageNotes, NoSlot);
      AddFind(st.unplaced, originalKey, entries, originalKey);
      AddBag(st.unplaced, originalKey, entries, EntryNote);
      ImageAgree(entries, EntryNote, pageNotes, Unimaged);
    } else {
      ResolvedPageExists(ctx.byPage, originalKey);
      var pageKey := PageKeyOf(res, originalKey);
      var st1 := if res.Aliased? then st.(aliases := st.aliases[originalKey := pageKey]) else st;
      var notes := Images.Assigned(pageNotes, AvailableImages(ctx.images, originalKey, pageKey), ctx.strategy);
      var outs := PlacePage(notes, res.slots, ctx.tryIn, ctx.noteSpacing).0;
      PlacePageFacts(notes, res.slots, ctx.tryIn, ctx.noteSpacing);
      ImageAgree(outs, OutcomeNote, pageNotes, Unimaged);
      RecordNotes(st1, outs, pageKey, ctx);
    }
  }

  lemma {:induction false} ProcessGroupsNotes(groups: Groups<Note>, ctx: Context)
    requires Reports(ctx.tryIn)
    ensures Tidy(ProcessGroups(groups, ctx), ctx)
    ensures TableNotes(ProcessGroups(groups, ctx)) == Bag(groups, Unimaged)
  {
    if groups != [] {
      var (k, ns) := groups[|groups| - 1];
      ProcessGroupsNotes(groups[..|groups| - 1], ctx);
      ProcessGroupNotes(ProcessGroups(groups[..|groups| - 1], ctx), k, ns, ctx);
    }
  }

  /** The slot pages hold what the tables hold under the slot pages' keys. */
  lemma {:induction false} SlotPagesNotes(byPage: Groups<Slot>, st: PlanState)
    ensures NotesIn(SlotPages(byPage, st))
            == GetAll(st.placements, Keys(byPage), ResultNote) + GetAll(st.unplaced, Keys(byPage), EntryNote)
  {
    if byPage != [] {
      var init := byPage[..|byPage| - 1];
      var (k, list) := byPage[|byPage| - 1];
      SlotPagesNotes(init, st);
      assert Keys(byPage)[..|byPage| - 1] == Keys(init);
      var page := SlotPage(k, list, st);
      assert [page][..0] == [];
      NotesInAppend(SlotPages(init, st), [page]);
      UnionSwap(GetAll(st.placements, Keys(init), ResultNote), GetAll(st.unplaced, Keys(init), EntryNote),
                Image(page.placements, ResultNote));
    }
  }

  /** The pages without slots hold the unplaced notes under every other key. */
  lemma {:induction false} OrphanPagesNotes(unplaced: Groups<UnplacedNote>, byPage: Groups<Slot>)
    ensures NotesIn(OrphanPages(unplaced, byPage)) == BagOut(unplaced, (set k | k in Keys(byPage)), EntryNote)
  {
    if unplaced != [] {
      var init := unplaced[..|unplaced| - 1];
      OrphanPagesNotes(init, byPage);
      var (k, entries) := unplaced[|unplaced| - 1];
      var tail := if k in Keys(byPage) then [] else [PageOut(k, None, [], [], map[], entries)];
      NotesInAppend(OrphanPages(init, byPage), tail);
      if tail != [] {
        assert tail[..0] == [];
      }
    }
  }

  lemma DistinctKeysDistinct<V>(g: Groups<V>)
    requires DistinctKeys(g)
    ensures Distinct(Keys(g))
  {
  }

  /** The slot pages and the orphan pages together hold every entry of the corrected tables. */
  lemma PagesHoldTables(byPage: Groups<Slot>, st: PlanState, ctx: Context)
    requires ctx.byPage == byPage && !ctx.asWritten && DistinctKeys(byPage) && Tidy(st, ctx)
    ensures NotesIn(SlotPages(byPage, st) + OrphanPages(st.unplaced, byPage)) == TableNotes(st)
  {
    var ks := set k | k in Keys(byPage);
    DistinctKeysDistinct(byPage);
    SlotPagesNotes(byPage, st);
    OrphanPagesNotes(st.unplaced, byPage);
    NotesInAppend(SlotPages(byPage, st), OrphanPages(st.unplaced, byPage));
    GetAllIsBagIn(st.placements, Keys(byPage), ResultNote);
    GetAllIsBagIn(st.unplaced, Keys(byPage), EntryNote);
    BagInAll(st.placements, ks, ResultNote);
    BagInOut(st.unplaced, ks, EntryNote);
  }

  /**
   * Every note given to the planner appears in exactly one place of the
   * plan, placed or unplaced, as often as it was given; only its image
   * count may have been raised.
   */
  lemma PlanLayoutKeepsEveryNote(slots: seq<Slot>, notes: seq<Note>, images: map<string, seq<string>>, s: Settings, strategy: string)
    requires Usable(s)
    ensures NotesIn(PlanLayout(slots, notes, images, s, strategy).pages) == Image(notes, Unimaged)
    ensures |NotesIn(PlanLayout(slots, notes, images, s, strategy).pages)| == |notes|
  {
    var ctx := ContextOf(slots, images, s, strategy, false);
    var groups := GroupBy(notes, NoteKey);
    TrialReports(ColumnModelOf(slots, s), s);
    SlotsByPageFacts(slots, "", Slot("", 0, "", 0.0, 0.0, 0.0, 0.0));
    ProcessGroupsNotes(groups, ctx);
    GroupByBag(notes, NoteKey, Unimaged);
    PagesHoldTables(ctx.byPage, ProcessGroups(groups, ctx), ctx);
  }

  // ---------------------------------------------------------------- placements stay on their page

  /** Every placement under a key fits, in a slot of the page with that key. */
  ghost predicate Belongs(placements: Groups<LayoutResult>, byPage: Groups<Slot>) {
    forall k, r :: r in Get(placements, k) ==> r.fit && r.slot in Get(byPage, k)
  }

  lemma RecordOneBelongs(st: PlanState, o: Outcome, pageKey: string, ctx: Context)
    requires !ctx.asWritten && DistinctKeys(st.placements) && Belongs(st.placements, ctx.byPage)
    requires o.Placed? ==> o.result.fit && o.result.slot in Get(ctx.byPage, pageKey)
    ensures Belongs(RecordOne(st, o, pageKey, ctx.asWritten).placements, ctx.byPage)
  {
    var st' := RecordOne(st, o, pageKey, ctx.asWritten);
    if o.Placed? {
      assert StoreKey(o.result, pageKey, ctx.asWritten) == pageKey;
      forall k, r | r in Get(st'.placements, k)
        ensures r.fit && r.slot in Get(ctx.byPage, k)
      {
        AddFind(st.placements, pageKey, [o.result], k);
        if k == pageKey {
          assert Get(st'.placements, k) == Get(st.placements, k) + [o.result];
          assert r in Get(st.placements, k) || r == o.result;
        } else {
          assert Get(st'.placements, k) == Get(st.placements, k);
        }
      }
    }
  }

  lemma {:induction false} RecordBelongs(st: PlanState, outs: seq<Outcome>, pageKey: string, ctx: Context)
    requires !ctx.asWritten && Tidy(st, ctx) && Belongs(st.placements, ctx.byPage) && pageKey in Keys(ctx.byPage)
    requires forall i :: 0 <= i < |outs| && outs[i].Placed? ==> outs[i].result.fit && outs[i].result.slot in Get(ctx.byPage, pageKey)
    ensures Belongs(Record(st, outs, pageKey, ctx.asWritten).placements, ctx.byPage)
  {
    if outs != [] {
      var init := outs[..|outs| - 1];
      RecordBelongs(st, init, pageKey, ctx);
      RecordNotes(st, init, pageKey, ctx);
      RecordOneBelongs(Record(st, init, pageKey, ctx.asWritten), outs[|outs| - 1], pageKey, ctx);
    }
  }

  /** A page's placements fit, in slots of the page. */
  lemma PlacedOnPage(notes: seq<Note>, slots: seq<Slot>, tryIn: Trial, noteSpacing: real, outs: seq<Outcome>)
    requires Reports(tryIn) && outs == PlacePage(notes, slots, tryIn, noteSpacing).0
    ensures forall i :: 0 <= i < |outs| && outs[i].Placed? ==> outs[i].result.fit && outs[i].result.slot in slots
  {
    PlacePageFacts(notes, slots, tryIn, noteSpacing);
  }

  lemma ProcessGroupBelongs(st: PlanState, originalKey: string, pageNotes: seq<Note>, ctx: Context)
    requires !ctx.asWritten && Reports(ctx.tryIn) && Tidy(st, ctx) && Belongs(st.placements, ctx.byPage)
    ensures Belongs(ProcessGroup(st, originalKey, pageNotes, ctx).placements, ctx.byPage)
  {
    var res := Resolve(ctx.byPage, originalKey);
    if !res.Missing? {
      ResolvedPageExists(ctx.byPage, originalKey);
      var pageKey := PageKeyOf(res, originalKey);
      var st1 := if res.Aliased? then st.(aliases := st.aliases[originalKey := pageKey]) else st;
      assert st1.placements == st.placements && st1.unplaced == st.unplaced;
      var notes := Images.Assigned(pageNotes, AvailableImages(ctx.images, originalKey, pageKey), ctx.strategy);
      assert res.slots == Get(ctx.byPage, pageKey);
      var outs := PlacePage(notes, res.slots, ctx.tryIn, ctx.noteSpacing).0;
      assert ProcessGroup(st, originalKey, pageNotes, ctx) == Record(st1, outs, pageKey, ctx.asWritten);
      PlacedOnPage(notes, res.slots, ctx.tryIn, ctx.noteSpacing, outs);
      RecordBelongs(st1, outs, pageKey, ctx);
    }
  }

  lemma {:induction false} ProcessGroupsBelong(groups: Groups<Note>, ctx: Context)
    requires !ctx.asWritten && Reports(ctx.tryIn)
    ensures Belongs(ProcessGroups(groups, ctx).placements, ctx.byPage)
  {
    if groups != [] {
      var (k, ns) := groups[|groups| - 1];
      ProcessGroupsBelong(groups[..|groups| - 1], ctx);
      ProcessGroupsNotes(groups[..|groups| - 1], ctx);
      ProcessGroupBelongs(ProcessGroups(groups[..|groups| - 1], ctx), k, ns, ctx);
    }
  }

  lemma {:induction false} SlotPagesAt(byPage: Groups<Slot>, st: PlanState, i: nat)
    requires i < |byPage|
    ensures SlotPages(byPage, st)[i] == SlotPage(byPage[i].0, byPage[i].1, st)
  {
    if i < |byPage| - 1 {
      SlotPagesAt(byPage[..|byPage| - 1], st, i);
    }
  }

  lemma {:induction false} OrphanPagesEmpty(unplaced: Groups<UnplacedNote>, byPage: Groups<Slot>)
    ensures forall p :: p in OrphanPages(unplaced, byPage) ==>
      p.placements == [] && p.slots == [] && p.pageIndex == None && p.pageName !in Keys(byPage)
  {
    if unplaced != [] {
      OrphanPagesEmpty(unplaced[..|unplaced| - 1], byPage);
    }
  }

  /** A page built from tables whose placements belong lists only placements in its own slots. */
  lemma PageBelongs(st: PlanState, ctx: Context, i: nat)
    requires DistinctKeys(ctx.byPage) && Belongs(st.placements, ctx.byPage)
    requires i < |SlotPages(ctx.byPage, st) + OrphanPages(st.unplaced, ctx.byPage)|
    ensures var page := (SlotPages(ctx.byPage, st) + OrphanPages(st.unplaced, ctx.byPage))[i];
      forall r :: r in page.placements ==> r.fit && r.slot in page.slots && page.slots == Get(ctx.byPage, page.pageName)
  {
    var byPage := ctx.byPage;
    var pages := SlotPages(byPage, st) + OrphanPages(st.unplaced, byPage);
    if i < |byPage| {
      SlotPagesAt(byPage, st, i);
      IndexOfFirst(byPage, byPage[i].0, i);
      assert pages[i] == SlotPage(byPage[i].0, byPage[i].1, st);
    } else {
      OrphanPagesEmpty(st.unplaced, byPage);
      assert pages[i] in OrphanPages(st.unplaced, byPage);
    }
  }

  /**
   * In the corrected plan every placement listed on a page fits, in one of
   * that page's own slots, and pages named after no slot list no placements.
   */
  lemma PlanLayoutPlacementsBelong(slots: seq<Slot>, notes: seq<Note>, images: map<string, seq<string>>, s: Settings, strategy: string, i: nat)
    requires Usable(s)
    requires i < |PlanLayout(slots, notes, images, s, strategy).pages|
    ensures var page := PlanLayout(slots, notes, images, s, strategy).pages[i];
      forall r :: r in page.placements ==> r.fit && r.slot in page.slots && r.slot in slots && SlotPageKey(r.slot) == page.pageName
  {
    var ctx := ContextOf(slots, images, s, strategy, false);
    var st := ProcessGroups(GroupBy(notes, NoteKey), ctx);
    var page := PlanLayout(slots, notes, images, s, strategy).pages[i];
    assert page == (SlotPages(ctx.byPage, st) + OrphanPages(st.unplaced, ctx.byPage))[i];
    TrialReports(ColumnModelOf(slots, s), s);
    ProcessGroupsBelong(GroupBy(notes, NoteKey), ctx);
    SlotsByPageFacts(slots, "", Slot("", 0, "", 0.0, 0.0, 0.0, 0.0));
    PageBelongs(st, ctx, i);
    forall r | r in page.placements
      ensures r.fit && r.slot in page.slots && r.slot in slots && SlotPageKey(r.slot) == page.pageName
    {
      SlotsByPageFacts(slots, page.pageName, r.slot);
    }
  }

  // ---------------------------------------------------------------- placements lost as written

  /** A slot named only by its page number, and an empty note asking for that page. */
  const LostSlot: Slot := Slot("", 3, "s1", 0.0, 0.0, 200.0, 500.0)
  const LostNote: Note := Note("3", None, 0, "", "", 0, 0, 0)
  const LostSettings: Settings := Settings(DefaultTitle, DefaultBody, DefaultImage, 10.0, 12.0, 0.42, 1.2)

  lemma NumberThree()
    ensures IntToString(3) == "3"
  {
    assert NatToString(3) == "3";
  }

  lemma NormalizeThree()
    ensures NormalizePageKey("3") == "3"
  {
    var three: string := "3";
    assert !IsSpace(three[0]);
    TrimLeftNoop(three);
    TrimRightNoop(three);
    assert three[1..] == [];
  }

  lemma LostKeys()
    ensures SlotPageKey(LostSlot) == "3" && NoteKey(LostNote) == "3"
  {
    NumberThree();
    NormalizeThree();
  }

  lemma LostTables()
    ensures SlotsByPage([LostSlot]) == [("3", [LostSlot])]
    ensures GroupBy([LostNote], NoteKey) == [("3", [LostNote])]
  {
    LostKeys();
    assert [LostSlot][..0] == [] && [LostNote][..0] == [];
    assert GroupBy([LostSlot], SlotPageKey) == [("3", [LostSlot])];
    assert SortBy([LostSlot], SlotBefore) == [LostSlot] by {
      assert [LostSlot][..0] == [];
    }
  }

  /** The empty note needs no height at all, so it fits the slot under any usable settings. */
  lemma LostNoteFits(cm: ColumnModel, s: Settings)
    requires cm.Valid() && PositiveSizes(s.title) && PositiveSizes(s.body)
    ensures TryInSlot(LostNote, LostSlot, 500.0, cm, s).fit
    ensures TryInSlot(LostNote, LostSlot, 500.0, cm, s).slot == LostSlot
  {
    var b, t := s.body.base, s.title.base;
    assert b in Sizes(s.body) && t in Sizes(s.title);
    TryFitsIff(LostNote, LostSlot, 500.0, cm, s);
    TryIsATrial(LostNote, LostSlot, 500.0, cm, s);
    var a := Attempt(LostNote, LostSlot, 500.0, cm, s, t, b);
    assert a.heights == NoHeights;
  }

  lemma LostPlacement(tryIn: Trial, noteSpacing: real)
    requires tryIn(LostNote, LostSlot, 500.0).fit
    ensures PlacePage([LostNote], [LostSlot], tryIn, noteSpacing).0 == [Placed(tryIn(LostNote, LostSlot, 500.0))]
  {
    assert [LostNote][..0] == [];
  }

  /** As written, the placement goes under the empty page name and nothing is left unplaced. */
  lemma LostTablesAsWritten(ctx: Context)
    requires ctx.byPage == [("3", [LostSlot])] && ctx.strategy == "none" && ctx.asWritten
    requires ctx.tryIn(LostNote, LostSlot, 500.0).fit && ctx.tryIn(LostNote, LostSlot, 500.0).slot == LostSlot
    ensures ProcessGroups([("3", [LostNote])], ctx) == PlanState([("", [ctx.tryIn(LostNote, LostSlot, 500.0)])], [], map[])
  {
    var r := ctx.tryIn(LostNote, LostSlot, 500.0);
    assert Keys(ctx.byPage) == ["3"];
    assert Get(ctx.byPage, "3") == [LostSlot];
    assert Resolve(ctx.byPage, "3") == Direct([LostSlot]);
    var notes := Images.Assigned([LostNote], AvailableImages(ctx.images, "3", "3"), ctx.strategy);
    Images.OtherStrategiesChangeNothing([LostNote], AvailableImages(ctx.images, "3", "3"), ctx.strategy);
    LostPlacement(ctx.tryIn, ctx.noteSpacing);
    var empty := PlanState([], [], map[]);
    assert [Placed(r)][..0] == [];
    assert Record(empty, [Placed(r)], "3", true) == RecordOne(empty, Placed(r), "3", true);
    assert ProcessGroup(empty, "3", [LostNote], ctx) == Record(empty, [Placed(r)], "3", true);
    assert [("3", [LostNote])][..0] == [];
  }

  /** Read back under "3", the tables give one page that mentions no note. */
  lemma LostPages(st: PlanState, r: LayoutResult)
    requires st.placements == [("", [r])] && st.unplaced == []
    ensures NotesIn(SlotPages([("3", [LostSlot])], st) + OrphanPages(st.unplaced, [("3", [LostSlot])])) == multiset{}
  {
    assert Keys(st.placements) == [""];
    assert Get(st.placements, "3") == [];
    var byPage := [("3", [LostSlot])];
    assert byPage[..0] == [];
    var pages := SlotPages(byPage, st) + OrphanPages(st.unplaced, byPage);
    assert pages == [SlotPage("3", [LostSlot], st)];
    assert pages[..0] == [];
  }

  /**
   * As written, the note is placed and then lost: its placement is stored
   * under the slot's empty page name, the page is read back under "3", and
   * the plan mentions no note at all. The corrected plan lists it.
   */
  lemma AsWrittenLosesPlacement()
    ensures NotesIn(PlanLayoutAsWritten([LostSlot], [LostNote], map[], LostSettings, "none").pages) == multiset{}
    ensures NotesIn(PlanLayout([LostSlot], [LostNote], map[], LostSettings, "none").pages) == multiset{LostNote}
  {
    var ctx := ContextOf([LostSlot], map[], LostSettings, "none", true);
    LostTables();
    LostNoteFits(ColumnModelOf([LostSlot], LostSettings), LostSettings);
    LostTablesAsWritten(ctx);
    var st := ProcessGroups(GroupBy([LostNote], NoteKey), ctx);
    LostPages(st, ctx.tryIn(LostNote, LostSlot, 500.0));
    PlanLayoutKeepsEveryNote([LostSlot], [LostNote], map[], LostSettings, "none");
  }

  // ---------------------------------------------------------------- the loops of plan_layout

  /** `for page_slots in slots_by_page.values(): page_slots.sort(...)`. */
  method SortEachPage(raw: Groups<Slot>) returns (sorted: Groups<Slot>)
    ensures sorted == MapValues(raw, SortSlots)
  {
    sorted := [];
    for i := 0 to |raw|
      invariant |sorted| == i
      invariant forall j :: 0 <= j < i ==> sorted[j] == (raw[j].0, SortSlots(raw[j].1))
    {
      sorted := sorted + [(raw[i].0, SortSlots(raw[i].1))];
    }
  }

  /** `remaining_height_by_slot` of one page. */
  method ComputeRemaining(slots: seq<Slot>, placements: seq<LayoutResult>) returns (m: map<string, real>)
    ensures m == RemainingHeights(slots, placements)
  {
    m := map[];
    for i := 0 to |slots|
      invariant m == InitialHeights(slots[..i])
    {
      assert slots[..i + 1][..i] == slots[..i];
      m := m[slots[i].slotId := slots[i].height];
    }
    assert slots[..|slots|] == slots;
    for j := 0 to |placements|
      invariant m == RemainingHeights(slots, placements[..j])
    {
      assert placements[..j + 1][..j] == placements[..j];
      var p := placements[j];
      var id := p.slot.slotId;
      var before := if id in m then m[id] else p.slot.height;
      m := m[id := Max(before - p.used, 0.0)];
    }
    assert placements[..|placements|] == placements;
  }

  /** `UnplacedNote(note=n, reason="no_slot_for_page") for n in page_notes`. */
  method NoSlotEntries(pageNotes: seq<Note>) returns (entries: seq<UnplacedNote>)
    ensures entries == MapSeq(pageNotes, NoSlot)
  {
    entries := [];
    for i := 0 to |pageNotes|
      invariant entries == MapSeq(pageNotes[..i], NoSlot)
    {
      MapSeqSnoc(pageNotes[..i], pageNotes[i], NoSlot);
      assert pageNotes[..i + 1] == pageNotes[..i] + [pageNotes[i]];
      entries := entries + [NoSlot(pageNotes[i])];
    }
    assert pageNotes[..|pageNotes|] == pageNotes;
  }

  /** Each outcome appended to `placements_by_page` or `unplaced_by_page` as it comes. */
  method RecordOutcomes(st: PlanState, outs: seq<Outcome>, pageKey: string, asWritten: bool) returns (st': PlanState)
    ensures st' == Record(st, outs, pageKey, asWritten)
  {
    st' := st;
    for j := 0 to |outs|
      invariant st' == Record(st, outs[..j], pageKey, asWritten)
    {
      assert outs[..j + 1][..j] == outs[..j];
      st' := RecordOne(st', outs[j], pageKey, asWritten);
    }
    assert outs[..|outs|] == outs;
  }

  /** A page's notes with their images assigned in place, then placed and recorded. */
  method PlaceGroup(st: PlanState, originalKey: string, pageKey: string, pageNotes: seq<Note>, slots: seq<Slot>, ctx: Context)
    returns (st': PlanState)
    ensures st' == Record(st, PlacePage(Images.Assigned(pageNotes, AvailableImages(ctx.images, originalKey, pageKey), ctx.strategy),
                                        slots, ctx.tryIn, ctx.noteSpacing).0, pageKey, ctx.asWritten)
  {
    var notes := new Note[|pageNotes|](i requires 0 <= i < |pageNotes| => pageNotes[i]);
    assert notes[..] == pageNotes;
    Images.AssignImages(notes, AvailableImages(ctx.images, originalKey, pageKey), ctx.strategy);
    var outs := PlacePageNotes(notes[..], slots, ctx.tryIn, ctx.noteSpacing);
    st' := RecordOutcomes(st, outs, pageKey, ctx.asWritten);
  }

  /** One note group: without slots every note is unplaced; else the group is placed. */
  method HandleGroup(st: PlanState, originalKey: string, pageNotes: seq<Note>, ctx: Context) returns (st': PlanState)
    ensures st' == ProcessGroup(st, originalKey, pageNotes, ctx)
  {
    var res := Resolve(ctx.byPage, originalKey);
    if res.Missing? {
      var entries := NoSlotEntries(pageNotes);
      return st.(unplaced := Add(st.unplaced, originalKey, entries));
    }
    var pageKey := PageKeyOf(res, originalKey);
    var st1 := st;
    if res.Aliased? {
      st1 := st.(aliases := st.aliases[originalKey := pageKey]);
    }
    st' := PlaceGroup(st1, originalKey, pageKey, pageNotes, res.slots, ctx);
  }

  /** `for original_key, page_notes in grouped_notes.items()`. */
  method HandleGroups(groups: Groups<Note>, ctx: Context) returns (st: PlanState)
    ensures st == ProcessGroups(groups, ctx)
  {
    st := PlanState([], [], map[]);
    for i := 0 to |groups|
      invariant st == ProcessGroups(groups[..i], ctx)
    {
      assert groups[..i + 1][..i] == groups[..i];
      st := HandleGroup(st, groups[i].0, groups[i].1, ctx);
    }
    assert groups[..|groups|] == groups;
  }

  /** `for page_key, slot_list in slots_by_page.items()`. */
  method BuildSlotPages(byPage: Groups<Slot>, st: PlanState) returns (pages: seq<PageOut>)
    ensures pages == SlotPages(byPage, st)
  {
    pages := [];
    for i := 0 to |byPage|
      invariant pages == SlotPages(byPage[..i], st)
    {
      assert byPage[..i + 1][..i] == byPage[..i];
      var key: string, list: seq<Slot> := byPage[i].0, byPage[i].1;
      var placements := Get(st.placements, key);
      var remaining := ComputeRemaining(list, placements);
      pages := pages + [PageOut(key, Some(if list != [] then list[0].pageIndex else 0), list, placements,
                                remaining, Get(st.unplaced, key))];
    }
    assert byPage[..|byPage|] == byPage;
  }

  /** `for page_key, entries in unplaced_by_page.items()`, skipping pages with slots. */
  method BuildOrphanPages(unplaced: Groups<UnplacedNote>, byPage: Groups<Slot>) returns (orphans: seq<PageOut>)
    ensures orphans == OrphanPages(unplaced, byPage)
  {
    orphans := [];
    for i := 0 to |unplaced|
      invariant orphans == OrphanPages(unplaced[..i], byPage)
    {
      assert unplaced[..i + 1][..i] == unplaced[..i];
      var key: string, entries: seq<UnplacedNote> := unplaced[i].0, unplaced[i].1;
      if key !in Keys(byPage) {
        orphans := orphans + [PageOut(key, None, [], [], map[], entries)];
      }
    }
    assert unplaced[..|unplaced|] == unplaced;
  }

  /**
   * `plan_layout(slots, notes, images_by_page, config, image_strategy)`,
   * loop by loop; `asWritten` chooses the table key of placements.
   */
  method RunPlanLayout(slots: seq<Slot>, notes: seq<Note>, images: map<string, seq<string>>, s: Settings, strategy: string, asWritten: bool)
    returns (plan: Plan)
    requires Usable(s)
    ensures plan == PlanWith(slots, notes, images, s, strategy, asWritten)
  {
    var raw := GroupByKey(slots, SlotPageKey);
    var byPage := SortEachPage(raw);
    var cm := ColumnModelOf(slots, s);
    var ctx := Context(byPage, images, strategy, TrialOf(cm, s), s.noteSpacing, asWritten);
    assert ctx == ContextOf(slots, images, s, strategy, asWritten);
    var groups := GroupByKey(notes, NoteKey);
    var st := HandleGroups(groups, ctx);
    var pages := BuildSlotPages(byPage, st);
    var orphans := BuildOrphanPages(st.unplaced, byPage);
    plan := Plan(cm, st.aliases, pages + orphans);
  }
}
