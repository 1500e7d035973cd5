/**
 * The per-page summary of a slot report (summarize_slots.py): which report
 * items look like slots, their bounds and area, and the table of pages with
 * their slots, counts, total and average area, ordered by page index.
 *
 * The report is the decoded JSON document. Python's `float(text)` is the
 * parameter `parseFloat`, and `str(v)` of a number, list or dict is the
 * parameter `show`.
 */
module SlotSummary {
  import opened Wrappers
  import opened Text
  import opened JsonValue
  import opened Sorting

  // ---------------------------------------------------------------------------
  // str(), `or`, and the label normalisation
  // ---------------------------------------------------------------------------

  /** Python's `str(v)`. */
  function PyStr(v: Json, show: Json -> string): string {
    match v
    case JStr(s) => s
    case JNull => "None"
    case JBool(b) => if b then "True" else "False"
    case _ => show(v)
  }

  /** `a or b`: `a` when it is truthy, else `b`. */
  function Or(a: Json, b: Json): (r: Json)
    ensures Truthy(a) ==> r == a
    ensures !Truthy(a) ==> r == b
  {
    if Truthy(a) then a else b
  }

  /** `s.strip().lower()`. */
  function Normalize(s: string): string {
    Lower(Strip(s))
  }

  /** Normalising a label twice is normalising it once. */
  lemma NormalizeIdempotent(s: string)
    ensures Normalize(Normalize(s)) == Normalize(s)
  {
    var t := Strip(s);
    StripIdempotent(s);
    StripLower(t);
    LowerIdempotent(t);
  }

  /**
   * `s.split(sep)[-1]`: what follows the last `sep`, or all of `s` when it has
   * none.
   */
  function AfterLast(s: string, sep: char): (r: string)
    ensures |r| <= |s| && r == s[|s| - |r|..]
    ensures sep !in r
    ensures |r| < |s| ==> s[|s| - |r| - 1] == sep
  {
    if s == [] then []
    else if s[|s| - 1] == sep then []
    else AfterLast(s[..|s| - 1], sep) + [s[|s| - 1]]
  }

  // ---------------------------------------------------------------------------
  // looks_like_slot, bounds_from_item, area_cm2
  // ---------------------------------------------------------------------------

  /** `str(item.get(key, "") or "").strip().lower()`. */
  function Field(item: map<string, Json>, key: string, show: Json -> string): string {
    Normalize(PyStr(Or(Get(item, key, JStr("")), JStr("")), show))
  }

  predicate LabelLooksLikeSlot(name: string) {
    name == "slot" || name == "root" || StartsWith(name, "slot") || "slot" in Words(name)
  }

  predicate StyleLooksLikeSlot(style: string) {
    var name := AfterLast(style, '/');
    style != [] && (StartsWith(name, "slot") || name == "root" || name == "slot")
  }

  /** `looks_like_slot(item)`. */
  predicate LooksLikeSlot(item: map<string, Json>, show: Json -> string) {
    LabelLooksLikeSlot(Field(item, "label", show)) || StyleLooksLikeSlot(Field(item, "object_style", show))
  }

  /** A string stored under `key` reads back normalised. */
  lemma FieldOfString(item: map<string, Json>, key: string, x: string, show: Json -> string)
    ensures Field(item[key := JStr(x)], key, show) == Normalize(x)
  {
    assert Get(item[key := JStr(x)], key, JStr("")) == JStr(x);
    if x == [] {
      assert Or(JStr(x), JStr("")) == JStr("");
    }
  }

  /** Case and surrounding whitespace of a label or style do not matter. */
  lemma FieldIgnoresCase(item: map<string, Json>, key: string, s: string, show: Json -> string)
    ensures Field(item[key := JStr(s)], key, show) == Field(item[key := JStr(Normalize(s))], key, show)
  {
    FieldOfString(item, key, s, show);
    FieldOfString(item, key, Normalize(s), show);
    NormalizeIdempotent(s);
  }

  /** A label with the word "slot" anywhere marks a slot, whatever the style. */
  lemma SlotWordMarksSlot(item: map<string, Json>, show: Json -> string)
    requires "slot" in Words(Field(item, "label", show))
    ensures LooksLikeSlot(item, show)
  {
  }

  lemma StyleRule(style: string)
    ensures style == [] ==> !StyleLooksLikeSlot(style)
    ensures StyleLooksLikeSlot(style) <==>
      style != [] && (StartsWith(AfterLast(style, '/'), "slot") || AfterLast(style, '/') == "root")
  {
    var name := AfterLast(style, '/');
    assert name == "slot" ==> StartsWith(name, "slot");
  }

  /** Only the last `/` segment of the style counts, and a non-slot label with an empty style is no slot. */
  lemma StyleLastSegment(item: map<string, Json>, show: Json -> string)
    requires !LabelLooksLikeSlot(Field(item, "label", show))
    ensures Field(item, "object_style", show) == [] ==> !LooksLikeSlot(item, show)
    ensures var name := AfterLast(Field(item, "object_style", show), '/');
      LooksLikeSlot(item, show) <==> Field(item, "object_style", show) != [] && (StartsWith(name, "slot") || name == "root")
  {
    StyleRule(Field(item, "object_style", show));
  }

  /** The four sizes `bounds_from_item` reads, in millimetres. */
  datatype SlotBounds = SlotBounds(widthMm: real, heightMm: real, leftMm: real, topMm: real)

  /** `item.get("bounds_page") or item.get("bounds_spread")`. */
  function ChosenBounds(item: map<string, Json>): Json {
    Or(Get(item, "bounds_page", JNull), Get(item, "bounds_spread", JNull))
  }

  /** `float(bounds.get(key, 0.0))`. */
  function Size(bounds: map<string, Json>, key: string, parseFloat: string -> Option<real>): Option<real> {
    AsFloat(Get(bounds, key, JNum(0.0)), parseFloat)
  }

  /** `bounds_from_item(item)`. */
  function BoundsFromItem(item: map<string, Json>, parseFloat: string -> Option<real>): (r: Option<SlotBounds>)
    ensures r.Some? <==>
      && ChosenBounds(item).JObj?
      && Size(ChosenBounds(item).fields, "width_mm", parseFloat).Some?
      && Size(ChosenBounds(item).fields, "height_mm", parseFloat).Some?
      && Size(ChosenBounds(item).fields, "left_mm", parseFloat).Some?
      && Size(ChosenBounds(item).fields, "top_mm", parseFloat).Some?
  {
    match ChosenBounds(item)
    case JObj(bounds) =>
      var w := Size(bounds, "width_mm", parseFloat);
      var h := Size(bounds, "height_mm", parseFloat);
      var l := Size(bounds, "left_mm", parseFloat);
      var t := Size(bounds, "top_mm", parseFloat);
      if w.Some? && h.Some? && l.Some? && t.Some? then Some(SlotBounds(w.value, h.value, l.value, t.value))
      else None
    case _ => None
  }

  /**
   * The page bounds win when present and non-empty; otherwise the spread
   * bounds are used. Missing sizes read as 0.0, numbers as themselves.
   */
  lemma BoundsFromItemSources(item: map<string, Json>, parseFloat: string -> Option<real>)
    ensures "bounds_page" in item && Truthy(item["bounds_page"]) ==> ChosenBounds(item) == item["bounds_page"]
    ensures !("bounds_page" in item && Truthy(item["bounds_page"])) ==> ChosenBounds(item) == Get(item, "bounds_spread", JNull)
    ensures ChosenBounds(item) == JObj(map[]) ==> BoundsFromItem(item, parseFloat) == Some(SlotBounds(0.0, 0.0, 0.0, 0.0))
    ensures ChosenBounds(item).JObj? && BoundsFromItem(item, parseFloat).Some? ==>
      var b := ChosenBounds(item).fields;
      ("width_mm" !in b ==> BoundsFromItem(item, parseFloat).value.widthMm == 0.0)
      && (("width_mm" in b && b["width_mm"].JNum?) ==> BoundsFromItem(item, parseFloat).value.widthMm == b["width_mm"].n)
  {
  }

  /** `area_cm2(bounds)`: square millimetres over 100. */
  function AreaCm2(b: SlotBounds): (area: real)
    ensures area * 100.0 == b.widthMm * b.heightMm
    ensures b.widthMm >= 0.0 && b.heightMm >= 0.0 ==> area >= 0.0
  {
    (b.widthMm * b.heightMm) / 100.0
  }

  // ---------------------------------------------------------------------------
  // iter_page_items
  // ---------------------------------------------------------------------------

  datatype PageItem = PageItem(page: map<string, Json>, item: Json)

  /** The items list of a page: `page.get("items", [])` when it is a list, else none. */
  function ItemsOf(page: map<string, Json>): seq<Json> {
    match Get(page, "items", JArr([]))
    case JArr(items) => items
    case _ => []
  }

  function PairsOf(page: map<string, Json>): (r: seq<PageItem>)
    ensures |r| == |ItemsOf(page)|
    ensures forall k :: 0 <= k < |r| ==> r[k] == PageItem(page, ItemsOf(page)[k])
  {
    seq(|ItemsOf(page)|, k requires 0 <= k < |ItemsOf(page)| => PageItem(page, ItemsOf(page)[k]))
  }

  ghost predicate AllObjects(pages: seq<Json>) {
    forall k :: 0 <= k < |pages| ==> pages[k].JObj?
  }

  /**
   * The (page, item) pairs of the pages in order; None when a page is not a
   * dict, since `page.get` then raises.
   */
  function PagesItems(pages: seq<Json>): (r: Option<seq<PageItem>>)
    ensures r.Some? <==> AllObjects(pages)
  {
    if pages == [] then Some([])
    else
      var init := PagesItems(pages[..|pages| - 1]);
      var last := pages[|pages| - 1];
      if init.None? || !last.JObj? then None
      else Some(init.value + PairsOf(last.fields))
  }

  /** `iter_page_items(payload)`: nothing when "pages" is missing or not a list. */
  function PageItems(payload: map<string, Json>): Option<seq<PageItem>> {
    match Get(payload, "pages", JArr([]))
    case JArr(pages) => PagesItems(pages)
    case _ => Some([])
  }

  /** Every item of every page is visited, with its own page, pages in order and items in order. */
  lemma {:induction false} PagesItemsVisitsAll(pages: seq<Json>, k: nat, j: nat)
    requires AllObjects(pages)
    requires k < |pages| && j < |ItemsOf(pages[k].fields)|
    ensures PageItem(pages[k].fields, ItemsOf(pages[k].fields)[j]) in PagesItems(pages).value
  {
    var init := pages[..|pages| - 1];
    assert AllObjects(init) by {
      forall i | 0 <= i < |init| ensures init[i].JObj? {
        assert init[i] == pages[i];
      }
    }
    var pair := PageItem(pages[k].fields, ItemsOf(pages[k].fields)[j]);
    if k < |pages| - 1 {
      assert init[k] == pages[k];
      PagesItemsVisitsAll(init, k, j);
    } else {
      assert PairsOf(pages[k].fields)[j] == pair;
    }
  }

  // ---------------------------------------------------------------------------
  // summarize
  // ---------------------------------------------------------------------------

  /** One kept slot: the dict appended to a page's "slots". */
  datatype SlotRow = SlotRow(itemId: Json, itemLabel: Json, objectStyle: Json, widthMm: real, heightMm: real, areaCm2: real)

  /** A page entry while items are collected: the fields of the first page seen under its key, and its slots. */
  datatype PageEntry = PageEntry(pageIndex: Json, pageId: Json, pageName: Json, slots: seq<SlotRow>)

  /** The dict being filled: its keys in insertion order and its entries. */
  datatype Table = Table(keys: seq<string>, entries: map<string, PageEntry>)

  /** A finished entry of the result list. */
  datatype PageSummary = PageSummary(
    pageIndex: Json, pageId: Json, pageName: Json, slots: seq<SlotRow>,
    slotCount: nat, totalAreaCm2: real, averageAreaCm2: real)

  /** `str(page.get("page_id", ""))`. */
  function PageKey(page: map<string, Json>, show: Json -> string): string {
    PyStr(Get(page, "page_id", JStr("")), show)
  }

  function NewEntry(page: map<string, Json>): PageEntry {
    PageEntry(Get(page, "page_index", JNull), Get(page, "page_id", JNull), Get(page, "page_name", JNull), [])
  }

  /** `summary.setdefault(key, entry)`. */
  function SetDefault(t: Table, key: string, entry: PageEntry): (r: Table)
    ensures key in r.entries
    ensures key in t.entries ==> r == t
  {
    if key in t.entries then t else Table(t.keys + [key], t.entries[key := entry])
  }

  /** What one item contributes: skipped, a slot row, or an error (the item is not a dict). */
  datatype Verdict = Fail | Skip | Keep(row: SlotRow)

  /** The filters of one turn of the loop: the slot test, the bounds, the minimum area. */
  function Judge(item: Json, onlySlots: bool, minAreaCm2: real,
                 parseFloat: string -> Option<real>, show: Json -> string): (v: Verdict)
    ensures v.Fail? <==> !item.JObj?
    ensures v.Keep? ==> v.row.areaCm2 >= minAreaCm2
    ensures v.Keep? && onlySlots ==> LooksLikeSlot(item.fields, show)
    ensures v.Keep? ==> BoundsFromItem(item.fields, parseFloat).Some?
  {
    match item
    case JObj(fields) =>
      if onlySlots && !LooksLikeSlot(fields, show) then Skip
      else
        (match BoundsFromItem(fields, parseFloat)
         case None => Skip
         case Some(b) =>
           if AreaCm2(b) < minAreaCm2 then Skip
           else Keep(SlotRow(Get(fields, "item_id", JNull), Get(fields, "label", JNull),
                             Get(fields, "object_style", JNull), b.widthMm, b.heightMm, AreaCm2(b))))
    case _ => Fail
  }

  function JudgeFn(onlySlots: bool, minAreaCm2: real, parseFloat: string -> Option<real>,
                   show: Json -> string): Json -> Verdict
  {
    item => Judge(item, onlySlots, minAreaCm2, parseFloat, show)
  }

  /** The dict's keys are its insertion order: distinct, and exactly the keys present. */
  ghost predicate TableShaped(t: Table) {
    && (forall i, j :: 0 <= i < j < |t.keys| ==> t.keys[i] != t.keys[j])
    && (forall k :: k in t.entries <==> k in t.keys)
  }

  /** One turn of the loop of `summarize`, with `judge` for the filters. */
  function Visit(t: Table, p: PageItem, judge: Json -> Verdict, show: Json -> string): Option<Table> {
    var key := PageKey(p.page, show);
    var u := SetDefault(t, key, NewEntry(p.page));
    match judge(p.item)
    case Fail => None
    case Skip => Some(u)
    case Keep(row) =>
      var e := u.entries[key];
      Some(Table(u.keys, u.entries[key := e.(slots := e.slots + [row])]))
  }

  lemma VisitKeepsShape(t: Table, p: PageItem, judge: Json -> Verdict, show: Json -> string)
    requires TableShaped(t)
    requires Visit(t, p, judge, show).Some?
    ensures var u := Visit(t, p, judge, show).value;
      && TableShaped(u)
      && PageKey(p.page, show) in u.entries
      && (forall k :: k in t.entries ==> k in u.entries)
  {
    var key := PageKey(p.page, show);
    var u := SetDefault(t, key, NewEntry(p.page));
    assert TableShaped(u) by {
      if key !in t.entries {
        forall i, j | 0 <= i < j < |u.keys| ensures u.keys[i] != u.keys[j] {
          if j == |t.keys| {
            assert u.keys[j] == key;
            assert u.keys[i] == t.keys[i];
          }
        }
      }
    }
  }

  /** The dict after the loop has seen `pairs`. */
  function Collect(pairs: seq<PageItem>, judge: Json -> Verdict, show: Json -> string): (r: Option<Table>)
    ensures r.Some? ==> TableShaped(r.value)
  {
    if pairs == [] then Some(Table([], map[]))
    else
      match Collect(pairs[..|pairs| - 1], judge, show)
      case None => None
      case Some(t) =>
        var r := Visit(t, pairs[|pairs| - 1], judge, show);
        if r.Some? then VisitKeepsShape(t, pairs[|pairs| - 1], judge, show); r else r
  }

  /** Every kept slot passed the area filter. */
  ghost predicate RowsPass(t: Table, minAreaCm2: real) {
    forall k, i :: k in t.entries && 0 <= i < |t.entries[k].slots| ==> t.entries[k].slots[i].areaCm2 >= minAreaCm2
  }

  /**
   * While collecting, every kept row passed the area filter, and every page
   * that had an item has an entry, even when all its items were filtered out.
   */
  lemma {:induction false} CollectInvariant(pairs: seq<PageItem>, judge: Json -> Verdict, show: Json -> string,
                                            minAreaCm2: real)
    requires forall item :: judge(item).Keep? ==> judge(item).row.areaCm2 >= minAreaCm2
    requires Collect(pairs, judge, show).Some?
    ensures var t := Collect(pairs, judge, show).value;
      && RowsPass(t, minAreaCm2)
      && forall j :: 0 <= j < |pairs| ==> PageKey(pairs[j].page, show) in t.entries
  {
    if pairs != [] {
      var init := pairs[..|pairs| - 1];
      CollectInvariant(init, judge, show, minAreaCm2);
      var t0 := Collect(init, judge, show).value;
      var p := pairs[|pairs| - 1];
      VisitKeepsShape(t0, p, judge, show);
      forall j | 0 <= j < |pairs| - 1 ensures PageKey(pairs[j].page, show) in t0.entries {
        assert pairs[j] == init[j];
      }
      assert judge(p.item).Keep? ==> judge(p.item).row.areaCm2 >= minAreaCm2;
    } else {
      assert Collect(pairs, judge, show) == Some(Table([], map[]));
    }
  }

  /** A non-dict item makes `summarize` raise. */
  lemma {:induction false} CollectFailsOnNonObject(pairs: seq<PageItem>, j: nat, onlySlots: bool, minAreaCm2: real,
                                                   parseFloat: string -> Option<real>, show: Json -> string)
    requires j < |pairs| && !pairs[j].item.JObj?
    ensures Collect(pairs, JudgeFn(onlySlots, minAreaCm2, parseFloat, show), show).None?
  {
    var judge := JudgeFn(onlySlots, minAreaCm2, parseFloat, show);
    var init := pairs[..|pairs| - 1];
    if j < |pairs| - 1 {
      assert init[j] == pairs[j];
      CollectFailsOnNonObject(init, j, onlySlots, minAreaCm2, parseFloat, show);
    } else {
      assert judge(pairs[j].item).Fail?;
    }
  }

  /** `entry["page_index"] or 0`: the index itself when it is truthy, else 0. */
  function IndexKey(v: Json): Json {
    if Truthy(v) then v else JNum(0.0)
  }

  function Key(e: PageEntry): Json {
    IndexKey(e.pageIndex)
  }

  /** Two page indexes stay in this order under `sorted`: the later key is not less than the earlier. */
  predicate KeyInOrder(a: Json, b: Json) {
    Less(IndexKey(b), IndexKey(a)) != Some(true)
  }

  predicate AllNumbers(es: seq<PageEntry>) {
    forall k :: 0 <= k < |es| ==> Number(Key(es[k])).Some?
  }

  predicate AllStrings(es: seq<PageEntry>) {
    forall k :: 0 <= k < |es| ==> Key(es[k]).JStr?
  }

  /**
   * Whether `sorted` can order the entries: a single entry is never compared,
   * and Python orders numbers (with booleans) among numbers and strings among
   * strings only.
   */
  predicate Sortable(es: seq<PageEntry>) {
    |es| <= 1 || AllNumbers(es) || AllStrings(es)
  }

  /** Entries are sortable exactly when Python can compare the keys of every two of them. */
  lemma SortableIffComparable(es: seq<PageEntry>)
    ensures Sortable(es) <==>
      forall i, j :: 0 <= i < |es| && 0 <= j < |es| && i != j ==> Less(Key(es[i]), Key(es[j])).Some?
  {
    if |es| >= 2 && forall i, j :: 0 <= i < |es| && 0 <= j < |es| && i != j ==> Less(Key(es[i]), Key(es[j])).Some? {
      if Number(Key(es[0])).Some? {
        forall k | 0 < k < |es| ensures Number(Key(es[k])).Some? {
          assert Less(Key(es[0]), Key(es[k])).Some?;
        }
        assert AllNumbers(es);
      } else {
        assert Less(Key(es[0]), Key(es[1])).Some?;
        forall k | 0 < k < |es| ensures Key(es[k]).JStr? {
          assert Less(Key(es[0]), Key(es[k])).Some?;
        }
        assert AllStrings(es);
      }
    }
  }

  function NumKey(e: PageEntry): real {
    Number(Key(e)).GetOr(0.0)
  }

  function StrKey(e: PageEntry): string {
    if Key(e).JStr? then Key(e).s else ""
  }

  function ByNumber(): (PageEntry, PageEntry) -> bool {
    (a: PageEntry, b: PageEntry) => NumKey(a) <= NumKey(b)
  }

  function ByString(): (PageEntry, PageEntry) -> bool {
    (a: PageEntry, b: PageEntry) => !StrLess(StrKey(b), StrKey(a))
  }

  lemma ByNumberIsPreorder()
    ensures TotalPreorder(ByNumber())
  {
  }

  lemma ByStringIsPreorder()
    ensures TotalPreorder(ByString())
  {
    var le := ByString();
    forall a: PageEntry, b: PageEntry ensures le(a, b) || le(b, a) {
      if StrLess(StrKey(a), StrKey(b)) && StrLess(StrKey(b), StrKey(a)) {
        StrLessTransitive(StrKey(a), StrKey(b), StrKey(a));
      }
    }
    forall a: PageEntry, b: PageEntry, c: PageEntry | le(a, b) && le(b, c) ensures le(a, c) {
      if StrLess(StrKey(c), StrKey(a)) {
        StrLessTotal(StrKey(b), StrKey(c));
        if StrLess(StrKey(b), StrKey(c)) {
          StrLessTransitive(StrKey(b), StrKey(c), StrKey(a));
        }
      }
    }
  }

  /** Neither page index sorts before the other: `sorted` keeps their entries in dict order. */
  predicate SameRank(a: Json, b: Json) {
    KeyInOrder(a, b) && KeyInOrder(b, a)
  }

  /** The entries of `es` whose page index ranks the same as `index`, in their order in `es`. */
  function Tied(es: seq<PageEntry>, index: Json): (r: seq<PageEntry>)
    ensures forall e :: e in r ==> e in es && SameRank(e.pageIndex, index)
  {
    if es == [] then []
    else Tied(es[..|es| - 1], index) + (if SameRank(es[|es| - 1].pageIndex, index) then [es[|es| - 1]] else [])
  }

  /** On keys of one kind, ranking the same is being level under the sort's order. */
  lemma {:induction false} TiedIsLevel(es: seq<PageEntry>, e: PageEntry, le: (PageEntry, PageEntry) -> bool, numbers: bool)
    requires numbers ==> AllNumbers(es) && Number(Key(e)).Some? && le == ByNumber()
    requires !numbers ==> AllStrings(es) && Key(e).JStr? && le == ByString()
    ensures Tied(es, e.pageIndex) == LevelWith(es, e, le)
  {
    if es != [] {
      var init := es[..|es| - 1];
      var last := es[|es| - 1];
      assert forall k :: 0 <= k < |init| ==> init[k] == es[k];
      TiedIsLevel(init, e, le, numbers);
      if numbers {
        assert Number(Key(last)).Some?;
      } else {
        assert Key(last).JStr?;
        StrLessTotal(StrKey(last), StrKey(e));
      }
    }
  }

  /** `summary.values()`, in insertion order. */
  function Values(t: Table): (vs: seq<PageEntry>)
    requires forall k :: k in t.keys ==> k in t.entries
    ensures |vs| == |t.keys|
    ensures forall i :: 0 <= i < |vs| ==> vs[i] == t.entries[t.keys[i]]
  {
    seq(|t.keys|, i requires 0 <= i < |t.keys| => t.entries[t.keys[i]])
  }

  /** `sorted(summary.values(), key=...)`; None where comparing two keys raises. */
  function Order(t: Table): Option<seq<PageEntry>>
    requires forall k :: k in t.keys ==> k in t.entries
  {
    var values := Values(t);
    if !Sortable(values) then None
    else if AllNumbers(values) then Some(SortBy(values, ByNumber()))
    else Some(SortBy(values, ByString()))
  }

  /** A dict with a single page is never compared, whatever its page index. */
  lemma OrderOfOnePage(t: Table)
    requires forall k :: k in t.keys ==> k in t.entries
    requires |t.keys| <= 1
    ensures Order(t) == Some(Values(t))
  {
    var values := Values(t);
    assert values == [] || values == [values[0]];
    if values != [] {
      assert [values[0]][..0] == [];
    }
  }

  /** Sorted entries of one kind of key are in the order of Python's `<` on the keys. */
  lemma SortedInOrder(values: seq<PageEntry>, le: (PageEntry, PageEntry) -> bool, numbers: bool)
    requires numbers ==> AllNumbers(values) && le == ByNumber()
    requires !numbers ==> AllStrings(values) && le == ByString()
    requires TotalPreorder(le)
    ensures forall i, j :: 0 <= i < j < |SortBy(values, le)| ==>
      KeyInOrder(SortBy(values, le)[i].pageIndex, SortBy(values, le)[j].pageIndex)
  {
    var r := SortBy(values, le);
    SortByIsSorted(values, le);
    SortByMembers(values, le);
    forall i, j | 0 <= i < j < |r| ensures KeyInOrder(r[i].pageIndex, r[j].pageIndex) {
      assert le(r[i], r[j]);
      assert r[i] in r && r[j] in r;
      assert r[i] in values && r[j] in values;
      var m :| 0 <= m < |values| && values[m] == r[i];
      var n :| 0 <= n < |values| && values[n] == r[j];
      if numbers {
        assert Number(Key(values[m])).Some? && Number(Key(values[n])).Some?;
      } else {
        assert Key(values[m]).JStr? && Key(values[n]).JStr?;
      }
    }
  }

  /** Sorting entries whose keys are all of one kind keeps the ties of each key in their order. */
  lemma SortKeepsTies(values: seq<PageEntry>, le: (PageEntry, PageEntry) -> bool, numbers: bool)
    requires numbers ==> AllNumbers(values) && le == ByNumber()
    requires !numbers ==> AllStrings(values) && le == ByString()
    requires TotalPreorder(le)
    ensures forall e :: e in values ==> Tied(SortBy(values, le), e.pageIndex) == Tied(values, e.pageIndex)
  {
    var r := SortBy(values, le);
    SortByStable(values, le);
    SortByMembers(values, le);
    forall e | e in values ensures Tied(r, e.pageIndex) == Tied(values, e.pageIndex) {
      var m :| 0 <= m < |values| && values[m] == e;
      if numbers {
        assert AllNumbers(r) by {
          forall k | 0 <= k < |r| ensures Number(Key(r[k])).Some? {
            assert r[k] in values;
          }
        }
      } else {
        assert AllStrings(r) by {
          forall k | 0 <= k < |r| ensures Key(r[k]).JStr? {
            assert r[k] in values;
          }
        }
      }
      TiedIsLevel(r, e, le, numbers);
      TiedIsLevel(values, e, le, numbers);
    }
  }

  /**
   * The sorted entries are the dict's entries, one per key, in the order of
   * their page indexes; entries whose page indexes rank the same keep the
   * dict's insertion order (`sorted` is stable).
   */
  lemma OrderMeaning(t: Table)
    requires forall k :: k in t.keys ==> k in t.entries
    requires Order(t).Some?
    ensures |Order(t).value| == |t.keys|
    ensures forall i, j :: 0 <= i < j < |Order(t).value| ==>
      KeyInOrder(Order(t).value[i].pageIndex, Order(t).value[j].pageIndex)
    ensures multiset(Order(t).value) == multiset(Values(t))
    ensures forall e :: e in Values(t) ==> Tied(Order(t).value, e.pageIndex) == Tied(Values(t), e.pageIndex)
  {
    var values := Values(t);
    if AllNumbers(values) {
      ByNumberIsPreorder();
      SortedInOrder(values, ByNumber(), true);
      SortKeepsTies(values, ByNumber(), true);
    } else if AllStrings(values) {
      ByStringIsPreorder();
      SortedInOrder(values, ByString(), false);
      SortKeepsTies(values, ByString(), false);
    } else {
      OrderOfOnePage(t);
    }
  }

  /** `sum(slot["area_cm2"] for slot in slots)`. */
  function SumAreas(slots: seq<SlotRow>): real {
    if slots == [] then 0.0 else SumAreas(slots[..|slots| - 1]) + slots[|slots| - 1].areaCm2
  }

  /** The count, total and average `summarize` adds to each entry. */
  function Finish(e: PageEntry): (s: PageSummary)
    ensures s.pageIndex == e.pageIndex && s.pageId == e.pageId && s.pageName == e.pageName
    ensures s.slots == e.slots && s.slotCount == |e.slots|
    ensures s.totalAreaCm2 == SumAreas(e.slots)
    ensures s.averageAreaCm2 * (|e.slots| as real) == s.totalAreaCm2
    ensures e.slots == [] ==> s.averageAreaCm2 == 0.0
  {
    var total := SumAreas(e.slots);
    PageSummary(e.pageIndex, e.pageId, e.pageName, e.slots, |e.slots|, total,
                if e.slots == [] then 0.0 else total / (|e.slots| as real))
  }

  function FinishAll(ordered: seq<PageEntry>): (r: seq<PageSummary>)
    ensures |r| == |ordered|
    ensures forall i :: 0 <= i < |r| ==> r[i] == Finish(ordered[i])
  {
    seq(|ordered|, i requires 0 <= i < |ordered| => Finish(ordered[i]))
  }

  /** The areas of slots that all reach `minAreaCm2` sum to at least `count · minAreaCm2`. */
  lemma {:induction false} SumAreasAtLeast(slots: seq<SlotRow>, minAreaCm2: real)
    requires forall i :: 0 <= i < |slots| ==> slots[i].areaCm2 >= minAreaCm2
    ensures SumAreas(slots) >= (|slots| as real) * minAreaCm2
  {
    if slots != [] {
      var init := slots[..|slots| - 1];
      assert forall i :: 0 <= i < |init| ==> init[i] == slots[i];
      SumAreasAtLeast(init, minAreaCm2);
    }
  }

  /** The collected dict, sorted and finished; None where sorting raises or an item is not a dict. */
  function Summary(pairs: seq<PageItem>, judge: Json -> Verdict, show: Json -> string): Option<seq<PageSummary>> {
    match Collect(pairs, judge, show)
    case None => None
    case Some(t) =>
      match Order(t)
      case None => None
      case Some(ordered) => Some(FinishAll(ordered))
  }

  /** The whole of `summarize(payload, only_slots, min_area_cm2)`; None where Python raises. */
  function SummarizeSpec(payload: map<string, Json>, onlySlots: bool, minAreaCm2: real,
                         parseFloat: string -> Option<real>, show: Json -> string): Option<seq<PageSummary>>
  {
    match PageItems(payload)
    case None => None
    case Some(pairs) => Summary(pairs, JudgeFn(onlySlots, minAreaCm2, parseFloat, show), show)
  }

  /** The summaries of `r` whose page index ranks the same as `index`, in their order in `r`. */
  function TiedSummaries(r: seq<PageSummary>, index: Json): seq<PageSummary> {
    if r == [] then []
    else TiedSummaries(r[..|r| - 1], index) + (if SameRank(r[|r| - 1].pageIndex, index) then [r[|r| - 1]] else [])
  }

  /** Finishing entries keeps which of them tie, and their order. */
  lemma {:induction false} TiedFinish(es: seq<PageEntry>, index: Json)
    ensures TiedSummaries(FinishAll(es), index) == FinishAll(Tied(es, index))
  {
    if es != [] {
      var init := es[..|es| - 1];
      var last := es[|es| - 1];
      var r := FinishAll(es);
      assert r[..|r| - 1] == FinishAll(init);
      TiedFinish(init, index);
      var tied := Tied(init, index);
      if SameRank(last.pageIndex, index) {
        assert FinishAll(tied + [last]) == FinishAll(tied) + [Finish(last)];
      }
    }
  }

  /**
   * The finished list `r` made from the dict `t`: one entry per key, by
   * ascending page index, and entries whose page indexes rank the same in
   * the dict's insertion order; each entry is the finished dict entry of its
   * key, so it holds that page's slots with their count and total area and
   * an average that is 0 without slots; every slot reaches the minimum area.
   */
  ghost predicate FinishedFrom(t: Table, r: seq<PageSummary>, minAreaCm2: real) {
    && TableShaped(t)
    && |r| == |t.keys|
    && (forall i, j :: 0 <= i < j < |r| ==> KeyInOrder(r[i].pageIndex, r[j].pageIndex))
    && (forall e :: e in Values(t) ==> TiedSummaries(r, e.pageIndex) == FinishAll(Tied(Values(t), e.pageIndex)))
    && multiset(r) == multiset(FinishAll(Values(t)))
    && (forall i, k :: 0 <= i < |r| && 0 <= k < |r[i].slots| ==> r[i].slots[k].areaCm2 >= minAreaCm2)
  }

  /** What `summarize` promises: the finished list of the dict, which has an entry for every page that had an item. */
  ghost predicate Promised(pairs: seq<PageItem>, t: Table, r: seq<PageSummary>, minAreaCm2: real, show: Json -> string) {
    && FinishedFrom(t, r, minAreaCm2)
    && (forall j :: 0 <= j < |pairs| ==> PageKey(pairs[j].page, show) in t.keys)
  }

  lemma FinishOrderMeaning(t: Table, minAreaCm2: real)
    requires TableShaped(t) && RowsPass(t, minAreaCm2)
    requires Order(t).Some?
    ensures FinishedFrom(t, FinishAll(Order(t).value), minAreaCm2)
  {
    var ordered := Order(t).value;
    OrderMeaning(t);
    forall e | e in Values(t)
      ensures TiedSummaries(FinishAll(ordered), e.pageIndex) == FinishAll(Tied(Values(t), e.pageIndex))
    {
      TiedFinish(ordered, e.pageIndex);
    }
    FinishKeepsOrder(ordered);
    FinishAllPermutes(ordered, Values(t));
    FinishKeepsRows(t, ordered, minAreaCm2);
  }

  lemma FinishKeepsOrder(ordered: seq<PageEntry>)
    requires forall i, j :: 0 <= i < j < |ordered| ==> KeyInOrder(ordered[i].pageIndex, ordered[j].pageIndex)
    ensures forall i, j :: 0 <= i < j < |FinishAll(ordered)| ==>
      KeyInOrder(FinishAll(ordered)[i].pageIndex, FinishAll(ordered)[j].pageIndex)
  {
  }

  /** Finishing the entries of two orderings of the same entries gives two orderings of the same summaries. */
  lemma FinishAllPermutes(a: seq<PageEntry>, b: seq<PageEntry>)
    requires multiset(a) == multiset(b)
    ensures multiset(FinishAll(a)) == multiset(FinishAll(b))
  {
    MapSeqPermutes(a, b, Finish);
    assert FinishAll(a) == MapSeq(a, Finish);
    assert FinishAll(b) == MapSeq(b, Finish);
  }

  lemma FinishKeepsRows(t: Table, ordered: seq<PageEntry>, minAreaCm2: real)
    requires RowsPass(t, minAreaCm2)
    requires forall k :: k in t.keys ==> k in t.entries
    requires multiset(ordered) == multiset(Values(t))
    ensures forall i, k :: 0 <= i < |FinishAll(ordered)| && 0 <= k < |FinishAll(ordered)[i].slots| ==>
      FinishAll(ordered)[i].slots[k].areaCm2 >= minAreaCm2
  {
    var r := FinishAll(ordered);
    forall i, k | 0 <= i < |r| && 0 <= k < |r[i].slots| ensures r[i].slots[k].areaCm2 >= minAreaCm2 {
      assert ordered[i] in multiset(Values(t));
      var n :| 0 <= n < |t.keys| && Values(t)[n] == ordered[i];
      assert r[i].slots == t.entries[t.keys[n]].slots;
    }
  }

  lemma SummaryMeaning(pairs: seq<PageItem>, judge: Json -> Verdict, show: Json -> string, minAreaCm2: real)
    requires forall item :: judge(item).Keep? ==> judge(item).row.areaCm2 >= minAreaCm2
    requires Summary(pairs, judge, show).Some?
    ensures Promised(pairs, Collect(pairs, judge, show).value, Summary(pairs, judge, show).value, minAreaCm2, show)
  {
    CollectInvariant(pairs, judge, show, minAreaCm2);
    var t := Collect(pairs, judge, show).value;
    FinishOrderMeaning(t, minAreaCm2);
  }

  /** `summarize` keeps its promises (see `Promised`). */
  lemma SummarizeMeaning(payload: map<string, Json>, onlySlots: bool, minAreaCm2: real,
                         parseFloat: string -> Option<real>, show: Json -> string)
    requires SummarizeSpec(payload, onlySlots, minAreaCm2, parseFloat, show).Some?
    ensures var pairs := PageItems(payload).value;
      var judge := JudgeFn(onlySlots, minAreaCm2, parseFloat, show);
      Promised(pairs, Collect(pairs, judge, show).value,
               SummarizeSpec(payload, onlySlots, minAreaCm2, parseFloat, show).value, minAreaCm2, show)
  {
    var judge := JudgeFn(onlySlots, minAreaCm2, parseFloat, show);
    forall item | judge(item).Keep? ensures judge(item).row.areaCm2 >= minAreaCm2 {
      assert judge(item) == Judge(item, onlySlots, minAreaCm2, parseFloat, show);
    }
    SummaryMeaning(PageItems(payload).value, judge, show, minAreaCm2);
  }

  /** `summarize(payload, only_slots, min_area_cm2)`. */
  method Summarize(payload: map<string, Json>, onlySlots: bool, minAreaCm2: real,
                   parseFloat: string -> Option<real>, show: Json -> string)
    returns (r: Option<seq<PageSummary>>)
    ensures r == SummarizeSpec(payload, onlySlots, minAreaCm2, parseFloat, show)
  {
    var found := PageItems(payload);
    if found.None? {
      return None;
    }
    var collected := CollectItems(found.value, JudgeFn(onlySlots, minAreaCm2, parseFloat, show), show);
    if collected.None? {
      return None;
    }
    var t := collected.value;
    assert TableShaped(t);
    var values := TableValues(t);
    if !Sortable(values) {
      return None;
    }
    var ordered := if AllNumbers(values) then SortBy(values, ByNumber()) else SortBy(values, ByString());
    var out := FinishEntries(ordered);
    r := Some(out);
  }

  /** The loop of `summarize` over the (page, item) pairs. */
  method CollectItems(pairs: seq<PageItem>, judge: Json -> Verdict, show: Json -> string) returns (t: Option<Table>)
    ensures t == Collect(pairs, judge, show)
  {
    var keys: seq<string> := [];
    var summary: map<string, PageEntry> := map[];
    var i := 0;
    while i < |pairs|
      invariant 0 <= i <= |pairs|
      invariant Collect(pairs[..i], judge, show) == Some(Table(keys, summary))
    {
      assert pairs[..i + 1][..i] == pairs[..i];
      var next := VisitStep(keys, summary, pairs[i], judge, show);
      if next.None? {
        CollectStopsAtFailure(pairs, i + 1, judge, show);
        return None;
      }
      keys, summary := next.value.keys, next.value.entries;
      i := i + 1;
    }
    assert pairs[..i] == pairs;
    t := Some(Table(keys, summary));
  }

  /** `summary.values()`. */
  method TableValues(t: Table) returns (values: seq<PageEntry>)
    requires forall k :: k in t.keys ==> k in t.entries
    ensures values == Values(t)
  {
    values := [];
    var k := 0;
    while k < |t.keys|
      invariant 0 <= k <= |t.keys|
      invariant |values| == k
      invariant forall n :: 0 <= n < k ==> values[n] == t.entries[t.keys[n]]
    {
      values := values + [t.entries[t.keys[k]]];
      k := k + 1;
    }
  }

  /** The last loop of `summarize`: count, total and average of each entry. */
  method FinishEntries(ordered: seq<PageEntry>) returns (out: seq<PageSummary>)
    ensures out == FinishAll(ordered)
  {
    out := [];
    var n := 0;
    while n < |ordered|
      invariant 0 <= n <= |ordered|
      invariant |out| == n
      invariant forall m :: 0 <= m < n ==> out[m] == Finish(ordered[m])
    {
      var entry := ordered[n];
      var total := TotalArea(entry.slots);
      var average := if entry.slots == [] then 0.0 else total / (|entry.slots| as real);
      out := out + [PageSummary(entry.pageIndex, entry.pageId, entry.pageName, entry.slots,
                                |entry.slots|, total, average)];
      n := n + 1;
    }
  }

  /** `sum(slot["area_cm2"] for slot in slots)`, summed left to right. */
  method TotalArea(slots: seq<SlotRow>) returns (total: real)
    ensures total == SumAreas(slots)
  {
    total := 0.0;
    var s := 0;
    while s < |slots|
      invariant 0 <= s <= |slots|
      invariant total == SumAreas(slots[..s])
    {
      assert slots[..s + 1][..s] == slots[..s];
      total := total + slots[s].areaCm2;
      s := s + 1;
    }
    assert slots[..s] == slots;
  }

  /** Once a prefix fails, the whole collection fails. */
  lemma {:induction false} CollectStopsAtFailure(pairs: seq<PageItem>, n: nat, judge: Json -> Verdict, show: Json -> string)
    requires n <= |pairs|
    requires Collect(pairs[..n], judge, show).None?
    ensures Collect(pairs, judge, show).None?
    decreases |pairs| - n
  {
    if n < |pairs| {
      assert pairs[..n + 1][..n] == pairs[..n];
      CollectStopsAtFailure(pairs, n + 1, judge, show);
    } else {
      assert pairs[..n] == pairs;
    }
  }

  /** One turn of the loop: `setdefault` for the page, then the item's slot row, if the filters keep one. */
  method VisitStep(keys: seq<string>, summary: map<string, PageEntry>, p: PageItem,
                   judge: Json -> Verdict, show: Json -> string)
    returns (next: Option<Table>)
    ensures next == Visit(Table(keys, summary), p, judge, show)
  {
    var pageKey := PageKey(p.page, show);
    var ks, entries := keys, summary;
    if pageKey !in entries {
      ks := ks + [pageKey];
      entries := entries[pageKey := NewEntry(p.page)];
    }
    var verdict := judge(p.item);
    if verdict.Fail? {
      return None;
    }
    if verdict.Skip? {
      return Some(Table(ks, entries));
    }
    var e := entries[pageKey];
    entries := entries[pageKey := e.(slots := e.slots + [verdict.row])];
    next := Some(Table(ks, entries));
  }
}
