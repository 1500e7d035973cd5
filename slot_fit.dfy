/**
 * `try_note_in_slot`: the note is laid out at every combination of the
 * configured body and title sizes, largest body first and, for each body,
 * largest title first. The first combination whose height fits in what is
 * left of the slot wins; when none fits, the one with the fewest body
 * characters beyond the slot's capacity is kept, the first such one on a tie.
 */
module SlotFit {
  import opened Wrappers
  import opened LayoutTypes
  import opened PlannerConfig
  import opened Heights

  /** The outcome of laying one note out in one slot. */
  datatype LayoutResult = LayoutResult(
    note: Note, slot: Slot, fit: bool, fontTitle: real, fontBody: real,
    heights: NoteHeights, remaining: real, overflow: int, used: real)

  // ---------------------------------------------------------------- sizes

  predicate Decreasing(s: seq<real>) {
    forall i, j :: 0 <= i < j < |s| ==> s[i] > s[j]
  }

  /** `x` put into its place in a strictly decreasing sequence, unless it is there already. */
  function InsertDescending(x: real, s: seq<real>): (r: seq<real>)
    requires Decreasing(s)
    ensures Decreasing(r)
    ensures forall y :: y in r <==> y == x || y in s
    ensures |s| <= |r| <= |s| + 1
  {
    if s == [] then [x]
    else if x == s[0] then s
    else if x > s[0] then [x] + s
    else
      assert forall y :: y in s[1..] ==> y < s[0];
      var rest := InsertDescending(x, s[1..]);
      assert forall j :: 0 <= j < |rest| ==> rest[j] < s[0] by {
        forall j | 0 <= j < |rest|
          ensures rest[j] < s[0]
        {
          assert rest[j] in rest;
        }
      }
      [s[0]] + rest
  }

  /** `sorted({base, min, max}, reverse=True)`: the distinct sizes of a style, largest first. */
  function Sizes(st: TextStyle): (r: seq<real>)
    ensures Decreasing(r)
    ensures forall y :: y in r <==> y == st.base || y == st.min || y == st.max
    ensures 1 <= |r| <= 3
  {
    InsertDescending(st.base, InsertDescending(st.min, [st.max]))
  }

  predicate PositiveSizes(st: TextStyle) {
    st.base > 0.0 && st.min > 0.0 && st.max > 0.0
  }

  // ---------------------------------------------------------------- the order of the trials

  /** The trials with body size `body`, one per title size. */
  function Row(body: real, titles: seq<real>): (r: seq<(real, real)>)
    ensures |r| == |titles|
    ensures forall k :: 0 <= k < |titles| ==> r[k] == (body, titles[k])
  {
    seq(|titles|, k requires 0 <= k < |titles| => (body, titles[k]))
  }

  /** The (body, title) pairs in the order the two nested loops visit them. */
  function Pairs(bodies: seq<real>, titles: seq<real>): seq<(real, real)> {
    if bodies == [] then []
    else Pairs(bodies[..|bodies| - 1], titles) + Row(bodies[|bodies| - 1], titles)
  }

  /** `p` is visited before `q`: a larger body, or the same body and a larger title. */
  predicate Before(p: (real, real), q: (real, real)) {
    p.0 > q.0 || (p.0 == q.0 && p.1 > q.1)
  }

  /** Every combination is tried, and nothing else. */
  lemma {:induction false} PairsMembers(bodies: seq<real>, titles: seq<real>)
    ensures forall p :: p in Pairs(bodies, titles) <==> p.0 in bodies && p.1 in titles
  {
    if bodies != [] {
      var init := bodies[..|bodies| - 1];
      PairsMembers(init, titles);
      assert bodies == init + [bodies[|bodies| - 1]];
      forall p: (real, real) | p.0 in bodies && p.1 in titles
        ensures p in Pairs(bodies, titles)
      {
        if p.0 !in init {
          var k :| 0 <= k < |titles| && titles[k] == p.1;
          assert Row(bodies[|bodies| - 1], titles)[k] == p;
        }
      }
    }
  }

  /** With both size lists strictly decreasing, the trials run largest body first, then largest title. */
  lemma {:induction false} PairsOrdered(bodies: seq<real>, titles: seq<real>)
    requires Decreasing(bodies) && Decreasing(titles)
    ensures forall i, j :: 0 <= i < j < |Pairs(bodies, titles)| ==> Before(Pairs(bodies, titles)[i], Pairs(bodies, titles)[j])
  {
    if bodies != [] {
      var init := bodies[..|bodies| - 1];
      var last := bodies[|bodies| - 1];
      PairsOrdered(init, titles);
      PairsMembers(init, titles);
      var front := Pairs(init, titles);
      var row := Row(last, titles);
      assert Pairs(bodies, titles) == front + row;
      forall i, j | 0 <= i < j < |front + row|
        ensures Before((front + row)[i], (front + row)[j])
      {
        if j >= |front| && i < |front| {
          assert front[i] in front;
          var b := front[i].0;
          assert b in init;
          var m :| 0 <= m < |init| && init[m] == b;
          assert bodies[m] == b;
        }
      }
    }
  }

  /** Adding a body size adds its row at the end. */
  lemma PairsSnoc(bodies: seq<real>, titles: seq<real>, i: nat)
    requires i < |bodies|
    ensures Pairs(bodies[..i + 1], titles) == Pairs(bodies[..i], titles) + Row(bodies[i], titles)
  {
    assert bodies[..i + 1][..i] == bodies[..i];
  }

  /** Before row `i` has been finished, what has been tried is a prefix of all trials. */
  lemma {:induction false} PairsPrefix(bodies: seq<real>, titles: seq<real>, i: nat, k: nat)
    requires i < |bodies| && k <= |titles|
    ensures Pairs(bodies[..i], titles) + Row(bodies[i], titles[..k]) <= Pairs(bodies, titles)
  {
    var init := bodies[..|bodies| - 1];
    var done := Pairs(bodies[..i], titles) + Row(bodies[i], titles[..k]);
    if i == |bodies| - 1 {
      assert init == bodies[..i];
      assert Row(bodies[i], titles[..k]) == Row(bodies[i], titles)[..k];
      assert done == Pairs(bodies, titles)[..|done|];
    } else {
      PairsPrefix(init, titles, i, k);
      assert init[..i] == bodies[..i] && init[i] == bodies[i];
      assert done <= Pairs(init, titles);
      assert done == Pairs(bodies, titles)[..|done|];
    }
  }

  /** The trial of row `i`, column `k` comes right after the rows before it and `k` trials of row `i`. */
  lemma PairsAt(bodies: seq<real>, titles: seq<real>, i: nat, k: nat)
    requires i < |bodies| && k < |titles|
    ensures |Pairs(bodies[..i], titles)| + k < |Pairs(bodies, titles)|
    ensures Pairs(bodies, titles)[|Pairs(bodies[..i], titles)| + k] == (bodies[i], titles[k])
  {
    PairsPrefix(bodies, titles, i, k + 1);
    var done := Pairs(bodies[..i], titles) + Row(bodies[i], titles[..k + 1]);
    assert done[|Pairs(bodies[..i], titles)| + k] == (bodies[i], titles[k]);
  }

  /** In a list ordered by `Before`, what comes first is earlier in the list. */
  lemma EarlierIndex(ps: seq<(real, real)>, i: nat, j: nat)
    requires forall a, b :: 0 <= a < b < |ps| ==> Before(ps[a], ps[b])
    requires i < |ps| && j < |ps| && Before(ps[i], ps[j])
    ensures i < j
  {
  }

  // ---------------------------------------------------------------- the search

  /** The loop's state: still searching with the best non-fitting trial so far, or done. */
  datatype Search = Searching(best: Option<LayoutResult>) | Found(result: LayoutResult)

  /** One trial: a fit ends the search; otherwise a strictly smaller overflow than the best so far replaces it. */
  function Visit(st: Search, a: LayoutResult): Search {
    if st.Found? then st
    else if a.fit then Found(a)
    else if st.best.None? || a.overflow < st.best.value.overflow then Searching(Some(a))
    else st
  }

  /** The state after the trials `atts`, from the start (no best, an infinite minimal overflow). */
  function Run(atts: seq<LayoutResult>): Search {
    if atts == [] then Searching(None) else Visit(Run(atts[..|atts| - 1]), atts[|atts| - 1])
  }

  /** The result: the fitting trial, else the best one, else the fallback. */
  function Outcome(st: Search, fallback: LayoutResult): LayoutResult {
    if st.Found? then st.result
    else if st.best.Some? then st.best.value
    else fallback
  }

  /** Trials that do not fit leave the search going, with a best one as soon as there was a trial. */
  lemma {:induction false} RunNoFitSearching(atts: seq<LayoutResult>)
    requires forall k :: 0 <= k < |atts| ==> !atts[k].fit
    ensures Run(atts).Searching?
    ensures Run(atts).best.None? <==> atts == []
  {
    if atts != [] {
      RunNoFitSearching(atts[..|atts| - 1]);
    }
  }

  /** One more trial is one more `Visit`. */
  lemma RunStep(atts: seq<LayoutResult>, n: nat)
    requires n < |atts|
    ensures Run(atts[..n + 1]) == Visit(Run(atts[..n]), atts[n])
  {
    assert atts[..n + 1][..n] == atts[..n];
  }

  /** Once found, nothing later changes the result. */
  lemma {:induction false} RunStaysFound(atts: seq<LayoutResult>, j: nat)
    requires j <= |atts| && Run(atts[..j]).Found?
    ensures Run(atts) == Run(atts[..j])
  {
    if j < |atts| {
      var init := atts[..|atts| - 1];
      assert init[..j] == atts[..j];
      RunStaysFound(init, j);
    } else {
      assert atts[..j] == atts;
    }
  }

  /** The first fitting trial is the result. */
  lemma {:induction false} RunFirstFit(atts: seq<LayoutResult>, j: nat)
    requires j < |atts| && atts[j].fit
    requires forall k :: 0 <= k < j ==> !atts[k].fit
    ensures Run(atts) == Found(atts[j])
  {
    var pre := atts[..j + 1];
    assert pre[..j] == atts[..j];
    RunNoFitSearching(atts[..j]);
    assert Run(pre) == Found(atts[j]);
    RunStaysFound(atts, j + 1);
  }

  /** `m` is the first trial with the smallest overflow. */
  predicate IsFirstMinimal(atts: seq<LayoutResult>, m: nat) {
    && m < |atts|
    && (forall k :: 0 <= k < |atts| ==> atts[m].overflow <= atts[k].overflow)
    && (forall k :: 0 <= k < m ==> atts[k].overflow > atts[m].overflow)
  }

  /** Without a fit, the best trial is the first one of minimal overflow. */
  lemma {:induction false} RunNoFitMinimal(atts: seq<LayoutResult>)
    requires atts != []
    requires forall k :: 0 <= k < |atts| ==> !atts[k].fit
    ensures Run(atts).Searching? && Run(atts).best.Some?
    ensures exists m: nat :: IsFirstMinimal(atts, m) && Run(atts).best.value == atts[m]
  {
    RunNoFitSearching(atts);
    var init := atts[..|atts| - 1];
    var last := atts[|atts| - 1];
    if init == [] {
      assert IsFirstMinimal(atts, 0);
    } else {
      RunNoFitMinimal(init);
      var m: nat :| IsFirstMinimal(init, m) && Run(init).best.value == init[m];
      assert forall k :: 0 <= k < |init| ==> atts[k] == init[k];
      if last.overflow < init[m].overflow {
        assert IsFirstMinimal(atts, |atts| - 1);
      } else {
        assert IsFirstMinimal(atts, m);
      }
    }
  }

  // ---------------------------------------------------------------- the search over any trial

  /** The trials of `pairs`, in order. */
  function Attempts(pairs: seq<(real, real)>, attempt: (real, real) -> LayoutResult): (r: seq<LayoutResult>)
    ensures |r| == |pairs|
    ensures forall i :: 0 <= i < |pairs| ==> r[i] == attempt(pairs[i].0, pairs[i].1)
  {
    seq(|pairs|, i requires 0 <= i < |pairs| => attempt(pairs[i].0, pairs[i].1))
  }

  /** The trial at (body, title) can be made for every pair of sizes, and records the sizes it used. */
  predicate Records(bodies: seq<real>, titles: seq<real>, attempt: (real, real) -> LayoutResult) {
    forall b, t :: b in bodies && t in titles ==> attempt(b, t).fontBody == b && attempt(b, t).fontTitle == t
  }

  /** The result of the nested loops over `bodies` and `titles`, `fallback` when there was no trial. */
  function SearchResult(bodies: seq<real>, titles: seq<real>, attempt: (real, real) -> LayoutResult, fallback: LayoutResult): LayoutResult
  {
    Outcome(Run(Attempts(Pairs(bodies, titles), attempt)), fallback)
  }

  /** The trials behind `SearchResult`, with the facts about them the lemmas below use. */
  lemma SearchTrials(bodies: seq<real>, titles: seq<real>, attempt: (real, real) -> LayoutResult, fallback: LayoutResult)
    returns (pairs: seq<(real, real)>, atts: seq<LayoutResult>)
    ensures forall p :: p in pairs <==> p.0 in bodies && p.1 in titles
    ensures pairs == Pairs(bodies, titles)
    ensures |atts| == |pairs|
    ensures forall i :: 0 <= i < |pairs| ==> atts[i] == attempt(pairs[i].0, pairs[i].1)
    ensures SearchResult(bodies, titles, attempt, fallback) == Outcome(Run(atts), fallback)
  {
    pairs := Pairs(bodies, titles);
    PairsMembers(bodies, titles);
    atts := Attempts(pairs, attempt);
  }

  /** The index of the first fitting trial. */
  function FirstFitIndex(atts: seq<LayoutResult>): (j: nat)
    requires exists k :: 0 <= k < |atts| && atts[k].fit
    ensures j < |atts| && atts[j].fit
    ensures forall k :: 0 <= k < j ==> !atts[k].fit
  {
    if atts[0].fit then 0
    else
      assert exists k :: 0 <= k < |atts[1..]| && atts[1..][k].fit by {
        var k :| 0 <= k < |atts| && atts[k].fit;
        assert atts[1..][k - 1] == atts[k];
      }
      FirstFitIndex(atts[1..]) + 1
  }

  /** The search fits exactly when some pair of sizes fits. */
  lemma SearchFitsIff(bodies: seq<real>, titles: seq<real>, attempt: (real, real) -> LayoutResult, fallback: LayoutResult)
    requires !fallback.fit
    ensures SearchResult(bodies, titles, attempt, fallback).fit <==>
      exists b, t :: b in bodies && t in titles && attempt(b, t).fit
  {
    var pairs, atts := SearchTrials(bodies, titles, attempt, fallback);
    if exists k :: 0 <= k < |atts| && atts[k].fit {
      var j := FirstFitIndex(atts);
      RunFirstFit(atts, j);
      assert pairs[j] in pairs;
      var b0, t0 := pairs[j].0, pairs[j].1;
      assert b0 in bodies && t0 in titles && attempt(b0, t0).fit;
      assert SearchResult(bodies, titles, attempt, fallback) == atts[j];
      assert SearchResult(bodies, titles, attempt, fallback).fit;
      assert exists b, t :: b in bodies && t in titles && attempt(b, t).fit;
    } else {
      var r := SearchResult(bodies, titles, attempt, fallback);
      if atts != [] {
        RunNoFitMinimal(atts);
        var m: nat :| IsFirstMinimal(atts, m) && Run(atts).best.value == atts[m];
        assert r == atts[m];
      } else {
        assert Run(atts) == Searching(None);
        assert r == fallback;
      }
      assert !r.fit;
      forall b, t | b in bodies && t in titles
        ensures !attempt(b, t).fit
      {
        assert (b, t) in pairs;
        var i :| 0 <= i < |pairs| && pairs[i] == (b, t);
        assert atts[i] == attempt(b, t);
      }
      assert !exists b, t :: b in bodies && t in titles && attempt(b, t).fit;
    }
  }

  /** With at least one trial, the result is one of them, made at the sizes it records. */
  lemma SearchIsATrial(bodies: seq<real>, titles: seq<real>, attempt: (real, real) -> LayoutResult, fallback: LayoutResult)
    requires Records(bodies, titles, attempt) && bodies != [] && titles != []
    ensures var r := SearchResult(bodies, titles, attempt, fallback);
      r.fontBody in bodies && r.fontTitle in titles && r == attempt(r.fontBody, r.fontTitle)
  {
    var pairs, atts := SearchTrials(bodies, titles, attempt, fallback);
    var r := SearchResult(bodies, titles, attempt, fallback);
    assert (bodies[0], titles[0]) in pairs;
    var j: nat;
    if exists k :: 0 <= k < |atts| && atts[k].fit {
      j := FirstFitIndex(atts);
      RunFirstFit(atts, j);
    } else {
      RunNoFitMinimal(atts);
      j :| IsFirstMinimal(atts, j) && Run(atts).best.value == atts[j];
    }
    assert r == atts[j];
    var b0, t0 := pairs[j].0, pairs[j].1;
    assert pairs[j] == (b0, t0) && pairs[j] in pairs;
    assert b0 in bodies && t0 in titles;
    assert r == attempt(b0, t0);
  }

  /** A fitting result is the first fitting trial. */
  lemma SearchFoundAt(bodies: seq<real>, titles: seq<real>, attempt: (real, real) -> LayoutResult, fallback: LayoutResult)
    returns (pairs: seq<(real, real)>, atts: seq<LayoutResult>, j: nat)
    requires !fallback.fit && SearchResult(bodies, titles, attempt, fallback).fit
    ensures pairs == Pairs(bodies, titles) && |atts| == |pairs| && j < |pairs|
    ensures forall p :: p in pairs <==> p.0 in bodies && p.1 in titles
    ensures forall i :: 0 <= i < |pairs| ==> atts[i] == attempt(pairs[i].0, pairs[i].1)
    ensures SearchResult(bodies, titles, attempt, fallback) == atts[j]
    ensures forall k :: 0 <= k < j ==> !atts[k].fit
  {
    pairs, atts := SearchTrials(bodies, titles, attempt, fallback);
    SearchFitsIff(bodies, titles, attempt, fallback);
    var b0, t0 :| b0 in bodies && t0 in titles && attempt(b0, t0).fit;
    assert (b0, t0) in pairs;
    var i0 :| 0 <= i0 < |pairs| && pairs[i0] == (b0, t0);
    assert atts[i0].fit;
    j := FirstFitIndex(atts);
    RunFirstFit(atts, j);
  }

  /** A fitting result is made at the largest sizes that fit: every pair tried before it did not fit. */
  lemma SearchLargestFit(bodies: seq<real>, titles: seq<real>, attempt: (real, real) -> LayoutResult, fallback: LayoutResult, b: real, t: real)
    requires Records(bodies, titles, attempt) && Decreasing(bodies) && Decreasing(titles) && !fallback.fit
    requires SearchResult(bodies, titles, attempt, fallback).fit
    requires b in bodies && t in titles
    requires Before((b, t), (SearchResult(bodies, titles, attempt, fallback).fontBody, SearchResult(bodies, titles, attempt, fallback).fontTitle))
    ensures !attempt(b, t).fit
  {
    var pairs, atts, j := SearchFoundAt(bodies, titles, attempt, fallback);
    PairsOrdered(bodies, titles);
    var r := SearchResult(bodies, titles, attempt, fallback);
    var bj, tj := pairs[j].0, pairs[j].1;
    assert pairs[j] == (bj, tj) && pairs[j] in pairs;
    assert r == attempt(bj, tj) && bj == r.fontBody && tj == r.fontTitle;
    assert (b, t) in pairs;
    var i :| 0 <= i < |pairs| && pairs[i] == (b, t);
    EarlierIndex(pairs, i, j);
    assert atts[i] == attempt(b, t);
  }

  /** Without a fit, the result has the fewest characters left over, and strictly fewer than any pair tried before it. */
  lemma SearchMinimalOverflow(bodies: seq<real>, titles: seq<real>, attempt: (real, real) -> LayoutResult, fallback: LayoutResult, b: real, t: real)
    requires Records(bodies, titles, attempt) && Decreasing(bodies) && Decreasing(titles) && !fallback.fit
    requires !SearchResult(bodies, titles, attempt, fallback).fit
    requires b in bodies && t in titles
    ensures SearchResult(bodies, titles, attempt, fallback).overflow <= attempt(b, t).overflow
    ensures Before((b, t), (SearchResult(bodies, titles, attempt, fallback).fontBody, SearchResult(bodies, titles, attempt, fallback).fontTitle)) ==>
      SearchResult(bodies, titles, attempt, fallback).overflow < attempt(b, t).overflow
  {
    var pairs, atts := SearchTrials(bodies, titles, attempt, fallback);
    PairsOrdered(bodies, titles);
    SearchFitsIff(bodies, titles, attempt, fallback);
    var r := SearchResult(bodies, titles, attempt, fallback);
    forall k | 0 <= k < |atts|
      ensures !atts[k].fit
    {
      var bk, tk := pairs[k].0, pairs[k].1;
      assert pairs[k] == (bk, tk) && pairs[k] in pairs;
      assert atts[k] == attempt(bk, tk);
    }
    assert (b, t) in pairs;
    var i :| 0 <= i < |pairs| && pairs[i] == (b, t);
    assert atts[i] == attempt(b, t);
    RunNoFitMinimal(atts);
    var m: nat :| IsFirstMinimal(atts, m) && Run(atts).best.value == atts[m];
    assert r == atts[m];
    var bm, tm := pairs[m].0, pairs[m].1;
    assert pairs[m] == (bm, tm) && pairs[m] in pairs;
    assert r == attempt(bm, tm) && bm == r.fontBody && tm == r.fontTitle;
    if Before((b, t), (r.fontBody, r.fontTitle)) {
      EarlierIndex(pairs, i, m);
    }
  }

  /**
   * The two nested loops of `try_note_in_slot` over any trial function,
   * returning as soon as a trial fits.
   */
  /** Trial `k` of body size `i` is trial number `n` of the whole search. */
  lemma Advance(bodies: seq<real>, titles: seq<real>, attempt: (real, real) -> LayoutResult, i: nat, k: nat, n: nat)
    requires i < |bodies| && k < |titles| && n == |Pairs(bodies[..i], titles)| + k
    ensures n < |Attempts(Pairs(bodies, titles), attempt)|
    ensures Attempts(Pairs(bodies, titles), attempt)[n] == attempt(bodies[i], titles[k])
    ensures Run(Attempts(Pairs(bodies, titles), attempt)[..n + 1]) ==
      Visit(Run(Attempts(Pairs(bodies, titles), attempt)[..n]), attempt(bodies[i], titles[k]))
  {
    PairsAt(bodies, titles, i, k);
    RunStep(Attempts(Pairs(bodies, titles), attempt), n);
  }

  /** `for font_body in body_sizes: for font_title in title_sizes: ...`, stopping at the first fit. */
  method SearchSizes(bodies: seq<real>, titles: seq<real>, attempt: (real, real) -> LayoutResult, fallback: LayoutResult)
    returns (r: LayoutResult)
    ensures r == SearchResult(bodies, titles, attempt, fallback)
  {
    ghost var atts := Attempts(Pairs(bodies, titles), attempt);
    var best: Option<LayoutResult> := None;
    ghost var n := 0;
    assert bodies[..0] == [];
    for i := 0 to |bodies|
      invariant n == |Pairs(bodies[..i], titles)| && n <= |atts|
      invariant Run(atts[..n]) == Searching(best)
    {
      for k := 0 to |titles|
        invariant n == |Pairs(bodies[..i], titles)| + k && n <= |atts|
        invariant Run(atts[..n]) == Searching(best)
      {
        Advance(bodies, titles, attempt, i, k, n);
        var a := attempt(bodies[i], titles[k]);
        if a.fit {
          RunStaysFound(atts, n + 1);
          return a;
        }
        if best.None? || a.overflow < best.value.overflow {
          best := Some(a);
        }
        n := n + 1;
      }
      PairsSnoc(bodies, titles, i);
    }
    assert bodies[..|bodies|] == bodies;
    assert atts[..n] == atts;
    r := Outcome(Searching(best), fallback);
  }

  // ---------------------------------------------------------------- the planner's trial

  /** The note at title size `fontTitle` and body size `fontBody`, in the room left of the slot. */
  function Attempt(note: Note, slot: Slot, remaining: real, cm: ColumnModel, s: Settings, fontTitle: real, fontBody: real): (r: LayoutResult)
    requires cm.Valid() && fontTitle > 0.0 && fontBody > 0.0
    ensures r.note == note && r.slot == slot && r.fontTitle == fontTitle && r.fontBody == fontBody
    ensures r.heights == NoteHeight(note, slot.width, fontTitle, fontBody, cm, s) && r.used == r.heights.Total()
    ensures r.remaining == remaining - r.used
    ensures r.fit <==> r.used <= remaining
    ensures r.fit ==> r.overflow == 0
    ensures !r.fit ==> r.overflow == IntMax(note.bodyChars - Capacity(remaining, slot.width, fontBody, cm, s), 0)
    ensures r.overflow >= 0
  {
    var h := NoteHeight(note, slot.width, fontTitle, fontBody, cm, s);
    var total := h.Total();
    if remaining - total >= 0.0 then
      LayoutResult(note, slot, true, fontTitle, fontBody, h, remaining - total, 0, total)
    else
      var capacity := Capacity(remaining, slot.width, fontBody, cm, s);
      LayoutResult(note, slot, false, fontTitle, fontBody, h, remaining - total, IntMax(note.bodyChars - capacity, 0), total)
  }

  /**
   * The trial as a function of (body, title). Sizes that are not positive
   * never reach it (`TryInSlot` requires positive sizes); they get the
   * fallback so that the function is total.
   */
  function AttemptFn(note: Note, slot: Slot, remaining: real, cm: ColumnModel, s: Settings): (real, real) -> LayoutResult
    requires cm.Valid()
  {
    (body: real, title: real) =>
      if body > 0.0 && title > 0.0 then Attempt(note, slot, remaining, cm, s, title, body)
      else Fallback(note, slot, remaining, s)
  }

  /** What `try_note_in_slot` returns when no trial was made: the minimum sizes, nothing placed. */
  function Fallback(note: Note, slot: Slot, remaining: real, s: Settings): (r: LayoutResult)
    ensures !r.fit && r.overflow == note.bodyChars && r.remaining == remaining && r.used == 0.0
  {
    LayoutResult(note, slot, false, s.title.min, s.body.min, NoHeights, remaining, note.bodyChars, 0.0)
  }

  /** `try_note_in_slot(note, slot, remaining_height, column_model, config)`. */
  function TryInSlot(note: Note, slot: Slot, remaining: real, cm: ColumnModel, s: Settings): LayoutResult
    requires cm.Valid() && PositiveSizes(s.title) && PositiveSizes(s.body)
  {
    SearchResult(Sizes(s.body), Sizes(s.title), AttemptFn(note, slot, remaining, cm, s), Fallback(note, slot, remaining, s))
  }

  /** The planner's trial records the sizes it is made at, for every configured size. */
  lemma AttemptRecords(note: Note, slot: Slot, remaining: real, cm: ColumnModel, s: Settings)
    requires cm.Valid() && PositiveSizes(s.title) && PositiveSizes(s.body)
    ensures Records(Sizes(s.body), Sizes(s.title), AttemptFn(note, slot, remaining, cm, s))
    ensures forall b, t :: b in Sizes(s.body) && t in Sizes(s.title) ==>
      AttemptFn(note, slot, remaining, cm, s)(b, t) == Attempt(note, slot, remaining, cm, s, t, b)
  {
  }

  /** The note fits exactly when some pair of configured sizes fits; a fit leaves room and drops no character. */
  lemma TryFitsIff(note: Note, slot: Slot, remaining: real, cm: ColumnModel, s: Settings)
    requires cm.Valid() && PositiveSizes(s.title) && PositiveSizes(s.body)
    ensures TryInSlot(note, slot, remaining, cm, s).fit <==>
      exists b, t :: b in Sizes(s.body) && t in Sizes(s.title) && Attempt(note, slot, remaining, cm, s, t, b).fit
    ensures TryInSlot(note, slot, remaining, cm, s).fit ==>
      TryInSlot(note, slot, remaining, cm, s).overflow == 0 && TryInSlot(note, slot, remaining, cm, s).remaining >= 0.0
  {
    AttemptRecords(note, slot, remaining, cm, s);
    SearchFitsIff(Sizes(s.body), Sizes(s.title), AttemptFn(note, slot, remaining, cm, s), Fallback(note, slot, remaining, s));
    SearchIsATrial(Sizes(s.body), Sizes(s.title), AttemptFn(note, slot, remaining, cm, s), Fallback(note, slot, remaining, s));
  }

  /** The result is always one of the trials: the fallback is never needed with a style's sizes. */
  lemma TryIsATrial(note: Note, slot: Slot, remaining: real, cm: ColumnModel, s: Settings)
    requires cm.Valid() && PositiveSizes(s.title) && PositiveSizes(s.body)
    ensures TryInSlot(note, slot, remaining, cm, s).fontBody in Sizes(s.body)
    ensures TryInSlot(note, slot, remaining, cm, s).fontTitle in Sizes(s.title)
    ensures TryInSlot(note, slot, remaining, cm, s) ==
      Attempt(note, slot, remaining, cm, s, TryInSlot(note, slot, remaining, cm, s).fontTitle, TryInSlot(note, slot, remaining, cm, s).fontBody)
  {
    AttemptRecords(note, slot, remaining, cm, s);
    assert s.body.base in Sizes(s.body) && s.title.base in Sizes(s.title);
    SearchIsATrial(Sizes(s.body), Sizes(s.title), AttemptFn(note, slot, remaining, cm, s), Fallback(note, slot, remaining, s));
  }

  /** A fit uses the largest sizes that fit: larger bodies, and larger titles at the same body, did not fit. */
  lemma TryLargestFit(note: Note, slot: Slot, remaining: real, cm: ColumnModel, s: Settings, b: real, t: real)
    requires cm.Valid() && PositiveSizes(s.title) && PositiveSizes(s.body)
    requires TryInSlot(note, slot, remaining, cm, s).fit
    requires b in Sizes(s.body) && t in Sizes(s.title)
    requires Before((b, t), (TryInSlot(note, slot, remaining, cm, s).fontBody, TryInSlot(note, slot, remaining, cm, s).fontTitle))
    ensures !Attempt(note, slot, remaining, cm, s, t, b).fit
  {
    AttemptRecords(note, slot, remaining, cm, s);
    SearchLargestFit(Sizes(s.body), Sizes(s.title), AttemptFn(note, slot, remaining, cm, s), Fallback(note, slot, remaining, s), b, t);
  }

  /** Without a fit, the result leaves the fewest body characters over, the earliest such pair on a tie. */
  lemma TryMinimalOverflow(note: Note, slot: Slot, remaining: real, cm: ColumnModel, s: Settings, b: real, t: real)
    requires cm.Valid() && PositiveSizes(s.title) && PositiveSizes(s.body)
    requires !TryInSlot(note, slot, remaining, cm, s).fit
    requires b in Sizes(s.body) && t in Sizes(s.title)
    ensures TryInSlot(note, slot, remaining, cm, s).overflow <= Attempt(note, slot, remaining, cm, s, t, b).overflow
    ensures Before((b, t), (TryInSlot(note, slot, remaining, cm, s).fontBody, TryInSlot(note, slot, remaining, cm, s).fontTitle)) ==>
      TryInSlot(note, slot, remaining, cm, s).overflow < Attempt(note, slot, remaining, cm, s, t, b).overflow
  {
    AttemptRecords(note, slot, remaining, cm, s);
    SearchMinimalOverflow(Sizes(s.body), Sizes(s.title), AttemptFn(note, slot, remaining, cm, s), Fallback(note, slot, remaining, s), b, t);
  }

  /** `try_note_in_slot`, the loops run over the sizes of the settings. */
  method TryNoteInSlot(note: Note, slot: Slot, remaining: real, cm: ColumnModel, s: Settings) returns (r: LayoutResult)
    requires cm.Valid() && PositiveSizes(s.title) && PositiveSizes(s.body)
    ensures r == TryInSlot(note, slot, remaining, cm, s)
  {
    var titles := Sizes(s.title);
    var bodies := Sizes(s.body);
    r := SearchSizes(bodies, titles, AttemptFn(note, slot, remaining, cm, s), Fallback(note, slot, remaining, s));
  }
}
