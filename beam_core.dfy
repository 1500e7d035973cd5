/**
 * What the two beam-search solver revisions (src/solver.py and solver.py)
 * have in common: the frozen partial states with their `push`/`with`
 * transitions, the notes loop that expands every state, sorts the candidates
 * by descending score and keeps the first `beam_width`, and the final choice
 * of the state with the best score after the final gap penalty. A revision
 * supplies its own expansion of one state by one note.
 */
module BeamCore {
  import opened Wrappers
  import opened Sorting

  type NonNegReal = r: real | r >= 0.0

  function Min(a: real, b: real): real { if a <= b then a else b }
  function Max(a: real, b: real): real { if a >= b then a else b }

  /**
   * A note as the solvers read it through `getattr`: identifier, `chars_body`,
   * `title_level` (None when missing or not an integer), `image_mode` (when it
   * is a string) and `image_count`, each already converted with `int(...)`.
   */
  datatype SolverNote = SolverNote(
    noteId: string,
    charsBody: int,
    titleLevel: Option<int>,
    imageMode: Option<string>,
    imageCount: int)

  /** `PlanSettings`; `fitToleranceMm` is the `1e-6` slack of the fit test. */
  datatype PlanSettings = PlanSettings(
    beamWidth: int,
    fitBonus: real,
    gapPenaltyPerMm: real,
    overflowPenaltyPerChar: real,
    overfillPenaltyPerMm: real,
    dropPenalty: real,
    finalGapPenaltyPerMm: real,
    defaultTitleLevel: Option<int>,
    defaultImagePreset: Option<string>,
    fitToleranceMm: real)

  /** One note placed in one column. */
  datatype Assignment = Assignment(
    note: SolverNote,
    columnIndex: int,
    startMm: real,
    usedHeightMm: real,
    titleHeightMm: real,
    bodyHeightMm: real,
    imageHeightMm: real,
    bodyCharsFit: int,
    bodyCharsOverflow: int,
    imgMode: string,
    fit: bool,
    remainingMm: real)

  /** A partial state of the search (the log lines are not modelled). */
  datatype BeamState = BeamState(
    score: real,
    columnsUsed: seq<real>,
    assignments: seq<Assignment>,
    dropped: seq<SolverNote>)

  datatype SolverOutcome = SolverOutcome(
    assignments: seq<Assignment>,
    droppedNotes: seq<SolverNote>,
    columnUsageMm: seq<real>,
    columnGapsMm: seq<real>,
    score: real)

  /**
   * The capacity model the solvers call into (Prediseño_automatizado.py is not
   * part of this model): text density, `capacity_for_height`, title costs by
   * level for a one-column span, `capacity_per_column` for a one-column span,
   * and the image presets in the dictionary's insertion order.
   */
  datatype CapacityModel = CapacityModel(
    charsPerLine: real,
    linesPerMm: real,
    capacityForHeight: real -> int,
    titleCost: int -> real,
    capacityPerColumn: (real, Option<int>, Option<string>) -> int,
    imagePresets: seq<(string, ImagePreset)>)

  /** The capacity functions never grant a negative number of characters. */
  ghost predicate NonNegativeCapacities(model: CapacityModel) {
    && (forall h :: model.capacityForHeight(h) >= 0)
    && (forall h, level, preset :: model.capacityPerColumn(h, level, preset) >= 0)
  }

  /** An image preset: its name and `cost()` at its own span. */
  datatype ImagePreset = ImagePreset(name: string, cost: real)

  /** `key in presets` for the dictionary of presets. */
  predicate HasPreset(presets: seq<(string, ImagePreset)>, key: string) {
    exists i :: 0 <= i < |presets| && presets[i].0 == key
  }

  /** `presets[key]`: the entry stored under `key`. */
  function PresetAt(presets: seq<(string, ImagePreset)>, key: string): (p: ImagePreset)
    requires HasPreset(presets, key)
    ensures exists i :: 0 <= i < |presets| && presets[i].0 == key && presets[i].1 == p
  {
    if presets[0].0 == key then presets[0].1 else PresetAt(presets[1..], key)
  }

  /** The title height for a resolved level: nothing when the level is falsy. */
  function TitleHeight(level: Option<int>, model: CapacityModel): real {
    if level.Some? && level.value != 0 then model.titleCost(level.value) else 0.0
  }

  /**
   * The `_fallback` of `_resolve_image_mode` and the tail of
   * `_select_image_preset`: the configured default preset when it is set and
   * exists, else the first preset, else no image.
   */
  function FallbackPreset(model: CapacityModel, settings: PlanSettings): (r: (string, real))
    ensures model.imagePresets == [] ==> r == ("none", 0.0)
    ensures model.imagePresets != [] ==> exists i :: (0 <= i < |model.imagePresets| &&
              r == (model.imagePresets[i].1.name, model.imagePresets[i].1.cost))
    ensures settings.defaultImagePreset.Some? && settings.defaultImagePreset.value != []
              && HasPreset(model.imagePresets, settings.defaultImagePreset.value) ==>
              r == (PresetAt(model.imagePresets, settings.defaultImagePreset.value).name,
                    PresetAt(model.imagePresets, settings.defaultImagePreset.value).cost)
  {
    var name := settings.defaultImagePreset;
    if name.Some? && name.value != [] && HasPreset(model.imagePresets, name.value) then
      var p := PresetAt(model.imagePresets, name.value);
      (p.name, p.cost)
    else if model.imagePresets == [] then ("none", 0.0)
    else (model.imagePresets[0].1.name, model.imagePresets[0].1.cost)
  }

  /** A preset's `(name, cost())`, or `("none", 0.0)`. */
  ghost predicate IsPresetOrNone(presets: seq<(string, ImagePreset)>, r: (string, real)) {
    r == ("none", 0.0) || exists i :: 0 <= i < |presets| && r == (presets[i].1.name, presets[i].1.cost)
  }

  /** `_body_height_from_chars`: characters over the density `chars_per_line * lines_per_mm`. */
  function BodyHeightFromChars(chars: int, model: CapacityModel): (h: real)
    ensures model.charsPerLine * model.linesPerMm <= 0.0 ==> h == 0.0
    ensures model.charsPerLine * model.linesPerMm > 0.0 ==> h * (model.charsPerLine * model.linesPerMm) == chars as real
    ensures chars >= 0 ==> h >= 0.0
  {
    var density := model.charsPerLine * model.linesPerMm;
    if density <= 0.0 then 0.0 else chars as real / density
  }

  /** The notes of a run of assignments, in order. */
  function NotesOf(assignments: seq<Assignment>): (ns: seq<SolverNote>)
    ensures |ns| == |assignments|
    ensures forall i :: 0 <= i < |assignments| ==> ns[i] == assignments[i].note
  {
    seq(|assignments|, i requires 0 <= i < |assignments| => assignments[i].note)
  }

  /** The notes a state has decided: placed ones and dropped ones together. */
  function Decided(s: BeamState): multiset<SolverNote> {
    multiset(NotesOf(s.assignments)) + multiset(s.dropped)
  }

  /**
   * The state has one usage entry per column, each within `[0, columnHeight]`,
   * and every assignment names one of the columns.
   */
  ghost predicate WellFormed(s: BeamState, columns: int, columnHeight: real) {
    && |s.columnsUsed| == columns
    && (forall j :: 0 <= j < |s.columnsUsed| ==> 0.0 <= s.columnsUsed[j] <= columnHeight)
    && (forall i :: 0 <= i < |s.assignments| ==> 0 <= s.assignments[i].columnIndex < columns)
  }

  /**
   * The fit test: no character left over and the whole note within the
   * available height, up to the tolerance.
   */
  predicate FitFlag(overflowChars: int, idealMm: real, availableMm: real, settings: PlanSettings) {
    overflowChars == 0 && idealMm <= availableMm + settings.fitToleranceMm
  }

  /**
   * The score change of a placement: the fit bonus, or penalties for the
   * characters and millimetres that do not fit; minus the gap penalty for
   * the space the placement leaves in its column.
   */
  function PlacementScore(fit: bool, overflowChars: int, idealMm: real, availableMm: real, remainingMm: real,
                          settings: PlanSettings): real
  {
    (if fit then settings.fitBonus
     else - settings.overflowPenaltyPerChar * overflowChars as real
          - settings.overfillPenaltyPerMm * Max(idealMm - availableMm, 0.0))
    - settings.gapPenaltyPerMm * remainingMm
  }

  /**
   * With non-negative weights a fit scores at most the bonus and a misfit at
   * most zero; leaving more space never raises a score.
   */
  lemma PlacementScoreBounds(fit: bool, overflowChars: int, idealMm: real, availableMm: real, remainingMm: real,
                             moreRemainingMm: real, settings: PlanSettings)
    requires settings.gapPenaltyPerMm >= 0.0 && settings.overflowPenaltyPerChar >= 0.0
    requires settings.overfillPenaltyPerMm >= 0.0
    requires overflowChars >= 0 && remainingMm >= 0.0 && moreRemainingMm >= remainingMm
    ensures fit ==> PlacementScore(fit, overflowChars, idealMm, availableMm, remainingMm, settings) <= settings.fitBonus
    ensures !fit ==> PlacementScore(fit, overflowChars, idealMm, availableMm, remainingMm, settings) <= 0.0
    ensures PlacementScore(fit, overflowChars, idealMm, availableMm, moreRemainingMm, settings)
            <= PlacementScore(fit, overflowChars, idealMm, availableMm, remainingMm, settings)
  {
    assert settings.gapPenaltyPerMm * remainingMm >= 0.0;
    assert settings.gapPenaltyPerMm * moreRemainingMm >= settings.gapPenaltyPerMm * remainingMm;
    assert settings.overflowPenaltyPerChar * overflowChars as real >= 0.0;
    assert settings.overfillPenaltyPerMm * Max(idealMm - availableMm, 0.0) >= 0.0;
  }

  /** The state every search starts from: nothing used, nothing decided. */
  function Initial(columns: nat): (s: BeamState)
    ensures Decided(s) == multiset{} && |s.columnsUsed| == columns
    ensures forall j :: 0 <= j < columns ==> s.columnsUsed[j] == 0.0
  {
    BeamState(0.0, seq(columns, _ => 0.0), [], [])
  }

  /**
   * `push_assignment` / `with_assignment`: only the assignment's column
   * changes, to its old usage plus the used height, capped at the column
   * height; one assignment is appended and the score moves by `scoreDelta`.
   */
  function PushAssignment(s: BeamState, a: Assignment, scoreDelta: real, columnHeight: real): (r: BeamState)
    requires 0 <= a.columnIndex < |s.columnsUsed|
    ensures |r.columnsUsed| == |s.columnsUsed|
    ensures r.columnsUsed[a.columnIndex] == Min(columnHeight, s.columnsUsed[a.columnIndex] + a.usedHeightMm)
    ensures forall j :: 0 <= j < |s.columnsUsed| && j != a.columnIndex ==> r.columnsUsed[j] == s.columnsUsed[j]
    ensures r.assignments == s.assignments + [a] && r.dropped == s.dropped
    ensures r.score == s.score + scoreDelta
  {
    var idx := a.columnIndex;
    BeamState(
      s.score + scoreDelta,
      s.columnsUsed[idx := Min(columnHeight, s.columnsUsed[idx] + a.usedHeightMm)],
      s.assignments + [a],
      s.dropped)
  }

  /**
   * `push_drop` / `with_drop`: the score loses `penalty`, the note is appended
   * to the dropped ones, columns and assignments stay as they were.
   */
  function PushDrop(s: BeamState, note: SolverNote, penalty: real): (r: BeamState)
    ensures r.score == s.score - penalty
    ensures r.columnsUsed == s.columnsUsed && r.assignments == s.assignments
    ensures r.dropped == s.dropped + [note]
  {
    BeamState(s.score - penalty, s.columnsUsed, s.assignments, s.dropped + [note])
  }

  /** A placement of non-negative height keeps the usage bounds and decides its note. */
  lemma PushAssignmentKeepsBounds(s: BeamState, a: Assignment, scoreDelta: real, columns: int, columnHeight: real)
    requires WellFormed(s, columns, columnHeight)
    requires 0 <= a.columnIndex < columns && a.usedHeightMm >= 0.0
    ensures WellFormed(PushAssignment(s, a, scoreDelta, columnHeight), columns, columnHeight)
    ensures Decided(PushAssignment(s, a, scoreDelta, columnHeight)) == Decided(s) + multiset{a.note}
  {
    var r := PushAssignment(s, a, scoreDelta, columnHeight);
    assert 0.0 <= s.columnsUsed[a.columnIndex] <= columnHeight;
    assert NotesOf(r.assignments) == NotesOf(s.assignments) + [a.note];
  }

  /** A drop keeps the usage bounds and decides its note. */
  lemma PushDropKeepsBounds(s: BeamState, note: SolverNote, penalty: real, columns: int, columnHeight: real)
    requires WellFormed(s, columns, columnHeight)
    ensures WellFormed(PushDrop(s, note, penalty), columns, columnHeight)
    ensures Decided(PushDrop(s, note, penalty)) == Decided(s) + multiset{note}
  {
  }

  /** Python's `s[:n]`, including its reading of a negative `n`. */
  function Take<T>(s: seq<T>, n: int): (r: seq<T>)
    ensures |r| <= |s| && r == s[..|r|]
    ensures n >= 0 ==> |r| == if n <= |s| then n else |s|
  {
    if n >= 0 then (if n <= |s| then s[..n] else s)
    else if |s| + n >= 0 then s[..|s| + n]
    else []
  }

  /** The sort key of `sort(key=score, reverse=True)`. */
  function ByScoreDesc(): (BeamState, BeamState) -> bool {
    (a: BeamState, b: BeamState) => a.score >= b.score
  }

  lemma ByScoreDescIsPreorder()
    ensures TotalPreorder(ByScoreDesc())
  {
  }

  /** The candidates sorted by descending score, cut to the beam width. */
  function Prune(candidates: seq<BeamState>, width: int): seq<BeamState> {
    Take(SortBy(candidates, ByScoreDesc()), width)
  }

  /**
   * What pruning keeps: states of the candidates, by descending score, as many
   * as the width allows, and none of the dropped candidates beats a kept one.
   * Among candidates of equal score the cut keeps the earliest ones, in their
   * order (`sort` is stable, also with `reverse=True`).
   */
  lemma PruneKeepsBest(candidates: seq<BeamState>, width: int)
    ensures forall t :: t in Prune(candidates, width) ==> t in candidates
    ensures forall i, j :: 0 <= i < j < |Prune(candidates, width)| ==>
      Prune(candidates, width)[i].score >= Prune(candidates, width)[j].score
    ensures width >= 0 ==> |Prune(candidates, width)| == if width <= |candidates| then width else |candidates|
    ensures forall i, j :: 0 <= i < |Prune(candidates, width)| <= j < |candidates| ==>
      SortBy(candidates, ByScoreDesc())[j].score <= Prune(candidates, width)[i].score
    ensures forall t :: LevelWith(Prune(candidates, width), t, ByScoreDesc()) <= LevelWith(candidates, t, ByScoreDesc())
  {
    var sorted := SortBy(candidates, ByScoreDesc());
    ByScoreDescIsPreorder();
    SortByIsSorted(candidates, ByScoreDesc());
    SortByMembers(candidates, ByScoreDesc());
    SortByStable(candidates, ByScoreDesc());
    var kept := Prune(candidates, width);
    forall t ensures LevelWith(kept, t, ByScoreDesc()) <= LevelWith(candidates, t, ByScoreDesc()) {
      LevelWithPrefix(sorted, |kept|, t, ByScoreDesc());
    }
    forall t | t in kept ensures t in candidates {
      var i :| 0 <= i < |kept| && kept[i] == t;
      assert sorted[i] == t;
    }
    forall i, j | 0 <= i < j < |kept| ensures kept[i].score >= kept[j].score {
      assert kept[i] == sorted[i] && kept[j] == sorted[j];
      assert ByScoreDesc()(sorted[i], sorted[j]);
    }
    forall i, j | 0 <= i < |kept| <= j < |candidates| ensures sorted[j].score <= kept[i].score {
      assert kept[i] == sorted[i];
      assert ByScoreDesc()(sorted[i], sorted[j]);
    }
  }

  /** `[state.push_drop(note, ...) for state in beam]`. */
  function DropAll(beam: seq<BeamState>, note: SolverNote, penalty: real): (r: seq<BeamState>)
    ensures |r| == |beam|
    ensures forall i :: 0 <= i < |beam| ==> r[i] == PushDrop(beam[i], note, penalty)
  {
    seq(|beam|, i requires 0 <= i < |beam| => PushDrop(beam[i], note, penalty))
  }

  /** All states produced from `beam` for one note, state by state, in order. */
  function Candidates(beam: seq<BeamState>, note: SolverNote,
                      expand: (BeamState, SolverNote) -> seq<BeamState>): seq<BeamState>
  {
    if beam == [] then []
    else Candidates(beam[..|beam| - 1], note, expand) + expand(beam[|beam| - 1], note)
  }

  /** One round of the notes loop. */
  function Step(beam: seq<BeamState>, note: SolverNote,
                expand: (BeamState, SolverNote) -> seq<BeamState>,
                width: int, dropPenalty: real): seq<BeamState>
  {
    var candidates := Candidates(beam, note, expand);
    if candidates == [] then DropAll(beam, note, dropPenalty) else Prune(candidates, width)
  }

  /** The beam after processing `notes` in order, starting from `beam`. */
  function Run(beam: seq<BeamState>, notes: seq<SolverNote>,
               expand: (BeamState, SolverNote) -> seq<BeamState>,
               width: int, dropPenalty: real): seq<BeamState>
  {
    if notes == [] then beam
    else Step(Run(beam, notes[..|notes| - 1], expand, width, dropPenalty), notes[|notes| - 1], expand, width, dropPenalty)
  }

  /** The round the loop performs, given the candidates it collected. */
  lemma StepFromCandidates(beam: seq<BeamState>, note: SolverNote, candidates: seq<BeamState>, next: seq<BeamState>,
                           expand: (BeamState, SolverNote) -> seq<BeamState>, width: int, dropPenalty: real)
    requires candidates == Candidates(beam, note, expand)
    requires candidates == [] ==> next == DropAll(beam, note, dropPenalty)
    requires candidates != [] ==> next == Take(SortBy(candidates, ByScoreDesc()), width)
    ensures next == Step(beam, note, expand, width, dropPenalty)
  {
  }

  /** Processing one more note is one more round of the loop. */
  lemma RunExtend(beam: seq<BeamState>, notes: seq<SolverNote>, i: int,
                  expand: (BeamState, SolverNote) -> seq<BeamState>, width: int, dropPenalty: real)
    requires 0 <= i < |notes|
    ensures Run(beam, notes[..i + 1], expand, width, dropPenalty)
            == Step(Run(beam, notes[..i], expand, width, dropPenalty), notes[i], expand, width, dropPenalty)
  {
    assert notes[..i + 1][..i] == notes[..i];
  }

  /** Every state an expansion yields is well formed and has decided the note, once. */
  ghost predicate ExpandKeepsBounds(expand: (BeamState, SolverNote) -> seq<BeamState>, columns: int, columnHeight: real) {
    forall s, note, t :: WellFormed(s, columns, columnHeight) && t in expand(s, note) ==>
      WellFormed(t, columns, columnHeight) && Decided(t) == Decided(s) + multiset{note}
  }

  ghost predicate ExpandNeverEmpty(expand: (BeamState, SolverNote) -> seq<BeamState>) {
    forall s, note :: expand(s, note) != []
  }

  /** Every state of the beam is well formed and has decided exactly the notes `done`. */
  ghost predicate AllDecided(beam: seq<BeamState>, done: seq<SolverNote>, columns: int, columnHeight: real) {
    forall t :: t in beam ==> WellFormed(t, columns, columnHeight) && Decided(t) == multiset(done)
  }

  lemma {:induction false} CandidatesKeepBounds(beam: seq<BeamState>, note: SolverNote,
                                              expand: (BeamState, SolverNote) -> seq<BeamState>,
                                              done: seq<SolverNote>, columns: int, columnHeight: real)
    requires ExpandKeepsBounds(expand, columns, columnHeight)
    requires AllDecided(beam, done, columns, columnHeight)
    ensures AllDecided(Candidates(beam, note, expand), done + [note], columns, columnHeight)
    ensures beam != [] && ExpandNeverEmpty(expand) ==> Candidates(beam, note, expand) != []
  {
    if beam != [] {
      var init := beam[..|beam| - 1];
      var last := beam[|beam| - 1];
      assert AllDecided(init, done, columns, columnHeight) by {
        forall t | t in init ensures t in beam {
          var i :| 0 <= i < |init| && init[i] == t;
          assert beam[i] == t;
        }
      }
      CandidatesKeepBounds(init, note, expand, done, columns, columnHeight);
      assert last in beam;
      assert multiset(done + [note]) == multiset(done) + multiset{note};
    }
  }

  /** One round of the notes loop decides the note in every state it keeps. */
  lemma StepKeepsBounds(beam: seq<BeamState>, note: SolverNote,
                        expand: (BeamState, SolverNote) -> seq<BeamState>,
                        width: int, dropPenalty: real,
                        done: seq<SolverNote>, columns: int, columnHeight: real)
    requires ExpandKeepsBounds(expand, columns, columnHeight)
    requires AllDecided(beam, done, columns, columnHeight)
    ensures AllDecided(Step(beam, note, expand, width, dropPenalty), done + [note], columns, columnHeight)
  {
    var candidates := Candidates(beam, note, expand);
    CandidatesKeepBounds(beam, note, expand, done, columns, columnHeight);
    assert multiset(done + [note]) == multiset(done) + multiset{note};
    if candidates == [] {
      forall t | t in DropAll(beam, note, dropPenalty)
        ensures WellFormed(t, columns, columnHeight) && Decided(t) == multiset(done + [note])
      {
        var i :| 0 <= i < |beam| && DropAll(beam, note, dropPenalty)[i] == t;
        assert beam[i] in beam;
        PushDropKeepsBounds(beam[i], note, dropPenalty, columns, columnHeight);
      }
    } else {
      PruneKeepsBest(candidates, width);
    }
  }

  /**
   * After the notes loop, every state of the beam is well formed and has
   * decided exactly the notes processed, each placed or dropped once.
   */
  lemma {:induction false} RunKeepsBounds(beam: seq<BeamState>, notes: seq<SolverNote>,
                                        expand: (BeamState, SolverNote) -> seq<BeamState>,
                                        width: int, dropPenalty: real,
                                        done: seq<SolverNote>, columns: int, columnHeight: real)
    requires ExpandKeepsBounds(expand, columns, columnHeight)
    requires AllDecided(beam, done, columns, columnHeight)
    ensures AllDecided(Run(beam, notes, expand, width, dropPenalty), done + notes, columns, columnHeight)
  {
    if notes == [] {
      assert done + notes == done;
    } else {
      var init := notes[..|notes| - 1];
      RunKeepsBounds(beam, init, expand, width, dropPenalty, done, columns, columnHeight);
      StepKeepsBounds(Run(beam, init, expand, width, dropPenalty), notes[|notes| - 1], expand, width, dropPenalty,
                      done + init, columns, columnHeight);
      assert done + init + [notes[|notes| - 1]] == done + notes;
    }
  }

  /** Once a note has been processed the beam holds at most `beam_width` states. */
  lemma RunWithinWidth(beam: seq<BeamState>, notes: seq<SolverNote>,
                       expand: (BeamState, SolverNote) -> seq<BeamState>,
                       width: int, dropPenalty: real)
    requires notes != [] && width >= 0
    requires ExpandNeverEmpty(expand)
    ensures |Run(beam, notes, expand, width, dropPenalty)| <= width
  {
    var before := Run(beam, notes[..|notes| - 1], expand, width, dropPenalty);
    var candidates := Candidates(before, notes[|notes| - 1], expand);
    if before != [] {
      CandidatesNonEmpty(before, notes[|notes| - 1], expand);
    }
    PruneKeepsBest(candidates, width);
  }

  /** With room for one state and an expansion that always yields one, the beam never empties. */
  lemma {:induction false} RunNeverEmpty(beam: seq<BeamState>, notes: seq<SolverNote>,
                                       expand: (BeamState, SolverNote) -> seq<BeamState>,
                                       width: int, dropPenalty: real)
    requires beam != [] && width >= 1
    requires ExpandNeverEmpty(expand)
    ensures Run(beam, notes, expand, width, dropPenalty) != []
  {
    if notes != [] {
      var before := Run(beam, notes[..|notes| - 1], expand, width, dropPenalty);
      RunNeverEmpty(beam, notes[..|notes| - 1], expand, width, dropPenalty);
      CandidatesNonEmpty(before, notes[|notes| - 1], expand);
      PruneKeepsBest(Candidates(before, notes[|notes| - 1], expand), width);
    }
  }

  lemma {:induction false} CandidatesNonEmpty(beam: seq<BeamState>, note: SolverNote,
                                            expand: (BeamState, SolverNote) -> seq<BeamState>)
    requires beam != [] && ExpandNeverEmpty(expand)
    ensures Candidates(beam, note, expand) != []
  {
    assert expand(beam[|beam| - 1], note) != [];
  }

  /** `tuple(max(column_height - used, 0.0) for used in ...)`. */
  function Gaps(used: seq<real>, columnHeight: real): (g: seq<real>)
    ensures |g| == |used|
    ensures forall j :: 0 <= j < |used| ==> g[j] == Max(columnHeight - used[j], 0.0)
  {
    seq(|used|, j requires 0 <= j < |used| => Max(columnHeight - used[j], 0.0))
  }

  function SumReals(s: seq<real>): real {
    if s == [] then 0.0 else SumReals(s[..|s| - 1]) + s[|s| - 1]
  }

  /** A state's score once the final gap penalty is charged. */
  function FinalScore(s: BeamState, finalGapPenaltyPerMm: real, columnHeight: real): real {
    s.score - finalGapPenaltyPerMm * SumReals(Gaps(s.columnsUsed, columnHeight))
  }

  function FinalScores(beam: seq<BeamState>, finalGapPenaltyPerMm: real, columnHeight: real): (fs: seq<real>)
    ensures |fs| == |beam|
    ensures forall i :: 0 <= i < |beam| ==> fs[i] == FinalScore(beam[i], finalGapPenaltyPerMm, columnHeight)
  {
    seq(|beam|, i requires 0 <= i < |beam| => FinalScore(beam[i], finalGapPenaltyPerMm, columnHeight))
  }

  /**
   * The index the final loop keeps: a strictly better score replaces the
   * current best, so it is the first index of a maximal score.
   */
  function FirstArgMax(fs: seq<real>): (k: nat)
    requires fs != []
    ensures k < |fs|
    ensures forall j :: 0 <= j < |fs| ==> fs[j] <= fs[k]
    ensures forall j :: 0 <= j < k ==> fs[j] < fs[k]
  {
    if |fs| == 1 then 0
    else
      var k := FirstArgMax(fs[..|fs| - 1]);
      if fs[|fs| - 1] > fs[k] then |fs| - 1 else k
  }

  /**
   * The outcome built from the final beam: the state with the best final
   * score, or the initial state with its plain score when the beam is empty.
   */
  function Finish(beam: seq<BeamState>, initial: BeamState, finalGapPenaltyPerMm: real, columnHeight: real): SolverOutcome {
    var best := if beam == [] then initial else beam[FirstArgMax(FinalScores(beam, finalGapPenaltyPerMm, columnHeight))];
    var score := if beam == [] then initial.score else FinalScore(best, finalGapPenaltyPerMm, columnHeight);
    SolverOutcome(best.assignments, best.dropped, best.columnsUsed, Gaps(best.columnsUsed, columnHeight), score)
  }

  /** The outcome of a page with no usable columns: every note dropped, in order. */
  function Degenerate(notes: seq<SolverNote>, columns: int, columnHeight: real, dropPenalty: real): SolverOutcome {
    var n := if columns >= 0 then columns else 0;
    SolverOutcome([], notes, seq(n, _ => 0.0), seq(n, _ => columnHeight), -dropPenalty * |notes| as real)
  }

  /**
   * The final selection loop of `solve_page_layout`: keeps the first state
   * whose final score beats every earlier one.
   */
  method SelectFinal(beam: seq<BeamState>, initial: BeamState, finalGapPenaltyPerMm: real, columnHeight: real)
    returns (best: BeamState, bestScore: real)
    ensures beam == [] ==> best == initial && bestScore == initial.score
    ensures beam != [] ==> var fs := FinalScores(beam, finalGapPenaltyPerMm, columnHeight);
      best == beam[FirstArgMax(fs)] && bestScore == fs[FirstArgMax(fs)]
  {
    var fs := FinalScores(beam, finalGapPenaltyPerMm, columnHeight);
    var found := false;
    var k := 0;
    var i := 0;
    while i < |beam|
      invariant 0 <= i <= |beam|
      invariant found <==> i > 0
      invariant found ==> k < i && k == FirstArgMax(fs[..i])
    {
      var score := FinalScore(beam[i], finalGapPenaltyPerMm, columnHeight);
      assert fs[..i + 1][..i] == fs[..i];
      if !found || score > fs[k] {
        k := i;
        found := true;
      }
      i := i + 1;
    }
    if found {
      assert fs[..|beam|] == fs;
      best, bestScore := beam[k], fs[k];
    } else {
      best, bestScore := initial, initial.score;
    }
  }

  /**
   * What a finished search promises: every note is either placed or dropped,
   * exactly once; there is one usage and one gap per column; usage stays
   * within the column; the gap is what usage leaves; assignments name columns.
   */
  ghost predicate OutcomeSound(o: SolverOutcome, notes: seq<SolverNote>, columns: int, columnHeight: real) {
    && multiset(NotesOf(o.assignments)) + multiset(o.droppedNotes) == multiset(notes)
    && |o.columnUsageMm| == columns && |o.columnGapsMm| == columns
    && (forall j :: 0 <= j < columns ==>
          0.0 <= o.columnUsageMm[j] <= columnHeight && o.columnGapsMm[j] == columnHeight - o.columnUsageMm[j])
    && (forall i :: 0 <= i < |o.assignments| ==> 0 <= o.assignments[i].columnIndex < columns)
  }

  /**
   * Whatever the scoring, a search whose expansion keeps the bounds and never
   * comes back empty ends, with room for one state, in a sound outcome.
   */
  lemma RunOutcomeSound(notes: seq<SolverNote>, expand: (BeamState, SolverNote) -> seq<BeamState>,
                        columns: nat, columnHeight: real, width: int, dropPenalty: real, finalGapPenaltyPerMm: real)
    requires ExpandKeepsBounds(expand, columns, columnHeight) && ExpandNeverEmpty(expand)
    requires width >= 1 && columnHeight >= 0.0
    ensures OutcomeSound(Finish(Run([Initial(columns)], notes, expand, width, dropPenalty), Initial(columns),
                                finalGapPenaltyPerMm, columnHeight), notes, columns, columnHeight)
  {
    var init := Initial(columns);
    assert AllDecided([init], [], columns, columnHeight);
    var beam := Run([init], notes, expand, width, dropPenalty);
    RunKeepsBounds([init], notes, expand, width, dropPenalty, [], columns, columnHeight);
    RunNeverEmpty([init], notes, expand, width, dropPenalty);
    assert [] + notes == notes;
    var best := beam[FirstArgMax(FinalScores(beam, finalGapPenaltyPerMm, columnHeight))];
    assert best in beam;
  }

  /** The counts `summarize_outcome` reports (its text formatting is not modelled). */
  datatype OutcomeSummary = OutcomeSummary(placed: nat, pending: nat, gapsMm: seq<real>)

  function SummarizeOutcome(o: SolverOutcome): (r: OutcomeSummary)
    ensures r.placed == |o.assignments| && r.pending == |o.droppedNotes| && r.gapsMm == o.columnGapsMm
  {
    OutcomeSummary(|o.assignments|, |o.droppedNotes|, o.columnGapsMm)
  }

  /** On a sound outcome the summary accounts for every note, placed or pending. */
  lemma SummaryAccountsForAllNotes(o: SolverOutcome, notes: seq<SolverNote>, columns: int, columnHeight: real)
    requires OutcomeSound(o, notes, columns, columnHeight)
    ensures SummarizeOutcome(o).placed + SummarizeOutcome(o).pending == |notes|
    ensures |SummarizeOutcome(o).gapsMm| == columns
  {
    assert |multiset(NotesOf(o.assignments))| + |multiset(o.droppedNotes)| == |multiset(notes)|;
  }
}
