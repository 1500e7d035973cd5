/**
 * The beam-search solver of src/solver.py. Each state is expanded into one
 * branch per column that has room and accepts a placement of positive
 * height; a state with no such column drops the note instead.
 */
module GridSolver {
  import opened Wrappers
  import opened BeamCore
  import opened Sorting

  /** The default `PlanSettings` of this revision. */
  const DefaultSettings := PlanSettings(8, 8.0, 0.18, 0.12, 0.65, 10.0, 0.25, Some(1), None, 0.000001)

  /**
   * `_resolve_title_level`: the note's own level when it is a positive
   * integer, the configured default otherwise.
   */
  function ResolveTitleLevel(note: SolverNote, settings: PlanSettings): (level: Option<int>)
    ensures note.titleLevel.Some? && note.titleLevel.value > 0 ==> level == note.titleLevel
    ensures (note.titleLevel.None? || note.titleLevel.value <= 0) ==> level == settings.defaultTitleLevel
  {
    match note.titleLevel
    case None => settings.defaultTitleLevel
    case Some(l) => if l > 0 then Some(l) else settings.defaultTitleLevel
  }

  /**
   * `_resolve_image_mode`: no presets means no image; a note naming a preset
   * gets it; otherwise a note without images gets none and one with images
   * gets the fallback preset.
   */
  function ResolveImageMode(note: SolverNote, model: CapacityModel, settings: PlanSettings): (r: (string, real))
    ensures IsPresetOrNone(model.imagePresets, r)
    ensures model.imagePresets == [] ==> r == ("none", 0.0)
    ensures model.imagePresets != [] && note.imageMode.Some? && HasPreset(model.imagePresets, note.imageMode.value) ==>
              r == (PresetAt(model.imagePresets, note.imageMode.value).name,
                    PresetAt(model.imagePresets, note.imageMode.value).cost)
    ensures !(note.imageMode.Some? && HasPreset(model.imagePresets, note.imageMode.value)) && note.imageCount <= 0 ==>
              r == ("none", 0.0)
    ensures !(note.imageMode.Some? && HasPreset(model.imagePresets, note.imageMode.value)) && note.imageCount > 0 ==>
              r == FallbackPreset(model, settings)
  {
    if model.imagePresets == [] then ("none", 0.0)
    else if note.imageMode.Some? && HasPreset(model.imagePresets, note.imageMode.value) then
      var p := PresetAt(model.imagePresets, note.imageMode.value);
      (p.name, p.cost)
    else if note.imageCount <= 0 then ("none", 0.0)
    else FallbackPreset(model, settings)
  }

  /** The height the whole note would need: title, image and every body character. */
  function IdealHeight(note: SolverNote, model: CapacityModel, settings: PlanSettings): real {
    TitleHeight(ResolveTitleLevel(note, settings), model) + ResolveImageMode(note, model, settings).1
      + BodyHeightFromChars(note.charsBody, model)
  }

  datatype Evaluation = Evaluation(assignment: Assignment, scoreDelta: real)

  /**
   * `_evaluate_placement`: the note in `column` from `start`, with `available`
   * millimetres left. Title and image are reserved first, the body gets what
   * fits in the rest; the height used never exceeds what is available; a fit
   * earns the bonus and anything else pays for the characters and millimetres
   * that do not fit; every placement pays for the space it leaves.
   */
  function EvaluatePlacement(note: SolverNote, column: int, start: real, available: real,
                             model: CapacityModel, settings: PlanSettings): (e: Evaluation)
    ensures e.assignment.note == note && e.assignment.columnIndex == column && e.assignment.startMm == start
    ensures e.assignment.titleHeightMm == TitleHeight(ResolveTitleLevel(note, settings), model)
    ensures (e.assignment.imgMode, e.assignment.imageHeightMm) == ResolveImageMode(note, model, settings)
    ensures e.assignment.usedHeightMm <= available
    ensures e.assignment.remainingMm >= 0.0
    ensures available >= e.assignment.usedHeightMm ==> e.assignment.remainingMm == available - e.assignment.usedHeightMm
    ensures note.charsBody <= 0 ==>
              e.assignment.bodyCharsFit == 0 && e.assignment.bodyCharsOverflow == 0 && e.assignment.bodyHeightMm == 0.0
    ensures note.charsBody > 0 ==>
              && e.assignment.bodyCharsFit + e.assignment.bodyCharsOverflow == note.charsBody
              && e.assignment.bodyCharsFit <= model.capacityForHeight(
                   Max(available - e.assignment.titleHeightMm - e.assignment.imageHeightMm, 0.0))
              && (e.assignment.bodyCharsOverflow > 0 ==> e.assignment.bodyCharsFit == model.capacityForHeight(
                   Max(available - e.assignment.titleHeightMm - e.assignment.imageHeightMm, 0.0)))
    ensures e.assignment.bodyCharsOverflow >= 0
    ensures note.charsBody > 0 ==> e.assignment.bodyCharsFit <= note.charsBody
    ensures NonNegativeCapacities(model) ==> e.assignment.bodyCharsFit >= 0
    ensures e.assignment.fit == FitFlag(e.assignment.bodyCharsOverflow, IdealHeight(note, model, settings), available, settings)
    ensures e.scoreDelta == PlacementScore(e.assignment.fit, e.assignment.bodyCharsOverflow, IdealHeight(note, model, settings),
                                           available, e.assignment.remainingMm, settings)
  {
    var titleHeight := TitleHeight(ResolveTitleLevel(note, settings), model);
    var (imgMode, imageHeight) := ResolveImageMode(note, model, settings);
    var reserved := titleHeight + imageHeight;
    var usable := Max(available - reserved, 0.0);
    var total := note.charsBody;
    var fitChars := if total <= 0 then 0 else
      var cap := model.capacityForHeight(usable);
      if cap <= total then cap else total;
    var bodyHeight := if total <= 0 then 0.0 else BodyHeightFromChars(fitChars, model);
    var overflow := if total - fitChars >= 0 then total - fitChars else 0;
    var used := if reserved + bodyHeight > available then available else reserved + bodyHeight;
    var ideal := reserved + BodyHeightFromChars(total, model);
    var remaining := Max(available - used, 0.0);
    var fit := FitFlag(overflow, ideal, available, settings);
    var delta := PlacementScore(fit, overflow, ideal, available, remaining, settings);
    Evaluation(
      Assignment(note, column, start, used, titleHeight, bodyHeight, imageHeight, fitChars, overflow, imgMode, fit, remaining),
      delta)
  }

  /** Column `column` of `s` has room and takes the note with a positive height. */
  predicate Accepts(s: BeamState, note: SolverNote, column: int, columnHeight: real,
                    model: CapacityModel, settings: PlanSettings)
    requires 0 <= column < |s.columnsUsed|
  {
    var available := Max(columnHeight - s.columnsUsed[column], 0.0);
    available > 0.0
    && EvaluatePlacement(note, column, s.columnsUsed[column], available, model, settings).assignment.usedHeightMm > 0.0
  }

  /** The state after placing the note in `column`. */
  function Branch(s: BeamState, note: SolverNote, column: int, columnHeight: real,
                  model: CapacityModel, settings: PlanSettings): BeamState
    requires 0 <= column < |s.columnsUsed|
  {
    var available := Max(columnHeight - s.columnsUsed[column], 0.0);
    var e := EvaluatePlacement(note, column, s.columnsUsed[column], available, model, settings);
    PushAssignment(s, e.assignment, e.scoreDelta, columnHeight)
  }

  /** The branches for the columns from `column` on, in column order. */
  function ColumnBranches(s: BeamState, note: SolverNote, column: nat, columnHeight: real,
                          model: CapacityModel, settings: PlanSettings): seq<BeamState>
    decreases |s.columnsUsed| - column
  {
    if column >= |s.columnsUsed| then []
    else
      (if Accepts(s, note, column, columnHeight, model, settings)
       then [Branch(s, note, column, columnHeight, model, settings)] else [])
      + ColumnBranches(s, note, column + 1, columnHeight, model, settings)
  }

  /** One state expanded by one note: its branches, or the drop when there is none. */
  function Expand(s: BeamState, note: SolverNote, columnHeight: real,
                  model: CapacityModel, settings: PlanSettings): seq<BeamState>
  {
    var branches := ColumnBranches(s, note, 0, columnHeight, model, settings);
    if branches == [] then [PushDrop(s, note, settings.dropPenalty)] else branches
  }

  function ExpandFn(columnHeight: real, model: CapacityModel, settings: PlanSettings): (BeamState, SolverNote) -> seq<BeamState> {
    (s: BeamState, note: SolverNote) => Expand(s, note, columnHeight, model, settings)
  }

  /** The branches are exactly the placements in accepting columns. */
  lemma {:induction false} ColumnBranchesExactly(s: BeamState, note: SolverNote, column: nat, columnHeight: real,
                                               model: CapacityModel, settings: PlanSettings)
    ensures forall t :: t in ColumnBranches(s, note, column, columnHeight, model, settings) <==>
      exists c :: column <= c < |s.columnsUsed| && Accepts(s, note, c, columnHeight, model, settings)
                  && t == Branch(s, note, c, columnHeight, model, settings)
    decreases |s.columnsUsed| - column
  {
    if column < |s.columnsUsed| {
      ColumnBranchesExactly(s, note, column + 1, columnHeight, model, settings);
    }
  }

  /** A note is dropped from a state exactly when no column accepts it. */
  lemma DropIffNoColumnAccepts(s: BeamState, note: SolverNote, columnHeight: real,
                               model: CapacityModel, settings: PlanSettings)
    ensures Expand(s, note, columnHeight, model, settings) == [PushDrop(s, note, settings.dropPenalty)] <==>
      forall c :: 0 <= c < |s.columnsUsed| ==> !Accepts(s, note, c, columnHeight, model, settings)
  {
    ColumnBranchesExactly(s, note, 0, columnHeight, model, settings);
    var branches := ColumnBranches(s, note, 0, columnHeight, model, settings);
    var drop := PushDrop(s, note, settings.dropPenalty);
    if exists c :: 0 <= c < |s.columnsUsed| && Accepts(s, note, c, columnHeight, model, settings) {
      var c :| 0 <= c < |s.columnsUsed| && Accepts(s, note, c, columnHeight, model, settings);
      var b := Branch(s, note, c, columnHeight, model, settings);
      assert b in branches;
      assert |b.assignments| == |s.assignments| + 1;
    } else {
      NoAcceptNoBranches(s, note, 0, columnHeight, model, settings);
    }
  }

  lemma {:induction false} NoAcceptNoBranches(s: BeamState, note: SolverNote, column: nat, columnHeight: real,
                                            model: CapacityModel, settings: PlanSettings)
    requires forall c :: column <= c < |s.columnsUsed| ==> !Accepts(s, note, c, columnHeight, model, settings)
    ensures ColumnBranches(s, note, column, columnHeight, model, settings) == []
    decreases |s.columnsUsed| - column
  {
    if column < |s.columnsUsed| {
      NoAcceptNoBranches(s, note, column + 1, columnHeight, model, settings);
    }
  }

  /** Every expansion keeps the bounds, decides the note, and is never empty. */
  lemma ExpandSound(columns: int, columnHeight: real, model: CapacityModel, settings: PlanSettings)
    ensures ExpandKeepsBounds(ExpandFn(columnHeight, model, settings), columns, columnHeight)
    ensures ExpandNeverEmpty(ExpandFn(columnHeight, model, settings))
  {
    var expand := ExpandFn(columnHeight, model, settings);
    forall s, note, t | WellFormed(s, columns, columnHeight) && t in expand(s, note)
      ensures WellFormed(t, columns, columnHeight) && Decided(t) == Decided(s) + multiset{note}
    {
      ColumnBranchesExactly(s, note, 0, columnHeight, model, settings);
      if t in ColumnBranches(s, note, 0, columnHeight, model, settings) {
        var c :| 0 <= c < |s.columnsUsed| && Accepts(s, note, c, columnHeight, model, settings)
                 && t == Branch(s, note, c, columnHeight, model, settings);
        var available := Max(columnHeight - s.columnsUsed[c], 0.0);
        var e := EvaluatePlacement(note, c, s.columnsUsed[c], available, model, settings);
        PushAssignmentKeepsBounds(s, e.assignment, e.scoreDelta, columns, columnHeight);
      } else {
        PushDropKeepsBounds(s, note, settings.dropPenalty, columns, columnHeight);
      }
    }
  }

  /**
   * The body of the columns loop: a column without room and a placement of
   * no height are skipped; otherwise the state with the note in this column.
   */
  method TryColumn(state: BeamState, note: SolverNote, col: int, columnHeight: real,
                   model: CapacityModel, settings: PlanSettings)
    returns (branch: Option<BeamState>)
    requires 0 <= col < |state.columnsUsed|
    ensures branch.Some? <==> Accepts(state, note, col, columnHeight, model, settings)
    ensures branch.Some? ==> branch.value == Branch(state, note, col, columnHeight, model, settings)
  {
    var used := state.columnsUsed[col];
    var available := Max(columnHeight - used, 0.0);
    if available <= 0.0 {
      return None;
    }
    var evaluation := EvaluatePlacement(note, col, used, available, model, settings);
    if evaluation.assignment.usedHeightMm <= 0.0 {
      return None;
    }
    branch := Some(PushAssignment(state, evaluation.assignment, evaluation.scoreDelta, columnHeight));
  }

  /**
   * The body of the states loop of `solve_page_layout`: one branch per
   * accepting column, in column order, or the drop when no column accepts.
   */
  method ExpandState(state: BeamState, note: SolverNote, columns: int, columnHeight: real,
                     model: CapacityModel, settings: PlanSettings)
    returns (produced: seq<BeamState>)
    requires |state.columnsUsed| == columns
    ensures produced == Expand(state, note, columnHeight, model, settings)
    ensures produced != []
  {
    produced := [];
    var placed := false;
    var col := 0;
    while col < columns
      invariant 0 <= col <= columns
      invariant ColumnBranches(state, note, 0, columnHeight, model, settings)
                == produced + ColumnBranches(state, note, col, columnHeight, model, settings)
      invariant placed <==> produced != []
    {
      var branch := TryColumn(state, note, col, columnHeight, model, settings);
      if branch.Some? {
        produced := produced + [branch.value];
        placed := true;
      }
      col := col + 1;
    }
    if !placed {
      produced := produced + [PushDrop(state, note, settings.dropPenalty)];
    }
  }

  /** `solve_page_layout` as a function of its inputs. */
  function Solve(notes: seq<SolverNote>, columns: int, columnHeight: real,
                 model: CapacityModel, settings: PlanSettings): SolverOutcome
  {
    if columns <= 0 || columnHeight <= 0.0 then Degenerate(notes, columns, columnHeight, settings.dropPenalty)
    else
      var initial := Initial(columns);
      Finish(Run([initial], notes, ExpandFn(columnHeight, model, settings), settings.beamWidth, settings.dropPenalty),
             initial, settings.finalGapPenaltyPerMm, columnHeight)
  }

  /** The states loop of `solve_page_layout`: every state of the beam expanded, in beam order. */
  method ExpandBeam(beam: seq<BeamState>, note: SolverNote, columns: int, columnHeight: real,
                    model: CapacityModel, settings: PlanSettings)
    returns (newStates: seq<BeamState>)
    requires forall t :: t in beam ==> |t.columnsUsed| == columns
    ensures newStates == Candidates(beam, note, ExpandFn(columnHeight, model, settings))
  {
    newStates := [];
    var si := 0;
    while si < |beam|
      invariant 0 <= si <= |beam|
      invariant newStates == Candidates(beam[..si], note, ExpandFn(columnHeight, model, settings))
    {
      var state := beam[si];
      assert state in beam;
      var produced := ExpandState(state, note, columns, columnHeight, model, settings);
      newStates := newStates + produced;
      assert beam[..si + 1][..si] == beam[..si];
      si := si + 1;
    }
    assert beam[..|beam|] == beam;
  }

  /**
   * The body of the notes loop: every state expanded by the note; the
   * candidates sorted by descending score and cut to the beam width, or, when
   * there are none, every state dropping the note.
   */
  method NextBeam(beam: seq<BeamState>, note: SolverNote, columns: int, columnHeight: real,
                  model: CapacityModel, settings: PlanSettings)
    returns (next: seq<BeamState>)
    requires forall t :: t in beam ==> |t.columnsUsed| == columns
    ensures next == Step(beam, note, ExpandFn(columnHeight, model, settings), settings.beamWidth, settings.dropPenalty)
  {
    var newStates := ExpandBeam(beam, note, columns, columnHeight, model, settings);
    if newStates == [] {
      next := seq(|beam|, k requires 0 <= k < |beam| => PushDrop(beam[k], note, settings.dropPenalty));
      assert next == DropAll(beam, note, settings.dropPenalty);
    } else {
      next := Take(SortBy(newStates, ByScoreDesc()), settings.beamWidth);
    }
    StepFromCandidates(beam, note, newStates, next, ExpandFn(columnHeight, model, settings), settings.beamWidth, settings.dropPenalty);
  }

  /** The notes loop of `solve_page_layout`: the beam after every note has been processed. */
  method RunBeam(notes: seq<SolverNote>, columns: nat, columnHeight: real,
                 model: CapacityModel, settings: PlanSettings)
    returns (beam: seq<BeamState>)
    requires columnHeight >= 0.0
    ensures beam == Run([Initial(columns)], notes, ExpandFn(columnHeight, model, settings),
                        settings.beamWidth, settings.dropPenalty)
  {
    var initial := Initial(columns);
    ghost var expand := ExpandFn(columnHeight, model, settings);
    beam := [initial];
    var i := 0;
    while i < |notes|
      invariant 0 <= i <= |notes|
      invariant beam == Run([initial], notes[..i], expand, settings.beamWidth, settings.dropPenalty)
    {
      BeamShaped(notes[..i], columns, columnHeight, model, settings);
      beam := NextBeam(beam, notes[i], columns, columnHeight, model, settings);
      RunExtend([initial], notes, i, expand, settings.beamWidth, settings.dropPenalty);
      i := i + 1;
    }
    assert notes[..|notes|] == notes;
  }

  /**
   * `solve_page_layout`: the beam search over the page's columns. A page
   * without columns or height drops every note; otherwise, with room for one
   * state in the beam, every note is placed or dropped exactly once, usage
   * stays within each column and assignments name real columns.
   */
  method SolvePageLayout(notes: seq<SolverNote>, columns: int, columnHeight: real,
                         model: CapacityModel, settings: PlanSettings)
    returns (outcome: SolverOutcome)
    ensures outcome == Solve(notes, columns, columnHeight, model, settings)
    ensures columns <= 0 || columnHeight <= 0.0 ==>
              outcome.assignments == [] && outcome.droppedNotes == notes
              && outcome.score == -settings.dropPenalty * |notes| as real
    ensures columns > 0 && columnHeight > 0.0 && settings.beamWidth >= 1 ==>
              OutcomeSound(outcome, notes, columns, columnHeight)
  {
    if columns <= 0 || columnHeight <= 0.0 {
      var n := if columns >= 0 then columns else 0;
      outcome := SolverOutcome([], notes, seq(n, _ => 0.0), seq(n, _ => columnHeight), -settings.dropPenalty * |notes| as real);
      return;
    }
    var initial := Initial(columns);
    var beam := RunBeam(notes, columns, columnHeight, model, settings);
    var best, bestScore := SelectFinal(beam, initial, settings.finalGapPenaltyPerMm, columnHeight);
    outcome := SolverOutcome(best.assignments, best.dropped, best.columnsUsed, Gaps(best.columnsUsed, columnHeight), bestScore);
    if settings.beamWidth >= 1 {
      SolveSound(notes, columns, columnHeight, model, settings);
    }
  }

  /** Every state of the beam has one usage entry per column. */
  lemma BeamShaped(notes: seq<SolverNote>, columns: nat, columnHeight: real,
                   model: CapacityModel, settings: PlanSettings)
    requires columnHeight >= 0.0
    ensures var beam := Run([Initial(columns)], notes, ExpandFn(columnHeight, model, settings),
                            settings.beamWidth, settings.dropPenalty);
            forall t :: t in beam ==> |t.columnsUsed| == columns
  {
    ExpandSound(columns, columnHeight, model, settings);
    assert AllDecided([Initial(columns)], [], columns, columnHeight);
    RunKeepsBounds([Initial(columns)], notes, ExpandFn(columnHeight, model, settings), settings.beamWidth,
                   settings.dropPenalty, [], columns, columnHeight);
  }

  /** With room for one state in the beam, a page with columns and height ends in a sound outcome. */
  lemma SolveSound(notes: seq<SolverNote>, columns: int, columnHeight: real,
                   model: CapacityModel, settings: PlanSettings)
    requires columns > 0 && columnHeight > 0.0 && settings.beamWidth >= 1
    ensures OutcomeSound(Solve(notes, columns, columnHeight, model, settings), notes, columns, columnHeight)
  {
    ExpandSound(columns, columnHeight, model, settings);
    RunOutcomeSound(notes, ExpandFn(columnHeight, model, settings), columns, columnHeight, settings.beamWidth,
                    settings.dropPenalty, settings.finalGapPenaltyPerMm);
  }

  /** With at least one note processed, the beam never holds more than `beam_width` states. */
  lemma BeamWithinWidth(notes: seq<SolverNote>, columns: nat, columnHeight: real,
                        model: CapacityModel, settings: PlanSettings)
    requires notes != [] && settings.beamWidth >= 0
    ensures |Run([Initial(columns)], notes, ExpandFn(columnHeight, model, settings),
                 settings.beamWidth, settings.dropPenalty)| <= settings.beamWidth
  {
    ExpandSound(columns, columnHeight, model, settings);
    RunWithinWidth([Initial(columns)], notes, ExpandFn(columnHeight, model, settings),
                   settings.beamWidth, settings.dropPenalty);
  }

  /** Title, image and the whole body, when there is a body. */
  function WholeHeight(note: SolverNote, model: CapacityModel, settings: PlanSettings): real {
    TitleHeight(ResolveTitleLevel(note, settings), model) + ResolveImageMode(note, model, settings).1
    + (if note.charsBody <= 0 then 0.0 else BodyHeightFromChars(note.charsBody, model))
  }

  /** A fitting placement's score: the score so far with the bonus, less the gap penalty. */
  function FitScore(base: real, gap: real, roomLeft: real): real {
    base - gap * roomLeft
  }

  /** The room a placement wanting `want` millimetres leaves out of `available`. */
  function RoomLeft(want: real, available: real): real {
    if want > available then 0.0 else available - want
  }

  /** The room available in a column. */
  function Room(s: BeamState, column: int, columnHeight: real): real
    requires 0 <= column < |s.columnsUsed|
  {
    Max(columnHeight - s.columnsUsed[column], 0.0)
  }

  /** The note fits column `column` of `s`. */
  predicate FitsIn(s: BeamState, note: SolverNote, column: int, columnHeight: real,
                   model: CapacityModel, settings: PlanSettings)
    requires 0 <= column < |s.columnsUsed|
  {
    EvaluatePlacement(note, column, s.columnsUsed[column], Room(s, column, columnHeight), model, settings).assignment.fit
  }

  /**
   * A fitting placement earns the bonus and pays for the room it leaves once
   * the whole note is in.
   */
  lemma BranchScoreOfFit(s: BeamState, note: SolverNote, column: int, columnHeight: real,
                         model: CapacityModel, settings: PlanSettings)
    requires 0 <= column < |s.columnsUsed|
    requires FitsIn(s, note, column, columnHeight, model, settings)
    ensures Branch(s, note, column, columnHeight, model, settings).score
            == FitScore(s.score + settings.fitBonus, settings.gapPenaltyPerMm,
                        RoomLeft(WholeHeight(note, model, settings), Room(s, column, columnHeight)))
  {
  }

  /**
   * Among columns where a note fits, the fuller one scores at least as well:
   * the gap penalty is charged on the room the placement itself leaves. With
   * a positive gap penalty and the note fitting the fuller column outright,
   * the fuller column scores strictly higher, so equal short notes stack.
   */
  lemma FullerColumnScoresHigher(s: BeamState, note: SolverNote, fuller: int, emptier: int, columnHeight: real,
                                 model: CapacityModel, settings: PlanSettings)
    requires 0 <= fuller < |s.columnsUsed| && 0 <= emptier < |s.columnsUsed|
    requires s.columnsUsed[emptier] <= s.columnsUsed[fuller]
    requires settings.gapPenaltyPerMm >= 0.0
    requires FitsIn(s, note, fuller, columnHeight, model, settings)
    requires FitsIn(s, note, emptier, columnHeight, model, settings)
    ensures Branch(s, note, emptier, columnHeight, model, settings).score
            <= Branch(s, note, fuller, columnHeight, model, settings).score
    ensures settings.gapPenaltyPerMm > 0.0 && s.columnsUsed[emptier] < s.columnsUsed[fuller] < columnHeight
            && note.charsBody >= 0 && IdealHeight(note, model, settings) < columnHeight - s.columnsUsed[fuller] ==>
            Branch(s, note, emptier, columnHeight, model, settings).score
            < Branch(s, note, fuller, columnHeight, model, settings).score
  {
    BranchScoreOfFit(s, note, fuller, columnHeight, model, settings);
    BranchScoreOfFit(s, note, emptier, columnHeight, model, settings);
    if note.charsBody >= 0 {
      WholeIsIdeal(note, model, settings);
    }
    StackingOrder(Room(s, fuller, columnHeight), Room(s, emptier, columnHeight), WholeHeight(note, model, settings),
                  s.score + settings.fitBonus, settings.gapPenaltyPerMm);
  }

  /** The arithmetic of `FullerColumnScoresHigher`, over the room in the two columns alone. */
  lemma StackingOrder(roomF: real, roomE: real, want: real, base: real, gap: real)
    requires 0.0 <= roomF <= roomE && gap >= 0.0
    ensures FitScore(base, gap, RoomLeft(want, roomE)) <= FitScore(base, gap, RoomLeft(want, roomF))
    ensures gap > 0.0 && want < roomF < roomE ==>
            FitScore(base, gap, RoomLeft(want, roomE)) < FitScore(base, gap, RoomLeft(want, roomF))
  {
    var d := RoomLeft(want, roomE) - RoomLeft(want, roomF);
    assert FitScore(base, gap, RoomLeft(want, roomF)) - FitScore(base, gap, RoomLeft(want, roomE)) == gap * d;
    if gap > 0.0 && want < roomF < roomE {
      assert d > 0.0;
      assert gap * d > 0.0;
    }
  }

  lemma WholeIsIdeal(note: SolverNote, model: CapacityModel, settings: PlanSettings)
    requires note.charsBody >= 0
    ensures WholeHeight(note, model, settings) == IdealHeight(note, model, settings)
  {
    if note.charsBody == 0 {
      assert BodyHeightFromChars(0, model) == 0.0;
    }
  }

  /**
   * The capacity model of tests/test_solver_distribution.py: 20 characters
   * per line, half a line per millimetre, `int(...)` of the capacity, free
   * titles and no image presets.
   */
  function DistributionTestModel(): CapacityModel {
    CapacityModel(20.0, 0.5, (h: real) => if h >= 0.0 then (10.0 * h).Floor else -((-10.0 * h).Floor),
                  (_: int) => 0.0, (_: real, _: Option<int>, _: Option<string>) => 0, [])
  }

  /**
   * In the distribution test's configuration, once one 50-character note sits
   * in column 0 of two 120 mm columns, the next note scores higher in column 0
   * than in column 1: the default scoring prefers stacking to using both
   * columns.
   */
  lemma DistributionTestPrefersStacking()
    ensures var note := SolverNote("n2", 50, None, None, 0);
            var s := Branch(Initial(2), SolverNote("n1", 50, None, None, 0), 0, 120.0,
                            DistributionTestModel(), DefaultSettings);
            s.columnsUsed == [5.0, 0.0]
            && Branch(s, note, 1, 120.0, DistributionTestModel(), DefaultSettings).score
               < Branch(s, note, 0, 120.0, DistributionTestModel(), DefaultSettings).score
  {
    var model := DistributionTestModel();
    var note := SolverNote("n2", 50, None, None, 0);
    var s := Branch(Initial(2), SolverNote("n1", 50, None, None, 0), 0, 120.0, model, DefaultSettings);
    assert BodyHeightFromChars(50, model) == 5.0;
    assert model.capacityForHeight(120.0) == 1200;
    assert s.columnsUsed == [5.0, 0.0];
    assert model.capacityForHeight(115.0) == 1150;
    FullerColumnScoresHigher(s, note, 0, 1, 120.0, model, DefaultSettings);
  }
}
