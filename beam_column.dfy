/**
 * The beam-search solver of solver.py. Each state is expanded into one
 * branch per column with room left, and always also into the state that
 * drops the note; the title level is always the configured default.
 */
module ColumnSolver {
  import opened Wrappers
  import opened BeamCore
  import opened Sorting

  /** The default `PlanSettings` of this revision. */
  const DefaultSettings := PlanSettings(6, 6.0, 0.25, 0.08, 1.0, 12.0, 0.35, Some(1), None, 0.000001)

  /**
   * `_select_image_preset`: a note without images gets none; otherwise the
   * configured default preset when it exists, else the first preset, else none.
   */
  function SelectImagePreset(note: SolverNote, model: CapacityModel, settings: PlanSettings): (r: (string, real))
    ensures IsPresetOrNone(model.imagePresets, r)
    ensures note.imageCount <= 0 || model.imagePresets == [] ==> r == ("none", 0.0)
    ensures note.imageCount > 0 ==> r == FallbackPreset(model, settings)
  {
    if note.imageCount <= 0 then ("none", 0.0) else FallbackPreset(model, settings)
  }

  /** The title height of the configured level, nothing when that level is falsy. */
  function DefaultTitleHeight(model: CapacityModel, settings: PlanSettings): real {
    TitleHeight(settings.defaultTitleLevel, model)
  }

  /** The height the whole note would need: title, image and every body character. */
  function TargetTotal(note: SolverNote, model: CapacityModel, settings: PlanSettings): real {
    DefaultTitleHeight(model, settings) + SelectImagePreset(note, model, settings).1
      + BodyHeightFromChars(note.charsBody, model)
  }

  datatype Evaluation = Evaluation(assignment: Assignment, scoreDelta: real)

  /**
   * `_evaluate_placement`: the body gets as many characters as
   * `capacity_per_column` grants for the available height, its height is
   * capped by what title and image leave; the height used is never negative
   * and never more than what is available; fit test and score as in
   * `PlacementScore`.
   */
  function EvaluatePlacement(note: SolverNote, column: int, start: real, available: real,
                             model: CapacityModel, settings: PlanSettings): (e: Evaluation)
    ensures e.assignment.note == note && e.assignment.columnIndex == column && e.assignment.startMm == start
    ensures e.assignment.titleHeightMm == DefaultTitleHeight(model, settings)
    ensures (e.assignment.imgMode, e.assignment.imageHeightMm) == SelectImagePreset(note, model, settings)
    ensures available >= 0.0 ==> 0.0 <= e.assignment.usedHeightMm <= available
    ensures e.assignment.remainingMm >= 0.0
    ensures available >= e.assignment.usedHeightMm ==> e.assignment.remainingMm == available - e.assignment.usedHeightMm
    ensures e.assignment.bodyCharsFit + e.assignment.bodyCharsOverflow == note.charsBody
    ensures var cap := model.capacityPerColumn(available, settings.defaultTitleLevel,
                                               if e.assignment.imgMode == "none" then None else Some(e.assignment.imgMode));
            && e.assignment.bodyCharsFit <= cap
            && (e.assignment.bodyCharsOverflow > 0 ==> e.assignment.bodyCharsFit == cap)
            && e.assignment.bodyCharsFit <= note.charsBody
            && (e.assignment.bodyCharsFit == cap || e.assignment.bodyCharsFit == note.charsBody)
    ensures e.assignment.bodyCharsOverflow >= 0
    ensures NonNegativeCapacities(model) && note.charsBody >= 0 ==> e.assignment.bodyCharsFit >= 0
    ensures e.assignment.bodyHeightMm <= Max(available - e.assignment.titleHeightMm - e.assignment.imageHeightMm, 0.0)
    ensures e.assignment.fit == FitFlag(e.assignment.bodyCharsOverflow, TargetTotal(note, model, settings), available, settings)
    ensures e.scoreDelta == PlacementScore(e.assignment.fit, e.assignment.bodyCharsOverflow, TargetTotal(note, model, settings),
                                           available, e.assignment.remainingMm, settings)
  {
    var level := settings.defaultTitleLevel;
    var titleHeight := DefaultTitleHeight(model, settings);
    var (imgMode, imageHeight) := SelectImagePreset(note, model, settings);
    var availableForBody := Max(available - titleHeight - imageHeight, 0.0);
    var capacity := model.capacityPerColumn(available, level, if imgMode == "none" then None else Some(imgMode));
    var chars := note.charsBody;
    var fitChars := if capacity <= chars then capacity else chars;
    var overflow := if chars - fitChars >= 0 then chars - fitChars else 0;
    var bodyHeight := Min(BodyHeightFromChars(fitChars, model), availableForBody);
    var used0 := Max(titleHeight + imageHeight + bodyHeight, 0.0);
    var used := if used0 > available then available else used0;
    var target := titleHeight + imageHeight + BodyHeightFromChars(chars, model);
    var remaining := Max(available - used, 0.0);
    var fit := FitFlag(overflow, target, available, settings);
    var delta := PlacementScore(fit, overflow, target, available, remaining, settings);
    Evaluation(
      Assignment(note, column, start, used, titleHeight, bodyHeight, imageHeight, fitChars, overflow, imgMode, fit, remaining),
      delta)
  }

  /** Column `column` of `s` has room left. */
  predicate HasRoom(s: BeamState, column: int, columnHeight: real)
    requires 0 <= column < |s.columnsUsed|
  {
    Max(columnHeight - s.columnsUsed[column], 0.0) > 0.0
  }

  /** The state after placing the note in `column`. */
  function Branch(s: BeamState, note: SolverNote, column: int, columnHeight: real,
                  model: CapacityModel, settings: PlanSettings): BeamState
    requires 0 <= column < |s.columnsUsed|
  {
    var available := Max(columnHeight - s.columnsUsed[column], 0.0);
    var e := EvaluatePlacement(note, column, s.columnsUsed[column], available, model, settings);
    PushAssignment(s, e.assignment, e.scoreDelta, columnHeight)
  }

  /** The branches for the columns from `column` on, in column order. */
  function ColumnBranches(s: BeamState, note: SolverNote, column: nat, columnHeight: real,
                          model: CapacityModel, settings: PlanSettings): seq<BeamState>
    decreases |s.columnsUsed| - column
  {
    if column >= |s.columnsUsed| then []
    else
      (if HasRoom(s, column, columnHeight) then [Branch(s, note, column, columnHeight, model, settings)] else [])
      + ColumnBranches(s, note, column + 1, columnHeight, model, settings)
  }

  /** One state expanded by one note: every column with room, then the drop. */
  function Expand(s: BeamState, note: SolverNote, columnHeight: real,
                  model: CapacityModel, settings: PlanSettings): seq<BeamState>
  {
    ColumnBranches(s, note, 0, columnHeight, model, settings) + [PushDrop(s, note, settings.dropPenalty)]
  }

  function ExpandFn(columnHeight: real, model: CapacityModel, settings: PlanSettings): (BeamState, SolverNote) -> seq<BeamState> {
    (s: BeamState, note: SolverNote) => Expand(s, note, columnHeight, model, settings)
  }

  /** The branches are exactly the placements in columns with room. */
  lemma {:induction false} ColumnBranchesExactly(s: BeamState, note: SolverNote, column: nat, columnHeight: real,
                                               model: CapacityModel, settings: PlanSettings)
    ensures forall t :: t in ColumnBranches(s, note, column, columnHeight, model, settings) <==>
      exists c :: column <= c < |s.columnsUsed| && HasRoom(s, c, columnHeight)
                  && t == Branch(s, note, c, columnHeight, model, settings)
    decreases |s.columnsUsed| - column
  {
    if column < |s.columnsUsed| {
      ColumnBranchesExactly(s, note, column + 1, columnHeight, model, settings);
    }
  }

  /**
   * Dropping the note is always one of the candidates, the last one, and the
   * only candidate that does not place it.
   */
  lemma DropAlwaysOffered(s: BeamState, note: SolverNote, columnHeight: real,
                          model: CapacityModel, settings: PlanSettings)
    ensures var ex := Expand(s, note, columnHeight, model, settings);
      ex[|ex| - 1] == PushDrop(s, note, settings.dropPenalty)
      && forall i :: 0 <= i < |ex| - 1 ==> |ex[i].assignments| == |s.assignments| + 1 && ex[i].dropped == s.dropped
  {
    var ex := Expand(s, note, columnHeight, model, settings);
    var branches := ColumnBranches(s, note, 0, columnHeight, model, settings);
    ColumnBranchesExactly(s, note, 0, columnHeight, model, settings);
    forall i | 0 <= i < |ex| - 1
      ensures |ex[i].assignments| == |s.assignments| + 1 && ex[i].dropped == s.dropped
    {
      assert ex[i] == branches[i] && branches[i] in branches;
    }
  }

  /** Every expansion keeps the bounds, decides the note, and is never empty. */
  lemma ExpandSound(columns: int, columnHeight: real, model: CapacityModel, settings: PlanSettings)
    ensures ExpandKeepsBounds(ExpandFn(columnHeight, model, settings), columns, columnHeight)
    ensures ExpandNeverEmpty(ExpandFn(columnHeight, model, settings))
  {
    var expand := ExpandFn(columnHeight, model, settings);
    forall s, note, t | WellFormed(s, columns, columnHeight) && t in expand(s, note)
      ensures WellFormed(t, columns, columnHeight) && Decided(t) == Decided(s) + multiset{note}
    {
      ColumnBranchesExactly(s, note, 0, columnHeight, model, settings);
      if t in ColumnBranches(s, note, 0, columnHeight, model, settings) {
        var c :| 0 <= c < |s.columnsUsed| && HasRoom(s, c, columnHeight)
                 && t == Branch(s, note, c, columnHeight, model, settings);
        var available := Max(columnHeight - s.columnsUsed[c], 0.0);
        var e := EvaluatePlacement(note, c, s.columnsUsed[c], available, model, settings);
        PushAssignmentKeepsBounds(s, e.assignment, e.scoreDelta, columns, columnHeight);
      } else {
        PushDropKeepsBounds(s, note, settings.dropPenalty, columns, columnHeight);
      }
    }
  }

  /** `solve_page_layout` as a function of its inputs. */
  function Solve(notes: seq<SolverNote>, columns: int, columnHeight: real,
                 model: CapacityModel, settings: PlanSettings): SolverOutcome
  {
    if columns <= 0 || columnHeight <= 0.0 then Degenerate(notes, columns, columnHeight, settings.dropPenalty)
    else
      var initial := Initial(columns);
      Finish(Run([initial], notes, ExpandFn(columnHeight, model, settings), settings.beamWidth, settings.dropPenalty),
             initial, settings.finalGapPenaltyPerMm, columnHeight)
  }

  /**
   * The body of the states loop of `solve_page_layout`: one placement per
   * column with room, in column order, then the drop.
   */
  method ExpandState(state: BeamState, note: SolverNote, columns: int, columnHeight: real,
                     model: CapacityModel, settings: PlanSettings)
    returns (produced: seq<BeamState>)
    requires |state.columnsUsed| == columns
    ensures produced == Expand(state, note, columnHeight, model, settings)
    ensures produced != [] && produced[|produced| - 1] == PushDrop(state, note, settings.dropPenalty)
  {
    produced := [];
    var col := 0;
    while col < columns
      invariant 0 <= col <= columns
      invariant ColumnBranches(state, note, 0, columnHeight, model, settings)
                == produced + ColumnBranches(state, note, col, columnHeight, model, settings)
    {
      var usedMm := state.columnsUsed[col];
      var availableMm := Max(columnHeight - usedMm, 0.0);
      if availableMm > 0.0 {
        var evaluation := EvaluatePlacement(note, col, usedMm, availableMm, model, settings);
        produced := produced + [PushAssignment(state, evaluation.assignment, evaluation.scoreDelta, columnHeight)];
      }
      col := col + 1;
    }
    produced := produced + [PushDrop(state, note, settings.dropPenalty)];
  }

  /** The states loop of `solve_page_layout`: every state of the beam expanded, in beam order. */
  method ExpandBeam(beam: seq<BeamState>, note: SolverNote, columns: int, columnHeight: real,
                    model: CapacityModel, settings: PlanSettings)
    returns (nextStates: seq<BeamState>)
    requires forall t :: t in beam ==> |t.columnsUsed| == columns
    ensures nextStates == Candidates(beam, note, ExpandFn(columnHeight, model, settings))
  {
    nextStates := [];
    var si := 0;
    while si < |beam|
      invariant 0 <= si <= |beam|
      invariant nextStates == Candidates(beam[..si], note, ExpandFn(columnHeight, model, settings))
    {
      var state := beam[si];
      assert state in beam;
      var produced := ExpandState(state, note, columns, columnHeight, model, settings);
      nextStates := nextStates + produced;
      assert beam[..si + 1][..si] == beam[..si];
      si := si + 1;
    }
    assert beam[..|beam|] == beam;
  }

  /**
   * The body of the notes loop: every state expanded by the note; the
   * candidates sorted by descending score and cut to the beam width, or, when
   * there are none, every state dropping the note.
   */
  method NextBeam(beam: seq<BeamState>, note: SolverNote, columns: int, columnHeight: real,
                  model: CapacityModel, settings: PlanSettings)
    returns (next: seq<BeamState>)
    requires forall t :: t in beam ==> |t.columnsUsed| == columns
    ensures next == Step(beam, note, ExpandFn(columnHeight, model, settings), settings.beamWidth, settings.dropPenalty)
  {
    var nextStates := ExpandBeam(beam, note, columns, columnHeight, model, settings);
    if nextStates == [] {
      next := seq(|beam|, k requires 0 <= k < |beam| => PushDrop(beam[k], note, settings.dropPenalty));
      assert next == DropAll(beam, note, settings.dropPenalty);
    } else {
      next := Take(SortBy(nextStates, ByScoreDesc()), settings.beamWidth);
    }
    StepFromCandidates(beam, note, nextStates, next, ExpandFn(columnHeight, model, settings), settings.beamWidth, settings.dropPenalty);
  }

  /** The notes loop of `solve_page_layout`: the beam after every note has been processed. */
  method RunBeam(notes: seq<SolverNote>, columns: nat, columnHeight: real,
                 model: CapacityModel, settings: PlanSettings)
    returns (beam: seq<BeamState>)
    requires columnHeight >= 0.0
    ensures beam == Run([Initial(columns)], notes, ExpandFn(columnHeight, model, settings),
                        settings.beamWidth, settings.dropPenalty)
  {
    var initial := Initial(columns);
    ghost var expand := ExpandFn(columnHeight, model, settings);
    beam := [initial];
    var i := 0;
    while i < |notes|
      invariant 0 <= i <= |notes|
      invariant beam == Run([initial], notes[..i], expand, settings.beamWidth, settings.dropPenalty)
    {
      BeamShaped(notes[..i], columns, columnHeight, model, settings);
      beam := NextBeam(beam, notes[i], columns, columnHeight, model, settings);
      RunExtend([initial], notes, i, expand, settings.beamWidth, settings.dropPenalty);
      i := i + 1;
    }
    assert notes[..|notes|] == notes;
  }

  /**
   * `solve_page_layout`: the beam search over the page's columns. A page
   * without columns or height drops every note; otherwise, with room for one
   * state in the beam, every note is placed or dropped exactly once, usage
   * stays within each column and assignments name real columns.
   */
  method SolvePageLayout(notes: seq<SolverNote>, columns: int, columnHeight: real,
                         model: CapacityModel, settings: PlanSettings)
    returns (outcome: SolverOutcome)
    ensures outcome == Solve(notes, columns, columnHeight, model, settings)
    ensures columns <= 0 || columnHeight <= 0.0 ==>
              outcome.assignments == [] && outcome.droppedNotes == notes
              && outcome.score == -settings.dropPenalty * |notes| as real
    ensures columns > 0 && columnHeight > 0.0 && settings.beamWidth >= 1 ==>
              OutcomeSound(outcome, notes, columns, columnHeight)
  {
    if columns <= 0 || columnHeight <= 0.0 {
      var n := if columns >= 0 then columns else 0;
      outcome := SolverOutcome([], notes, seq(n, _ => 0.0), seq(n, _ => columnHeight), -settings.dropPenalty * |notes| as real);
      return;
    }
    var initial := Initial(columns);
    var beam := RunBeam(notes, columns, columnHeight, model, settings);
    var best, bestScore := SelectFinal(beam, initial, settings.finalGapPenaltyPerMm, columnHeight);
    outcome := SolverOutcome(best.assignments, best.dropped, best.columnsUsed, Gaps(best.columnsUsed, columnHeight), bestScore);
    if settings.beamWidth >= 1 {
      SolveSound(notes, columns, columnHeight, model, settings);
    }
  }

  /** Every state of the beam has one usage entry per column. */
  lemma BeamShaped(notes: seq<SolverNote>, columns: nat, columnHeight: real,
                   model: CapacityModel, settings: PlanSettings)
    requires columnHeight >= 0.0
    ensures var beam := Run([Initial(columns)], notes, ExpandFn(columnHeight, model, settings),
                            settings.beamWidth, settings.dropPenalty);
            forall t :: t in beam ==> |t.columnsUsed| == columns
  {
    ExpandSound(columns, columnHeight, model, settings);
    assert AllDecided([Initial(columns)], [], columns, columnHeight);
    RunKeepsBounds([Initial(columns)], notes, ExpandFn(columnHeight, model, settings), settings.beamWidth,
                   settings.dropPenalty, [], columns, columnHeight);
  }

  /** With room for one state in the beam, a page with columns and height ends in a sound outcome. */
  lemma SolveSound(notes: seq<SolverNote>, columns: int, columnHeight: real,
                   model: CapacityModel, settings: PlanSettings)
    requires columns > 0 && columnHeight > 0.0 && settings.beamWidth >= 1
    ensures OutcomeSound(Solve(notes, columns, columnHeight, model, settings), notes, columns, columnHeight)
  {
    ExpandSound(columns, columnHeight, model, settings);
    RunOutcomeSound(notes, ExpandFn(columnHeight, model, settings), columns, columnHeight, settings.beamWidth,
                    settings.dropPenalty, settings.finalGapPenaltyPerMm);
  }

  /** With at least one note processed, the beam never holds more than `beam_width` states. */
  lemma BeamWithinWidth(notes: seq<SolverNote>, columns: nat, columnHeight: real,
                        model: CapacityModel, settings: PlanSettings)
    requires notes != [] && settings.beamWidth >= 0
    ensures |Run([Initial(columns)], notes, ExpandFn(columnHeight, model, settings),
                 settings.beamWidth, settings.dropPenalty)| <= settings.beamWidth
  {
    ExpandSound(columns, columnHeight, model, settings);
    RunWithinWidth([Initial(columns)], notes, ExpandFn(columnHeight, model, settings),
                   settings.beamWidth, settings.dropPenalty);
  }
}
