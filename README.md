# Newspaper page layout planner: a Dafny model

This project models the planning core of a newspaper layout toolkit. Notes are
articles with a title, a body and images. The toolkit fits them into the slots
(frames) of an InDesign page. The model covers six parts of the repository:

- **`layout_planner.py`**, the greedy planner. It reads a nested configuration
  with defaults and merges the user's overrides. It groups slots by
  normalised page key, resolves each note's page hint (falling back to the
  first number in it), spreads the page's images over its notes and walks the
  page's slots in reading order. In each slot it tries every title and body
  size pair, largest first. The slot heights come from a column model of
  characters per line and line height. The result is the layout plan: a page
  per slot group, with its placements, remaining heights and unplaced notes,
  and pages for notes whose hint named no page. Two other parts of the same
  file are modelled too: bold-title detection and note extraction from a
  Word document's paragraphs, and detection of the dominant column width.
- **`src/solver.py`** and **`solver.py`**, two revisions of a beam search. It
  assigns a page's notes to columns, scores fits, gaps, overflow and drops,
  keeps the best `beam_width` partial states after every note, and picks the
  state with the best score after a final gap penalty. The revisions share
  their state transitions and the search loop (module `BeamCore`). They differ
  in how one state is expanded by one note:
  - in `src/solver.py` (module `GridSolver`), a note is dropped only when no
    column accepts it, and zero-height placements are skipped;
  - in `solver.py` (module `ColumnSolver`), a drop branch is always offered.
- **`generate_slot_report.py`**: the affine transforms of IDML spreads
  (parse, compose and invert), bounds parsing, the page-containment test, and
  the explicit-stack walk over the spread's XML tree that yields Rectangle,
  Polygon and TextFrame items with their accumulated transforms.
- **`summarize_slots.py`**: the slot heuristic (label and object style), bounds
  extraction, the area filter, and the per-page summary sorted by
  `page_index or 0` (numbers among numbers, strings among strings), each page
  with its slot count, total area and average area.
- **`app.py`**: the `/layout` endpoint's rules. It reads the style limits with
  their defaults, picks a body size and an action from the note's length and
  photo flag, and clamps every size into its limits. The limits are kept as
  the JSON values the request holds. A limit that Python cannot subtract from
  or compare fails only the notes whose arithmetic or comparison reaches it,
  and that failure fails the request.

The modules follow the program's structure:

- Shared helpers:
  - `Wrappers` (Option);
  - `Text`: Python's whitespace, `strip`, `split`, `lower` and `str(int)`;
  - `Sorting`: a stable sort proved sorted, a permutation and stable;
  - `JsonValue`: the dict/list/str/number values the scripts read, with Python's truthiness and its `<` on them.
- The planner:
  - `LayoutTypes`: Slot, Note, LayoutResult, ColumnModel;
  - `PlannerConfig`, `PageKeys`, `Images`, `ColumnWidth`, `Heights`, `SlotFit`, `PageGroups`, `PagePlacement` and `PlanLayout`;
  - `DocxNotes`: note extraction from a Word document.
- The solvers: `BeamCore`, `GridSolver` and `ColumnSolver`.
- The remaining scripts: `SlotReport`, `SlotSummary` and `StyleRules`.

Where the source loops, the model has a method with a `while` or `for` loop.
Each such method is proved equal to a specification function, and the
properties are proved about that function as lemmas. `assign_images`
mutates its notes in place and is modelled on an `array`.

The model follows the code where the two readings could differ:

- **`plan_layout`'s storage key.** Placements are stored under the slot's raw
  `page_name` but read back under the normalised page key (see Findings).
  `PlanLayout.PlanLayoutAsWritten` keeps the code's behaviour. The rest of the
  model uses the intended normalised key.
- **The size search.** The planner searches sizes largest first, and the
  first fit wins.
- **The column test of `src/solver.py`.** The test in
  `tests/test_solver_distribution.py` expects four short notes to use both
  of two columns. The scoring charges the gap penalty on the room each
  placement leaves in its own column, so among columns where a note fits the
  fuller one scores higher (`GridSolver.FullerColumnScoresHigher`). In the
  test's own configuration the second note scores higher stacked under the
  first (`GridSolver.DistributionTestPrefersStacking`). The model keeps the
  code's scoring; it does not derive the whole outcome of the test.
- **Which solvers are modelled.** The two beam solvers in the repository,
  `src/solver.py` and `solver.py`, are modelled as they are written.

## Model

| member | source | states |
|---|---|---|
| BeamCore.PresetAt | src/solver.py:148-149 | `presets[key]` is an entry actually stored under `key` |
| BeamCore.FallbackPreset | src/solver.py:146-155 | no presets gives ("none", 0.0); otherwise the result is some preset's name and cost, and it is the configured default preset whenever that is set and present |
| BeamCore.BodyHeightFromChars | src/solver.py:176-180 | zero height when the density is not positive; otherwise the height times the density gives back the characters; never negative for a non-negative count |
| BeamCore.PlacementScoreBounds | src/solver.py:223-231 | with non-negative weights a fit scores at most the fit bonus, a misfit at most zero, and leaving more space never raises the score |
| BeamCore.Initial | src/solver.py:280-286 | the initial state has decided no note and has one zero usage per column |
| BeamCore.PushAssignment | src/solver.py:79-103 | only the assignment's column changes, to min(column height, usage + used height); the assignment is appended, the dropped notes are untouched, the score moves by the delta |
| BeamCore.PushAssignmentKeepsBounds | src/solver.py:79-103 | a placement of non-negative height keeps every usage within [0, column height] and every assignment on a real column, and decides exactly its note |
| BeamCore.PushDropKeepsBounds | src/solver.py:105-117 | a drop keeps the state well formed and decides exactly its note |
| BeamCore.Take | src/solver.py:320 | Python's `s[:n]` is a prefix of `s`, of length min(n, len(s)) for non-negative `n` |
| BeamCore.PruneKeepsBest | src/solver.py:319-320 | pruning keeps only candidates, in descending score, as many as the width allows, and no discarded candidate scores above a kept one; of the candidates with any one score it keeps the earliest, in their input order |
| BeamCore.StepKeepsBounds | src/solver.py:290-320 | one round of the notes loop keeps every state well formed and adds the note to what each kept state has decided |
| BeamCore.RunKeepsBounds | src/solver.py:290-320 | after the notes loop every state has placed or dropped each processed note exactly once (multiset equality) and is well formed |
| BeamCore.RunWithinWidth | src/solver.py:319-320 | once a note has been processed the beam holds at most `beam_width` states |
| BeamCore.RunNeverEmpty | src/solver.py:288-320 | with room for one state and an expansion that always yields a state, the beam never empties |
| BeamCore.FirstArgMax | src/solver.py:324-330 | the index kept holds a maximal final score and every earlier index scores strictly less, so the first best state wins a tie |
| BeamCore.SelectFinal | src/solver.py:322-334 | the final loop picks the state at `FirstArgMax` with its final score, or the initial state with its plain score when the beam is empty |
| BeamCore.RunOutcomeSound | src/solver.py:255-351 | for any expansion that keeps the bounds and is never empty, the outcome places or drops every note exactly once, has one usage and one gap per column, usage within the column, gap equal to height minus usage, and assignments on real columns |
| BeamCore.SummaryAccountsForAllNotes | src/solver.py:354-360 | on a sound outcome the placed and pending counts of `summarize_outcome` add up to the number of notes and there is one gap per column |
| GridSolver.ResolveTitleLevel | src/solver.py:132-140 | a positive integer level of the note is used; a missing, non-integer or non-positive level gives the configured default |
| GridSolver.ResolveImageMode | src/solver.py:143-173 | no presets gives no image; a note naming a preset gets that preset; otherwise no images gives no image and some images give the fallback preset; the result is always a preset or none |
| GridSolver.EvaluatePlacement | src/solver.py:189-248 | the assignment records note, column and start; title and image heights are the resolved ones; used height never exceeds the available height; remaining is available minus used and non-negative; an empty body has no characters and no height, otherwise fitting and overflowing characters add up to the body, the fitting ones are at most the capacity and the whole capacity when some overflow; the overflow is never negative, and the fitting characters are not negative when the capacity never is; fit and score follow the fit test and the score formula |
| GridSolver.ColumnBranchesExactly | src/solver.py:294-312 | the branches of a state are exactly the placements in columns with room whose used height is positive |
| GridSolver.DropIffNoColumnAccepts | src/solver.py:293-315 | the expansion is the single drop exactly when no column accepts the note |
| GridSolver.ExpandSound | src/solver.py:292-315 | every expanded state is well formed and has decided the note once more; the expansion is never empty |
| GridSolver.TryColumn | src/solver.py:295-312 | a branch is produced exactly when the column accepts the note, and it is that column's placement |
| GridSolver.ExpandState | src/solver.py:292-315 | the states loop body returns the branches of every accepting column in column order, or the drop, and never nothing |
| GridSolver.ExpandBeam | src/solver.py:291-315 | the candidates are every state's expansion, in beam order |
| GridSolver.NextBeam | src/solver.py:290-320 | one turn of the notes loop is the sorted, width-cut candidates, or every state dropping the note when there are none |
| GridSolver.RunBeam | src/solver.py:288-320 | the notes loop computes the beam of the search specification |
| GridSolver.SolvePageLayout | src/solver.py:255-351 | the loops compute the search specification; a page without columns or height places nothing, drops every note and scores minus the penalty per note; otherwise, with room for one state, the outcome is sound |
| GridSolver.BeamShaped | src/solver.py:280-320 | every state of the beam has one usage entry per column |
| GridSolver.SolveSound | src/solver.py:255-351 | with columns, height and room for one state, every note is placed or dropped exactly once and usage and gaps are consistent |
| GridSolver.BeamWithinWidth | src/solver.py:319-320 | after at least one note the beam holds at most `beam_width` states |
| GridSolver.BranchScoreOfFit | src/solver.py:214-231 | a placement that fits scores the fit bonus less the gap penalty on the room left once the whole note is in the column |
| GridSolver.FullerColumnScoresHigher | src/solver.py:220-231 | of two columns where a note fits, the fuller one never scores lower; with a positive gap penalty and room to spare it scores strictly higher |
| GridSolver.DistributionTestPrefersStacking | tests/test_solver_distribution.py:11-53 | with the test's capacity model and the default settings, once the first 50-character note is in column 0 of two 120 mm columns, the second scores higher in column 0 than in column 1 |
| ColumnSolver.SelectImagePreset | solver.py:104-118 | a note without images, or a page model without presets, gets no image; otherwise the fallback preset; the result is always a preset or none |
| ColumnSolver.EvaluatePlacement | solver.py:121-174 | the assignment records note, column and start, the default title height and the selected image; fitting and overflowing characters add up to the body, the fitting ones are `min(capacity, chars)` (at most both, equal to one of them) and the overflow is never negative, and with a non-negative capacity and body they are not negative; the body height is capped by what title and image leave; for a non-negative height the used height is within it; remaining is non-negative; fit and score follow the fit test and the score formula |
| ColumnSolver.ColumnBranchesExactly | solver.py:215-228 | the placements offered are exactly one per column with room |
| ColumnSolver.DropAlwaysOffered | solver.py:230 | the drop is always the last candidate of a state, and the only one that does not place the note |
| ColumnSolver.ExpandSound | solver.py:214-230 | every expanded state is well formed and has decided the note once more; the expansion is never empty |
| ColumnSolver.ExpandState | solver.py:214-230 | the states loop body returns one placement per column with room, in column order, then the drop |
| ColumnSolver.ExpandBeam | solver.py:213-230 | the candidates are every state's expansion, in beam order |
| ColumnSolver.NextBeam | solver.py:212-236 | one turn of the notes loop is the sorted, width-cut candidates, or every state dropping the note when there are none |
| ColumnSolver.RunBeam | solver.py:210-236 | the notes loop computes the beam of the search specification |
| ColumnSolver.SolvePageLayout | solver.py:177-266 | the loops compute the search specification; a page without columns or height places nothing, drops every note and scores minus the penalty per note; otherwise, with room for one state, the outcome is sound |
| ColumnSolver.BeamShaped | solver.py:202-236 | every state of the beam has one usage entry per column |
| ColumnSolver.SolveSound | solver.py:177-266 | with columns, height and room for one state, every note is placed or dropped exactly once and usage and gaps are consistent |
| ColumnSolver.BeamWithinWidth | solver.py:235-236 | after at least one note the beam holds at most `beam_width` states |
| ColumnWidth.RoundHalfEven | layout_planner.py:566 | `round(x)` is within one half of `x`, and on an exact half it is even |
| ColumnWidth.Widths | layout_planner.py:566 | a width is listed exactly when some slot wider than 30 points rounds to it, and there are no more widths than slots |
| ColumnWidth.FirstIndex | layout_planner.py:569-570 | the first position of a width, with no earlier occurrence |
| ColumnWidth.MostCommonIn | layout_planner.py:569-570 | the result is among the first widths, no width among them is more common, and every width seen before it is strictly less common |
| ColumnWidth.DetectColumnWidth | layout_planner.py:565-571 | 124 points when no slot is wider than 30 points; otherwise one of the widths, and no width is more common |
| ColumnWidth.FirstSeenWinsTie | layout_planner.py:569-570 | of equally common widths, the one seen first is chosen |
| ColumnWidth.DetectedWidthIsASlotWidth | layout_planner.py:565-571 | the width is the default or the rounded width of a slot wider than 30 points |
| DocxNotes.BoldChars | layout_planner.py:420-426 | the bold characters never exceed the run characters |
| DocxNotes.ParagraphIsBoldMeaning | layout_planner.py:416-429 | a paragraph is bold exactly when its text is not blank, its runs have characters, and bold characters are at least 80% of them |
| DocxNotes.FourFifths | layout_planner.py:429 | `bold / total >= 0.8` is `5 * bold >= 4 * total` for a positive total |
| DocxNotes.IsParagraphBold | layout_planner.py:416-429 | the counting loop over the runs decides boldness as `ParagraphIsBold` |
| DocxNotes.Kind | layout_planner.py:437-450 | a paragraph is skipped exactly when its stripped text is empty, is a title exactly when it is bold and not blank, and carries its stripped text otherwise |
| DocxNotes.Classify | layout_planner.py:437-441 | the loop body's tests give the paragraph's `Kind` |
| DocxNotes.CloseNote | layout_planner.py:443 | a finished note is titled by the open title and its body is the lines joined by newlines, stripped |
| DocxNotes.Advance | layout_planner.py:439-450 | the scan state after one paragraph is the extraction specification's `Step`, and the finished notes are still the join of the raw notes |
| DocxNotes.ExtractNotesFromDocument | layout_planner.py:432-453 | the loop's notes equal the extraction specification over the paragraphs |
| DocxNotes.ExtractWith | layout_planner.py:432-453 | the loop with the open title and body computes the extraction for any classification of the paragraphs |
| DocxNotes.ExtractTitles | layout_planner.py:441-445 | there is one note per bold, non-blank paragraph, titled by its stripped text, in document order |
| DocxNotes.CollectTitles | layout_planner.py:441-452 | the notes the extraction loop collects carry the title paragraphs' texts, in order |
| DocxNotes.IgnoresTextBeforeFirstTitle | layout_planner.py:447-449 | plain paragraphs before the first title change nothing |
| DocxNotes.OneNote | layout_planner.py:441-452 | a title followed by plain paragraphs gives one note whose body is their stripped texts joined by newlines and stripped |
| Heights.CharsPerLine | layout_planner.py:176-178 | the characters per line are positive for a positive font and factor |
| Heights.CharsPerLineFills | layout_planner.py:176-178 | characters per line times font size times character factor is the line width, at least one point |
| Heights.LineHeight | layout_planner.py:180-181 | the line height is positive for a positive font and leading |
| Heights.Ceil | layout_planner.py:583 | `math.ceil`: the least integer not below `x` |
| Heights.LinesFor | layout_planner.py:582-583 | some characters need at least one line |
| Heights.LinesForBounds | layout_planner.py:582-583 | that many lines of `perLine` characters hold the characters, and one line fewer does not |
| Heights.LinesForMonotone | layout_planner.py:582-583 | fewer characters on lines no shorter never need more lines |
| Heights.LinesHeightMonotone | layout_planner.py:582-584 | fewer characters, longer lines or lower lines never take more height |
| Heights.TextHeight | layout_planner.py:574-584 | never negative, and zero for no characters |
| Heights.TextHeightMonotone | layout_planner.py:574-584 | more characters never take less height |
| Heights.CharsPerLineShrinks | layout_planner.py:176-178 | a larger font fits fewer characters on a line |
| Heights.LineHeightGrows | layout_planner.py:180-181 | a larger font has taller lines |
| Heights.TextHeightGrowsWithFont | layout_planner.py:574-584 | a larger font never makes text shorter |
| Heights.ImageHeight | layout_planner.py:587-597 | the minimum height when the slot is as wide as the image; otherwise height times max(image width, 1) is the minimum height times the slot width |
| Heights.ImageHeightBounded | layout_planner.py:593-597 | a scaled image is never taller than the unscaled one |
| Heights.NoteHeight | layout_planner.py:600-630 | the title and body parts are their text heights; a missing part gets no spacing; a note without an image gets no image height or spacing |
| Heights.NoteHeightGrowsWithFonts | layout_planner.py:600-630 | larger title and body sizes never make a note shorter, which is why trying sizes largest first finds the largest fit |
| Heights.FullLines | layout_planner.py:645 | `floor(height / line_height)` is non-negative |
| Heights.FullLinesBounds | layout_planner.py:645 | that many lines fit in the height, one more does not |
| Heights.LinesCapacityBounds | layout_planner.py:645-646 | the capacity is the whole number of characters of the full lines |
| Heights.LinesCapacityHolds | layout_planner.py:642-646 | at most that many characters, on lines no shorter, fit in the height |
| Heights.LinesWithin | layout_planner.py:583 | a text whose characters fit in `lines` lines of `perLine` characters needs at most `lines` lines |
| Heights.Capacity | layout_planner.py:633-646 | `compute_capacity` is non-negative |
| Heights.CapacityMonotone | layout_planner.py:633-646 | more room never holds fewer characters |
| Heights.CapacityHolds | layout_planner.py:633-646 | a body of at most the capacity needs no more height than the room after the body spacing |
| Images.AssignImages | layout_planner.py:396-413 | the in-place loops leave the array holding `Assigned` of the old notes |
| Images.AssignedOnlyAdds | layout_planner.py:404-411 | no note loses images and nothing but the image count changes |
| Images.OtherStrategiesChangeNothing | layout_planner.py:399-400 | "none" and any unknown strategy leave the notes unchanged |
| Images.FirstGivesOneEach | layout_planner.py:408-413 | under "first" each of the first `len(images)` notes has an image and the others are untouched |
| Images.SharesOfPrefix | layout_planner.py:402-405 | the shares of the first `k` notes sum to `k * per_note + min(k, remainder)` |
| Images.BalanceHandsOutAll | layout_planner.py:401-406 | the "balance" shares add up to exactly the available images and differ by at most one, earlier notes first |
| Images.BalanceGivesShare | layout_planner.py:401-406 | under "balance" each note ends with at least its share |
| PageGroups.Keys | layout_planner.py:829 | the keys of a table, in insertion order |
| PageGroups.IndexOf | layout_planner.py:772 | the position of a present key |
| PageGroups.Find | layout_planner.py:772 | `table.get(k)` is present exactly when `k` is a key |
| PageGroups.Add | layout_planner.py:743 | `table[k].extend(vs)` leaves the keys as they were, or adds `k` as the last key |
| PageGroups.IndexOfFirst | layout_planner.py:772 | the first entry with the key is the one found |
| PageGroups.AddFind | layout_planner.py:743 | adding under one key appends to that key's list and changes no other list |
| PageGroups.Image | layout_planner.py:743 | the values of a list, seen through a projection, counted with multiplicity: as many as the list has |
| PageGroups.ImageAppend | layout_planner.py:743 | the values of two lists joined are those of each |
| PageGroups.ImageAgree | layout_planner.py:743 | two lists that agree element by element through their projections have the same values |
| PageGroups.AddBag | layout_planner.py:743 | adding `vs` adds exactly the values of `vs` to the table |
| PageGroups.Filter | layout_planner.py:741-743 | the elements with key `k` number at most the input's |
| PageGroups.FilterMembers | layout_planner.py:741-743 | an element is kept exactly when it is in the input with key `k` |
| PageGroups.GroupByFind | layout_planner.py:740-743 | each key's list holds exactly the elements with that key, in input order, and absent keys have none |
| PageGroups.GroupByBag | layout_planner.py:760-763 | grouping neither loses nor duplicates an element: the table holds exactly the input's values |
| PageGroups.GroupByNonEmpty | layout_planner.py:740-743 | no list of a grouping is empty |
| PageGroups.GroupByKey | layout_planner.py:760-763 | the grouping loop computes `GroupBy` |
| PageGroups.MapValues | layout_planner.py:745-746 | the same keys in the same order, each list replaced by `f` of it |
| PageGroups.BagInInsert | layout_planner.py:829-831 | one more key brings in its own list and nothing else |
| PageGroups.BagInOut | layout_planner.py:829-861 | the values under keys in a set and those under keys outside it make up the whole table |
| PageGroups.BagInAll | layout_planner.py:829-831 | when every key lies in the set, the values under the set are the whole table |
| PageGroups.GetAllIsBagIn | layout_planner.py:829-831 | looking up distinct keys one by one gives exactly the values under those keys |
| PageKeys.NormalizeIsJoin | layout_planner.py:379-383 | `normalize_page_key` joins the whitespace-separated words of the key with single spaces |
| PageKeys.JoinStripped | layout_planner.py:379-383 | a normalised key neither starts nor ends with whitespace |
| PageKeys.NormalizeIdempotent | layout_planner.py:379-383 | normalising a normalised key changes nothing |
| PageKeys.DigitRun | layout_planner.py:387 | the longest run of decimal digits at the start of the string |
| PageKeys.FirstIntInString | layout_planner.py:386-393 | a number exactly when the string holds a digit; then the value of the first run of digits, at a position with no digit before it |
| PageKeys.FirstIntOfWrittenNumber | layout_planner.py:386-393 | a number printed after text without digits is read back as that number |
| PagePlacement.At | layout_planner.py:791-793 | the cursor sits at slot index `i` |
| PagePlacement.PlacePage | layout_planner.py:794-826 | one outcome per note of the page |
| PagePlacement.SeekFacts | layout_planner.py:798-805 | the slot search never goes back; a placement is a fitting trial in the slot at the index the search stopped at; an unplaced note means the search went past the last slot and carries the entry for that note; no slot left means nothing was tried and the search started past the last slot |
| PagePlacement.PlacePageFacts | layout_planner.py:794-826 | outcome `i` is for note `i` of the page; a placement fits and its slot is one of the page's slots |
| PagePlacement.PlacePageNotes | layout_planner.py:794-826 | the notes loop with its inner slot loop computes `PlacePage` |
| PlanLayout.SlotBeforeIsTotal | layout_planner.py:746 | the slot order by (y, x) is a total preorder, so sorting by it is well defined |
| PlanLayout.SlotsByPageFacts | layout_planner.py:740-746 | each page lists exactly the slots whose normalised page key is its own (as many of them), sorted by (y, x), and slots at the same (y, x) in their input order; no page is listed twice or without slots |
| PlanLayout.Resolve | layout_planner.py:771-786 | the hint's own page when it has slots; failing that, the page named by the hint's first number when it has slots; otherwise no page |
| PlanLayout.ResolvedPageExists | layout_planner.py:772-781 | a resolved group uses the slots of a page that exists |
| PlanLayout.NumberedHintFindsPage | layout_planner.py:775-781 | a hint without its own slots whose first number names a page with slots reaches that page |
| PlanLayout.AvailableImages | layout_planner.py:788 | the images listed under the hint when there are some, else those under the resolved page |
| PlanLayout.InitialHeightsFacts | layout_planner.py:832 | every slot id of the page maps to the height of the last slot listed with that id |
| PlanLayout.RemainingHeightsFacts | layout_planner.py:832-836 | remaining heights cover the page's slots and the placed slots; no remaining height goes below zero; a slot nothing was placed in keeps its full height |
| PlanLayout.SlotPages | layout_planner.py:829-846 | one page per slot group |
| PlanLayout.ColumnModelOf | layout_planner.py:748-758 | the column model has the detected width and is valid under usable settings |
| PlanLayout.TrialReports | layout_planner.py:799 | a trial reports the note and the slot it was made for |
| PlanLayout.RecordOneNotes | layout_planner.py:807-826 | recording one outcome adds its note to the two tables and keeps them tidy, with the page aliases unchanged |
| PlanLayout.RecordNotes | layout_planner.py:807-826 | recording a page's outcomes adds exactly the note of each outcome to the two tables and keeps them tidy, with the page aliases unchanged |
| PlanLayout.ProcessGroupNotes | layout_planner.py:770-826 | each note group adds exactly its notes, placed or unplaced, apart from the image counts `assign_images` raises |
| PlanLayout.ProcessGroupsNotes | layout_planner.py:770-826 | all note groups together put exactly the grouped notes into the tables |
| PlanLayout.SlotPagesNotes | layout_planner.py:829-846 | the slot pages list exactly what the tables hold under the slot pages' keys |
| PlanLayout.OrphanPagesNotes | layout_planner.py:849-861 | the pages without slots list the unplaced notes under every other key |
| PlanLayout.PagesHoldTables | layout_planner.py:828-861 | the slot pages and orphan pages together list every entry of the corrected tables |
| PlanLayout.PlanLayoutKeepsEveryNote | layout_planner.py:733-875 | with usable settings, the notes listed in the plan, placed or unplaced, are exactly the notes given, each as often as given, apart from the image counts `assign_images` raises; so they are as many as the notes given |
| PlanLayout.PlacedOnPage | layout_planner.py:795-808 | every placement of a page fits and is in one of the page's slots |
| PlanLayout.PageBelongs | layout_planner.py:829-846 | a page built from tables whose placements belong lists only placements in its own slots |
| PlanLayout.PlanLayoutPlacementsBelong | layout_planner.py:733-875 | in the corrected plan every listed placement fits, in a slot of its own page that the input holds, and the page is named by that slot's page key |
| PlanLayout.LostNoteFits | layout_planner.py:680-694 | under valid settings the empty note fits a lost slot that has 500 points of room |
| PlanLayout.LostTablesAsWritten | layout_planner.py:808 | as written, the placement is stored under the slot's empty page name and nothing is unplaced |
| PlanLayout.LostPages | layout_planner.py:829-831 | read back under "3", the tables give one page that lists no note |
| PlanLayout.AsWrittenLosesPlacement | layout_planner.py:808-831 | as written, the plan for one slot named only by page number 3 and one empty note with hint "3" lists no note; the corrected plan lists it |
| PlanLayout.SortEachPage | layout_planner.py:745-746 | sorting every page's slots in place gives the sorted groups of the specification |
| PlanLayout.ComputeRemaining | layout_planner.py:832-836 | the remaining-height loop computes `RemainingHeights` |
| PlanLayout.NoSlotEntries | layout_planner.py:783-785 | one "no_slot_for_page" entry per note, in order |
| PlanLayout.RecordOutcomes | layout_planner.py:807-826 | appending each outcome as it comes gives the recorded tables of the specification |
| PlanLayout.PlaceGroup | layout_planner.py:788-826 | a page's notes, images assigned in place and then placed and recorded, give the group's state of the specification |
| PlanLayout.HandleGroup | layout_planner.py:770-826 | one note group's handling computes `ProcessGroup` |
| PlanLayout.HandleGroups | layout_planner.py:770-826 | the groups loop computes `ProcessGroups` |
| PlanLayout.BuildSlotPages | layout_planner.py:829-846 | the pages loop computes `SlotPages` |
| PlanLayout.BuildOrphanPages | layout_planner.py:849-861 | the orphan loop computes `OrphanPages` |
| PlanLayout.RunPlanLayout | layout_planner.py:733-875 | `plan_layout`, loop by loop, computes `PlanWith` |
| PlannerConfig.DeepMerge | layout_planner.py:250-256 | the keys of the merge are exactly the keys of either dict; a non-dict value from the source wins |
| PlannerConfig.DeepMergeInto | layout_planner.py:250-256 | the loop over the source's entries computes `DeepMerge` |
| PlannerConfig.UserSettingWins | layout_planner.py:250-256 | every non-dict setting the user gives, at any depth, is the one in effect after the merge |
| PlannerConfig.DefaultKept | layout_planner.py:250-258 | a section the user does not mention keeps its defaults |
| PlannerConfig.DeepMergeIdempotent | layout_planner.py:250-256 | merging the same overrides a second time changes nothing |
| PlannerConfig.MergeIntoItself | layout_planner.py:250-256 | merging a dict into itself gives it back |
| PlannerConfig.Section | layout_planner.py:608-610 | a missing section reads as empty; a present one reads exactly when it is a dict |
| PlannerConfig.Setting | layout_planner.py:612 | a missing key gives the default; a present one gives its parsed number, None when it does not convert |
| PlannerConfig.ReadTextStyle | layout_planner.py:659-664 | a style exactly when each setting present converts to a number; an empty section gives the defaults |
| PlannerConfig.ReadImageStyle | layout_planner.py:589-590 | a style exactly when each setting present converts to a number; an empty section gives the defaults |
| PlannerConfig.ReadColumnFactors | layout_planner.py:751-757 | the gutter is 12.0 when "column" is missing or not a dict; the character width is 0.42 when the body section is empty |
| PlannerConfig.ReadSettings | layout_planner.py:608-646 | settings only when the title, body and image sections are dicts or missing; missing sections give the default styles, and the gutter is 12.0 without a column dict |
| PlannerConfig.DefaultSettings | layout_planner.py:212-238 | the built-in configuration gives sizes 25/24/26 and 9.5/9/10 pt, spacings 8 and 6 pt, image 10.145 by 5.35 cm with 6 pt spacing, note spacing 10, gutter 12, factors 0.42 and 1.2 |
| PlannerConfig.LoadConfig | layout_planner.py:211-258 | no file gives the defaults; a file gives a result exactly when its top level is an object; every default key survives |
| SlotFit.InsertDescending | layout_planner.py:659-664 | inserting into a strictly decreasing list keeps it strictly decreasing, with exactly the old elements and `x` |
| SlotFit.Sizes | layout_planner.py:659-664 | `sorted({base, min, max}, reverse=True)`: exactly the style's distinct sizes, strictly decreasing |
| SlotFit.PairsMembers | layout_planner.py:670-671 | every title and body size pair is tried and nothing else |
| SlotFit.PairsOrdered | layout_planner.py:670-671 | pairs are tried largest body first, then largest title |
| SlotFit.PairsPrefix | layout_planner.py:670-672 | what has been tried before row `i` is finished is a prefix of all trials |
| SlotFit.RunNoFitSearching | layout_planner.py:696-715 | failed trials keep the search going and leave a best trial once one was made |
| SlotFit.RunStaysFound | layout_planner.py:681-694 | once a fit is found nothing later changes the result |
| SlotFit.RunFirstFit | layout_planner.py:681-694 | the first fitting trial is the result |
| SlotFit.RunNoFitMinimal | layout_planner.py:699-715 | without a fit the best trial is the first one of minimal overflow |
| SlotFit.SearchFitsIff | layout_planner.py:670-716 | the search fits exactly when some size pair fits |
| SlotFit.SearchIsATrial | layout_planner.py:670-716 | with a trial made, the result is one of them, at the sizes it records |
| SlotFit.SearchLargestFit | layout_planner.py:670-694 | a fitting result is at the largest fitting sizes: every pair tried before it did not fit |
| SlotFit.SearchMinimalOverflow | layout_planner.py:696-715 | without a fit the result has the fewest leftover characters, strictly fewer than any pair tried before it |
| SlotFit.SearchSizes | layout_planner.py:670-716 | the nested size loops compute the search specification |
| SlotFit.Attempt | layout_planner.py:672-715 | a trial records note, slot and sizes; it fits exactly when its height leaves non-negative room, with no overflow then; otherwise the overflow is the body characters beyond capacity |
| SlotFit.Fallback | layout_planner.py:717-729 | with no trial the result does not fit, overflows the whole body, leaves the room unchanged and uses no height |
| SlotFit.AttemptRecords | layout_planner.py:682-710 | every trial is recorded at the sizes it was made at |
| SlotFit.TryFitsIff | layout_planner.py:649-730 | the note fits exactly when some pair of configured sizes fits; a fit leaves non-negative room and drops no character |
| SlotFit.TryIsATrial | layout_planner.py:717-730 | the result is always one of the trials, so the fallback is never used with a style's sizes |
| SlotFit.TryLargestFit | layout_planner.py:670-694 | a fit uses the largest fitting sizes: larger bodies, and larger titles at the same body, did not fit |
| SlotFit.TryMinimalOverflow | layout_planner.py:699-715 | without a fit the result leaves the fewest body characters over, the earliest such pair on a tie |
| SlotFit.TryNoteInSlot | layout_planner.py:649-730 | `try_note_in_slot` over the sizes of the settings computes the specification |
| SlotReport.RowCompose | generate_slot_report.py:53-62 | one coordinate of `combine` is composing the two rows |
| SlotReport.CombineApply | generate_slot_report.py:53-62 | `s.combine(o)` maps every point as `o` first, then `s` |
| SlotReport.IdentityNeutral | generate_slot_report.py:24-29 | the default transform moves no point and is neutral on both sides of `combine` |
| SlotReport.Inverse | generate_slot_report.py:64-74 | None exactly when the determinant is below 1e-9 in absolute value |
| SlotReport.MatrixInverse | generate_slot_report.py:65-71 | the inverse's linear entries undo the matrix on both sides |
| SlotReport.AffineUndo | generate_slot_report.py:72-73 | the inverse's translation undoes the map's translation |
| SlotReport.InverseUndoes | generate_slot_report.py:64-74 | mapping a point with `t` and then with `t.inverse()` gives it back |
| SlotReport.InverseRedoes | generate_slot_report.py:64-74 | mapping a point with `t.inverse()` and then with `t` gives it back |
| SlotReport.ParseAll | generate_slot_report.py:36-42 | no more numbers than chunks |
| SlotReport.ParseAllSound | generate_slot_report.py:36-42 | every number kept is the value of one of the chunks |
| SlotReport.ParseAllComplete | generate_slot_report.py:36-42 | when every chunk parses nothing is skipped |
| SlotReport.ParseChunks | generate_slot_report.py:36-42 | the chunk loop computes `ParseAll` |
| SlotReport.ParseNumbers | generate_slot_report.py:36 | the numbers `ParseAll` gets from the chunks of the value |
| SlotReport.FormattedNumbersParse | generate_slot_report.py:36-42 | numbers printed without whitespace or commas and joined by spaces parse back to the same numbers |
| SlotReport.Padded | generate_slot_report.py:43-45 | at least six entries, entry `k` being the `k`-th parsed number or zero |
| SlotReport.TransformOfCoefficients | generate_slot_report.py:32-45 | a missing or empty attribute is the identity; otherwise the coefficients are the first six parsed numbers padded with zeros |
| SlotReport.TransformFormatRoundTrip | generate_slot_report.py:32-45 | six printed coefficients joined by spaces read back as the same transform |
| SlotReport.TransformFromString | generate_slot_report.py:32-45 | the parsing loop and padding loop compute `TransformOf` |
| SlotReport.BoundsFromString | generate_slot_report.py:88-101 | exactly four parsed numbers make top, left, bottom, right in that order; anything else, and a missing or empty value, is None |
| SlotReport.MinOf | generate_slot_report.py:272 | `min(xs)` is in `xs` and below every element |
| SlotReport.MaxOf | generate_slot_report.py:272 | `max(xs)` is in `xs` and above every element |
| SlotReport.MakeBoundsFromPoints | generate_slot_report.py:267-272 | None for no points, else the smallest box holding them all, each side touching a point, so width and height are non-negative |
| SlotReport.ContainsSpreadPoint | generate_slot_report.py:126-133 | false when the page transform has no inverse |
| SlotReport.ContainsSpreadPointMeaning | generate_slot_report.py:123-133 | for an invertible page transform a spread point is on the page exactly when it is the image of a page point within the widened bounds |
| SlotReport.IndexOf | generate_slot_report.py:224-225 | the index of the first `}` |
| SlotReport.StripNamespaceSpec | generate_slot_report.py:223-226 | a tag without `}` is unchanged; otherwise what follows the first `}` |
| SlotReport.PushedFrames | generate_slot_report.py:282-296 | each pushed frame is the frame of a followed child at a lower index, and its path extends the parent's by one step |
| SlotReport.PopPushShrinks | generate_slot_report.py:277-296 | popping a frame and pushing its children makes the stack smaller, so the walk ends |
| SlotReport.FollowShrinks | generate_slot_report.py:282-296 | an element reached by a non-empty path is smaller than the start, so never the root |
| SlotReport.FollowFollowsEveryStep | generate_slot_report.py:282-296 | every prefix of a followed path is followed, and each step goes to a child the rules follow |
| SlotReport.WalkSound | generate_slot_report.py:275-296 | every item yielded is a Rectangle, Polygon or TextFrame reached from the root by a non-empty path of followed children, with the transform accumulated along it |
| SlotReport.WalkUnfold | generate_slot_report.py:277-296 | popping the last frame yields it when it is a target other than the root, and pushes its followed children |
| SlotReport.WalkStep | generate_slot_report.py:277-296 | one turn of the outer loop keeps `Walk(start) == yielded + Walk(stack)` |
| SlotReport.ChildEntry | generate_slot_report.py:283-296 | a frame for a child exactly when the walk follows it: not Properties, and a container, a target or a child with a transform |
| SlotReport.PushChildren | generate_slot_report.py:282-296 | the inner loop pushes the frames of the followed children, in document order |
| SlotReport.PushedStep | generate_slot_report.py:282-296 | one more child is pushed exactly when it is followed |
| SlotReport.IterItemsWithTransforms | generate_slot_report.py:275-296 | the explicit-stack walk yields the projection of the walk specification; every item has a target tag and is smaller than the root |
| SlotReport.WalkSkipsProperties | generate_slot_report.py:284-285 | no element on the path to a yielded item, the item included, is a Properties element |
| SlotSummary.Or | summarize_slots.py:65 | `a or b` is `a` when truthy, else `b` |
| SlotSummary.NormalizeIdempotent | summarize_slots.py:65 | stripping and lower-casing twice is doing it once |
| SlotSummary.AfterLast | summarize_slots.py:73 | `s.split(sep)[-1]` is a suffix of `s` without `sep`, the whole of `s` when `sep` is absent |
| SlotSummary.FieldOfString | summarize_slots.py:65 | a string field reads back stripped and lower-cased |
| SlotSummary.FieldIgnoresCase | summarize_slots.py:65-71 | case and surrounding whitespace of a label or style do not change the slot test |
| SlotSummary.SlotWordMarksSlot | summarize_slots.py:68-69 | a label holding the word "slot" marks a slot, whatever the style |
| SlotSummary.StyleRule | summarize_slots.py:71-75 | an empty style marks nothing; otherwise only the last `/` segment counts: it starts with "slot" or is "root" |
| SlotSummary.StyleLastSegment | summarize_slots.py:71-76 | a label that is no slot label makes the item a slot exactly when the last style segment does |
| SlotSummary.BoundsFromItem | summarize_slots.py:79-95 | bounds exactly when the chosen bounds are a dict and all four sizes convert |
| SlotSummary.BoundsFromItemSources | summarize_slots.py:80-95 | the page bounds win when present and non-empty, else the spread bounds; missing sizes read as 0.0 and numbers as themselves |
| SlotSummary.AreaCm2 | summarize_slots.py:98-99 | square millimetres over 100, non-negative for non-negative sides |
| SlotSummary.PagesItems | summarize_slots.py:52-61 | the (page, item) pairs exactly when every page is a dict, since `page.get` raises otherwise |
| SlotSummary.PagesItemsVisitsAll | summarize_slots.py:52-61 | every item of every page with an item list is among the pairs, with its own page |
| SlotSummary.SetDefault | summarize_slots.py:106-114 | an existing entry is kept; a new key gets the entry |
| SlotSummary.Judge | summarize_slots.py:116-124 | a non-dict item makes the walk fail, and only such an item does; a kept row has bounds, reaches the minimum area and passes the slot test when only slots are asked for |
| SlotSummary.Collect | summarize_slots.py:103-135 | the dict after the loop is well shaped: distinct keys and one entry per key |
| SlotSummary.CollectInvariant | summarize_slots.py:103-135 | every kept row passed the area filter, and every page that had an item has an entry even when all its items were filtered out |
| SlotSummary.CollectFailsOnNonObject | summarize_slots.py:116-119 | an item that is not a dict makes `summarize` fail |
| SlotSummary.Values | summarize_slots.py:137 | `summary.values()` in insertion order, one per key |
| SlotSummary.SortableIffComparable | summarize_slots.py:137 | sorting succeeds exactly when Python can compare the keys `page_index or 0` of every two entries: a single entry never fails, numbers and booleans sort among themselves, strings among themselves |
| SlotSummary.OrderOfOnePage | summarize_slots.py:137 | a dict with at most one page is returned as it is, whatever its page index |
| SlotSummary.ByStringIsPreorder | summarize_slots.py:137 | Python's string order on the keys compares any two and chains |
| SlotSummary.SortedInOrder | summarize_slots.py:137 | entries whose keys are all numbers, or all strings, come out with no later key less than an earlier one |
| SlotSummary.OrderMeaning | summarize_slots.py:137 | the sorted entries are a permutation of the dict's entries, with no later key `page_index or 0` less than an earlier one; entries whose keys rank the same keep the dict's insertion order |
| SlotSummary.TiedIsLevel | summarize_slots.py:137 | on keys that are all numbers or all strings, "neither key is less under Python's `<`" is exactly "level under the order the sort uses" |
| SlotSummary.SortKeepsTies | summarize_slots.py:137 | sorting keys of one kind keeps, for every key, the entries that rank the same in their input order |
| SlotSummary.TiedFinish | summarize_slots.py:137-143 | finishing the entries keeps which of them tie and their order |
| SlotSummary.Finish | summarize_slots.py:138-143 | count, total and average of an entry, the average zero without slots |
| SlotSummary.SumAreasAtLeast | summarize_slots.py:123-143 | slots that all reach the minimum area sum to at least count times it |
| SlotSummary.FinishAllPermutes | summarize_slots.py:137-143 | finishing two orderings of the same entries gives two orderings of the same summaries |
| SlotSummary.SummarizeMeaning | summarize_slots.py:102-144 | a successful summary has one entry per key, with no later key `page_index or 0` less than an earlier one and entries whose keys rank the same in the dict's insertion order, a permutation of the finished dict entries; every slot listed reaches the minimum area and every page that had an item has an entry |
| SlotSummary.Summarize | summarize_slots.py:102-144 | the loops of `summarize` compute the summary specification |
| SlotSummary.CollectItems | summarize_slots.py:104-135 | the items loop computes `Collect` |
| SlotSummary.TableValues | summarize_slots.py:137 | the values loop computes `Values` |
| SlotSummary.FinishEntries | summarize_slots.py:138-143 | the last loop computes `FinishAll` |
| SlotSummary.TotalArea | summarize_slots.py:140 | the left-to-right sum of the rows' areas |
| SlotSummary.CollectStopsAtFailure | summarize_slots.py:104-135 | once a prefix fails the whole collection fails |
| SlotSummary.VisitStep | summarize_slots.py:105-135 | one turn of the loop: `setdefault` for the page, then the item's row when the filters keep one |
| Sorting.SortBy | layout_planner.py:746 | the sort keeps the length and is a permutation of its input (multiset equality) |
| Sorting.SortByStable | layout_planner.py:746 | the sort is stable: for every key, the elements with that key come out in the order they went in |
| Sorting.InsertSortedLevel | layout_planner.py:746 | inserting an element puts it after every element with the same key |
| Sorting.LevelWithPrefix | src/solver.py:320 | cutting a sequence short keeps, of each key, the first elements with that key |
| Sorting.SortByIsSorted | layout_planner.py:746 | the output is ordered by the key |
| Sorting.SortByMembers | layout_planner.py:746 | an element is in the sorted list exactly when it is in the input |
| Sorting.MapSeqPermutes | summarize_slots.py:137-143 | mapping two orderings of the same elements gives two orderings of the same images |
| StyleRules.Clamp | app.py:6-7 | `max(min, min(max, v))` on numbers: within the bounds when they are ordered, and `v` itself when it already is |
| StyleRules.ClampMonotone | app.py:6-7 | clamping keeps the order of values |
| StyleRules.ClampIdempotent | app.py:6-7 | clamping a clamped value changes nothing |
| JsonValue.Less | app.py:7 | Python's `<` on JSON values: numbers and booleans by value, strings lexicographically, and an error for None, dicts and a string against a number |
| JsonValue.StrLessTotal | app.py:7 | of two different strings Python's `<` holds one way |
| JsonValue.StrLessTransitive | app.py:7 | Python's `<` on strings chains |
| StyleRules.PyClamp | app.py:6-7 | `clamp` on JSON values returns one of its three arguments unchanged, or raises where a comparison does |
| StyleRules.PyClampNumbers | app.py:6-7 | on numbers `clamp` never raises and gives the numeric clamp |
| StyleRules.PyClampStrings | app.py:6-7 | on three strings `clamp` never raises |
| StyleRules.Minus | app.py:46-52 | `base - d` succeeds exactly on numbers and gives their difference |
| StyleRules.ReadLimits | app.py:17-22 | base from the group or the default; min and max from the group or the base, whatever JSON value they hold |
| StyleRules.NumericLimits | app.py:17-22 | the limits are numeric exactly when base, min and max all are, and then carry their values |
| StyleRules.Group | app.py:14-15 | a missing group reads as empty; a present one reads exactly when it is a dict |
| StyleRules.ReadStyle | app.py:13-22 | without "style_limits" the body limits are 9.5/9.5/9.5 pt and the title limits 25/25/25 pt; reading fails exactly when "style_limits" or one of its groups is not a dict |
| StyleRules.Truncate | app.py:32 | `int(x)`: the integer part, truncating towards zero |
| StyleRules.ActionFor | app.py:37-53 | unplaced exactly for an unplaced flag or missing frame; otherwise expand above 1800 characters, tighten for 1400-1800, loosen under 900 without a photo, keep in every other case |
| StyleRules.Decide | app.py:42-56 | the action of `ActionFor`; numeric body size: the base shifted by -0.5, -0.25 or +0.25 for the action and clamped |
| StyleRules.LongerTextSmallerBody | app.py:42-55 | for placed notes with the same photo flag a longer text never gets a larger body size |
| StyleRules.BodySizeOfNumbers | app.py:35-55 | with numeric body limits the body size never raises and equals `Decide`'s |
| StyleRules.BodySizeOfStrings | app.py:35-55 | with string body limits a note succeeds exactly when it keeps the base (keep or unplaced): the subtraction raises for the other actions |
| StyleRules.DefaultIdsDistinct | app.py:31 | default ids of different positions differ |
| StyleRules.NoteInstruction | app.py:31-63 | an instruction exactly when the note is a dict whose "chars" converts to an integer and both clamps succeed; its id is the note's truthy id or the default one, its action `ActionFor`'s, its title size one of the title limits; with numeric limits it always succeeds and its sizes are `Decide`'s body size and the clamped title base |
| StyleRules.Instructions | app.py:30-63 | one instruction per note, in order, each numbered by the instructions before it; None where a step raises |
| StyleRules.LayoutSpec | app.py:11-65 | a request body that is not a dict, or unreadable limits, give no answer; a `notes` value that is not a list, or an empty one, gives an empty instruction list; otherwise an answer exactly when every note succeeds, holding each note's instruction in order |
| StyleRules.SizesWithinLimits | app.py:55-56 | with numeric limits every body and title size of a successful answer is a number within its limits when they are ordered |
| StyleRules.StringBaseNoNotes | app.py:17-28 | a string base size does not stop a request without notes |
| StyleRules.StringBaseKeepNote | app.py:35-55 | a string base size is passed through for a note that keeps its size |
| StyleRules.StringBaseLongNote | app.py:45-46 | a string base size makes a note over 1800 characters raise |
| StyleRules.Layout | app.py:11-65 | the endpoint's loop computes `LayoutSpec` |
| StyleRules.AppendAll | app.py:30-63 | appending one step per note, stopping at the first that raises, computes `Instructions` |
| StyleRules.InstructionsStopAtFailure | app.py:30-63 | once a note raises, the whole answer is an error |
| Text.TrimLeft | layout_planner.py:380 | `lstrip`: a suffix with no leading whitespace, only whitespace removed |
| Text.TrimRight | layout_planner.py:380 | `rstrip`: a prefix with no trailing whitespace, only whitespace removed |
| Text.Strip | layout_planner.py:380 | `strip` leaves a string that neither starts nor ends with whitespace |
| Text.StripIdempotent | layout_planner.py:380 | stripping twice is stripping once |
| Text.StripEmptyIffBlank | layout_planner.py:381 | `s.strip()` is empty exactly when `s` is whitespace only |
| Text.KeptByStrip | layout_planner.py:380 | a non-whitespace character survives `strip` |
| Text.TakeWord | layout_planner.py:383 | the longest prefix without whitespace |
| Text.WordsAreWords | layout_planner.py:383 | every piece of the word split is a non-empty run of non-whitespace |
| Text.WordsOfBlank | layout_planner.py:383 | a blank string has no words |
| Text.WordsSkipSpace | layout_planner.py:383 | leading whitespace does not change the split |
| Text.WordsCons | layout_planner.py:383 | a word followed by whitespace starts the split |
| Text.WordsOfJoin | layout_planner.py:383 | splitting words joined by single spaces gives the words back |
| Text.LowerCharKeepsSpace | summarize_slots.py:65 | lower-casing neither creates nor removes whitespace |
| Text.StripLower | summarize_slots.py:65 | lower-casing a stripped string leaves it stripped |
| Text.ReplaceChar | generate_slot_report.py:36 | `s.replace(a, b)` for characters: same length, `a` replaced by `b`, everything else kept |
| Text.NatToString | layout_planner.py:777 | `str(n)` is a non-empty run of digits |
| Text.NatToStringRoundTrip | layout_planner.py:777 | reading back what `str(n)` printed gives `n` |

## Left out

- File and network I/O are not modelled. This covers argument parsing, the
  `main` functions, JSON/CSV writing and `pretty_print`, the zip/XML/IDML
  readers, `load_slots_from_*`, `load_notes_from_*`, `parse_spread`,
  `analyze_document`, `build_page_output`, `print_summary` and the Flask
  application. The scripts' inputs are abstract values instead: slots, notes,
  paragraphs with runs, an element tree, and JSON values.
- Each core function that only converts values to dicts or text is not
  modelled: `to_dict`, `as_dict`, `to_page_coords`, `extract_label`,
  `extract_path_points` and `rotation_deg`. They need `atan2`, or they only
  reshape results for output.
- BeamCore.PresetAt: the presets are a list of (name, preset) pairs, not a
  dict. With a name listed twice it returns the first entry, a case a
  Python dict cannot hold; nothing is proved about lists with repeated names.
- SlotSummary.PyStr: JSON integers and floats are one kind of number here,
  an exact real. Python keeps them apart: `str(3)` is "3" and `str(3.0)` is
  "3.0". The model's `show` sees the same value for both, so pages with
  `page_id` 3 and 3.0 share one summary entry here, where Python gives them two.
- Floating point is modelled as exact reals. `float(...)` of a string is an
  uninterpreted parameter `parseFloat`, and `int(...)` of a string is a
  parameter `parseInt`. `round(x, 2)` is half-even rounding on the real
  value, not on its binary approximation.
- String case folding is ASCII `lower()`. Unicode case mappings and
  normalisation are not modelled.
- The capacity model the beam solvers call (`Prediseño_automatizado.py`) is
  not part of this model. Its text density, `capacity_for_height`, title
  costs, `capacity_per_column` and image presets are parameters (fields of
  `BeamCore.CapacityModel`).
- Logs, `attempt_summary` and the attempt history, `note_id`, and the
  `heights_pt` breakdown of a placement are not modelled. A trial keeps its
  sizes, fit, remaining height, overflow and used height.
- The configuration echo in the plan output is not modelled. The plan has
  the column model, the aliases, and pages in the order they are built.
  `remaining_height_pt` is a map, so the key order of that dict is not
  modelled.
- The title section's `leading_factor` and `char_width_factor` are not used,
  because the source never reads them. The settings are read once up front
  rather than at each use. This is equivalent whenever every section is a dict
  and every setting converts, because the configuration does not change during
  planning.
- PlannerConfig.ReadSettings: gives None as soon as any section is not a dict
  or any setting does not convert. Python reads each setting only when a note
  reaches a slot (layout_planner.py:608-614 and 656-664), and some only for
  notes with a title, body or image. So a configuration with an unreadable
  setting still plans in Python while no note needs that setting. The model
  states the plan only for settings that read.
- JsonValue.Less, StyleRules.PyClamp and SlotSummary.Order: a JSON list compares
  lexicographically with another list in Python. The model treats any
  comparison with a list as an error, whether of size limits or of two page
  indexes that are non-empty lists.
- PageKeys.FirstIntInString and PageKeys.DigitRun: read only the ASCII digits
  0-9. Python's `\d` and `int()` also accept every other Unicode decimal
  digit, such as Arabic-Indic digits.
- PlanLayout.PlanLayoutKeepsEveryNote: stated under `Usable(s)` (positive sizes
  and factors). With a zero size or factor, Python raises ZeroDivisionError,
  which the model does not represent.
- PlanLayout.PlanLayoutPlacementsBelong: stated under `Usable(s)` for the same
  reason.
- PlanLayout.RunPlanLayout: the tables are values passed along, not
  dictionaries mutated in place. `assign_images` is the exception and is
  modelled on an array. In the source the mutated notes are shared with the
  caller's list, and that aliasing is not modelled.
- GridSolver.SolvePageLayout and ColumnSolver.SolvePageLayout: soundness is
  proved only for `beam_width >= 1`. With `beam_width == 0` the slice
  `[:beam_width]` empties the beam and the search falls back to the initial
  state. A negative width drops the last `-beam_width` candidates instead,
  as `BeamCore.Take` computes. The model computes both cases but proves
  nothing about them.
- PlanLayout.RunPlanLayout, PlanLayout.PlanLayout and PlanLayout.TrialReports:
  require positive font sizes, spacing factors and character factors
  (`Usable`, `PositiveSizes`, `ColumnModel.Valid`). With a zero value Python
  raises ZeroDivisionError; with a negative value it still computes heights.
  Neither case is modelled.
- SlotFit.TryNoteInSlot, SlotFit.Attempt and the lemmas about them
  (SlotFit.AttemptRecords, SlotFit.TryFitsIff, SlotFit.TryIsATrial,
  SlotFit.TryLargestFit, SlotFit.TryMinimalOverflow): stated under the same
  positivity requirement, for the same reason.
- Heights.CharsPerLine, Heights.LineHeight, Heights.TextHeight,
  Heights.NoteHeight, Heights.Capacity and the monotonicity lemmas about them:
  require a positive font size and a valid column model, because
  `chars_per_line` and `line_height` divide by or scale with them. Zero and
  negative sizes are not modelled.
- `load_notes_from_docx` is not modelled, apart from the paragraph
  classification it relies on (`is_paragraph_bold`,
  `extract_notes_from_document`).

## Findings

| source | as written | input that shows it | evidently intended | confidence | as-written member | corrected member |
|---|---|---|---|---|---|---|
| layout_planner.py:808 | `plan_layout` stores every placement under the slot's raw `page_name`. The output at line 830 reads placements back under the normalised page key (`page_name or str(page_index)`, stripped, with whitespace collapsed). A placement whose slot has an empty or unnormalised page name is therefore in neither the placements nor the unplaced notes of any page. | one slot with `page_name` "", `page_index` 3 and a 200 by 500 point frame; one empty note with page hint "3"; default configuration | store the placement under the page key the slots were grouped by | not executed | PlanLayout.AsWrittenLosesPlacement | PlanLayout.PlanLayoutKeepsEveryNote |
