/**
 * The placement loop of `plan_layout` for one page: the page's notes go
 * through its slots in order, each note into the current slot when it fits
 * there (else the next slots are tried), and what cannot be placed is
 * reported with a reason.
 */
module PagePlacement {
  import opened Wrappers
  import opened LayoutTypes
  import opened Heights
  import opened SlotFit

  /** Why a note was left out. */
  datatype Reason = NoSlotForPage | Overflow(overflowChars: int, missingHeight: real) | NoSlotsLeft

  datatype UnplacedNote = UnplacedNote(note: Note, reason: Reason)

  /** What became of one note of a page. */
  datatype Outcome = Placed(result: LayoutResult) | NotPlaced(entry: UnplacedNote)
  {
    function NoteOf(): Note {
      if Placed? then result.note else entry.note
    }
  }

  /** The current slot (`index`, none once past the last) and the height left in it. */
  datatype Cursor = Cursor(index: nat, remaining: real)

  /** The trial of a note in a slot with some height left, as `try_note_in_slot` makes it. */
  type Trial = (Note, Slot, real) -> LayoutResult

  // ---------------------------------------------------------------- one page's notes

  /** The cursor on slot `i`, with its whole height; past the end the height is 0. */
  function At(slots: seq<Slot>, i: nat): (c: Cursor)
    ensures c.index == i
  {
    Cursor(i, if i < |slots| then slots[i].height else 0.0)
  }

  /** The entry of a note that fitted nowhere: the last failed trial's overflow, or no slot left at all. */
  function Unplace(note: Note, last: Option<LayoutResult>): UnplacedNote {
    if last.Some? then UnplacedNote(note, Overflow(last.value.overflow, Max(-last.value.remaining, 0.0)))
    else UnplacedNote(note, NoSlotsLeft)
  }

  /** The `while current_slot` loop: the current slot, then each following one, until the note fits. */
  function Seek(note: Note, slots: seq<Slot>, c: Cursor, last: Option<LayoutResult>, tryIn: Trial): (Outcome, Cursor)
    decreases |slots| - c.index
  {
    if c.index >= |slots| then (NotPlaced(Unplace(note, last)), c)
    else
      var r := tryIn(note, slots[c.index], c.remaining);
      if r.fit then (Placed(r), c)
      else Seek(note, slots, At(slots, c.index + 1), Some(r), tryIn)
  }

  /** One note: the search, then the note spacing taken off, moving on when nothing is left. */
  function PlaceNote(note: Note, slots: seq<Slot>, c: Cursor, tryIn: Trial, noteSpacing: real): (Outcome, Cursor) {
    var (o, c1) := Seek(note, slots, c, None, tryIn);
    if o.Placed? then
      var rem := o.result.remaining - noteSpacing;
      if rem <= 0.0 then (o, At(slots, c1.index + 1)) else (o, Cursor(c1.index, rem))
    else (o, c1)
  }

  /** The outcomes of a page's notes, in order, and the cursor after the last. */
  function PlacePage(notes: seq<Note>, slots: seq<Slot>, tryIn: Trial, noteSpacing: real): (r: (seq<Outcome>, Cursor))
    ensures |r.0| == |notes|
  {
    if notes == [] then ([], At(slots, 0))
    else
      var (outs, c) := PlacePage(notes[..|notes| - 1], slots, tryIn, noteSpacing);
      var (o, c') := PlaceNote(notes[|notes| - 1], slots, c, tryIn, noteSpacing);
      (outs + [o], c')
  }

  /** A trial reports the note and the slot it was made for. */
  ghost predicate Reports(tryIn: Trial) {
    forall n, sl, rem :: tryIn(n, sl, rem).note == n && tryIn(n, sl, rem).slot == sl
  }

  /**
   * The search never goes back: a placement is a fitting trial in the slot
   * the search stopped at, at or after where it started; no slot left means
   * the search started past the last slot.
   */
  lemma {:induction false} SeekFacts(note: Note, slots: seq<Slot>, c: Cursor, last: Option<LayoutResult>, tryIn: Trial)
    ensures var (o, c1) := Seek(note, slots, c, last, tryIn);
      && c1.index >= c.index
      && (o.Placed? ==> c1.index < |slots| && o.result == tryIn(note, slots[c1.index], c1.remaining) && o.result.fit)
      && (o.NotPlaced? ==> c1.index >= |slots| && o.entry.note == note)
      && (o.NotPlaced? && o.entry.reason.NoSlotsLeft? ==> last.None? && c.index >= |slots|)
    decreases |slots| - c.index
  {
    if c.index < |slots| {
      var r := tryIn(note, slots[c.index], c.remaining);
      if !r.fit {
        SeekFacts(note, slots, At(slots, c.index + 1), Some(r), tryIn);
      }
    }
  }

  /** Every note of the page gets exactly one outcome, for that note, and placements fit. */
  lemma {:induction false} PlacePageFacts(notes: seq<Note>, slots: seq<Slot>, tryIn: Trial, noteSpacing: real)
    requires Reports(tryIn)
    ensures var (outs, c) := PlacePage(notes, slots, tryIn, noteSpacing);
      && (forall i :: 0 <= i < |notes| ==> outs[i].NoteOf() == notes[i])
      && (forall i :: 0 <= i < |notes| && outs[i].Placed? ==> outs[i].result.fit && outs[i].result.slot in slots)
  {
    if notes != [] {
      var init := notes[..|notes| - 1];
      PlacePageFacts(init, slots, tryIn, noteSpacing);
      var (outs, c) := PlacePage(init, slots, tryIn, noteSpacing);
      SeekFacts(notes[|notes| - 1], slots, c, None, tryIn);
    }
  }

  /** `for note in page_notes` with its inner `while current_slot` loop. */
  method PlacePageNotes(notes: seq<Note>, slots: seq<Slot>, tryIn: Trial, noteSpacing: real) returns (outs: seq<Outcome>)
    ensures outs == PlacePage(notes, slots, tryIn, noteSpacing).0
  {
    var index: nat := 0;
    var remaining := if |slots| > 0 then slots[0].height else 0.0;
    outs := [];
    for i := 0 to |notes|
      invariant (outs, Cursor(index, remaining)) == PlacePage(notes[..i], slots, tryIn, noteSpacing)
    {
      assert notes[..i + 1][..i] == notes[..i];
      var note := notes[i];
      ghost var start := Cursor(index, remaining);
      var placed: Option<LayoutResult> := None;
      var last: Option<LayoutResult> := None;
      while index < |slots|
        invariant Seek(note, slots, Cursor(index, remaining), last, tryIn) == Seek(note, slots, start, None, tryIn)
        decreases |slots| - index
      {
        var r := tryIn(note, slots[index], remaining);
        if r.fit {
          placed := Some(r);
          break;
        }
        last := Some(r);
        index := index + 1;
        remaining := if index < |slots| then slots[index].height else 0.0;
      }
      if placed.Some? {
        outs := outs + [Placed(placed.value)];
        remaining := placed.value.remaining - noteSpacing;
        if remaining <= 0.0 {
          index := index + 1;
          remaining := if index < |slots| then slots[index].height else 0.0;
        }
      } else {
        outs := outs + [NotPlaced(Unplace(note, last))];
      }
    }
    assert notes[..|notes|] == notes;
  }
}
