/**
 * The `/layout` endpoint of the style service: for every note of the request
 * it picks a body size and an action from the note's character count, photo
 * and placement, within the body and title size limits of the request.
 */
module StyleRules {
  import opened Wrappers
  import opened Text
  import opened JsonValue

  /** `clamp(value, min_value, max_value)`: `max(min_value, min(max_value, value))`. */
  function Clamp(value: real, lo: real, hi: real): (r: real)
    ensures r == lo || r == hi || r == value
    ensures lo <= hi ==> lo <= r <= hi
    ensures lo <= value <= hi ==> r == value
    ensures value < lo ==> r == lo
    ensures lo <= hi < value ==> r == hi
    ensures hi < lo ==> r == lo
  {
    var low := if hi <= value then hi else value;
    if lo >= low then lo else low
  }

  /** Clamping keeps the order of the clamped values. */
  lemma ClampMonotone(v: real, w: real, lo: real, hi: real)
    requires v <= w
    ensures Clamp(v, lo, hi) <= Clamp(w, lo, hi)
  {
  }

  /** Clamping a clamped value changes nothing, whatever the bounds. */
  lemma ClampIdempotent(v: real, lo: real, hi: real)
    ensures Clamp(Clamp(v, lo, hi), lo, hi) == Clamp(v, lo, hi)
  {
  }

  /** What the service tells the layout engine to do with a note. */
  datatype Action =
    | Keep              // "keep"
    | Tighten           // "tighten"
    | ExpandFrameFirst  // "expand_frame_first"
    | Loosen            // "loosen"
    | Unplaced          // "unplaced"
  {
    /** The string the response carries. */
    function Name(): string {
      match this
      case Keep => "keep"
      case Tighten => "tighten"
      case ExpandFrameFirst => "expand_frame_first"
      case Loosen => "loosen"
      case Unplaced => "unplaced"
    }
  }

  /** Numeric size limits of one text kind: a base size and the range around it, in points. */
  datatype Limits = Limits(base: real, min: real, max: real)

  /**
   * The limits of one text kind as the request gives them: whatever JSON
   * values `base`, `min` and `max` hold. Python only fails on them when a
   * note's arithmetic or comparison does.
   */
  datatype RawLimits = RawLimits(base: Json, min: Json, max: Json)

  datatype StyleLimits = StyleLimits(body: RawLimits, title: RawLimits)

  /** One entry of the response's `instructions`; the sizes are the JSON values `clamp` returned. */
  datatype Instruction = Instruction(id: Json, bodyPt: Json, titlePt: Json, action: Action)

  /**
   * `clamp(value, lo, hi)` on JSON values: `min(hi, value)` keeps `hi` unless
   * `value < hi`, and `max(lo, m)` keeps `lo` unless `m > lo`; None where a
   * comparison raises.
   */
  function PyClamp(value: Json, lo: Json, hi: Json): (r: Option<Json>)
    ensures r.Some? ==> r.value == value || r.value == lo || r.value == hi
  {
    match Less(value, hi)
    case None => None
    case Some(below) =>
      var m := if below then value else hi;
      match Less(lo, m)
      case None => None
      case Some(above) => Some(if above then m else lo)
  }

  /** On numbers, `clamp` never raises and computes `Clamp` of their values. */
  lemma PyClampNumbers(value: Json, lo: Json, hi: Json)
    requires Number(value).Some? && Number(lo).Some? && Number(hi).Some?
    ensures PyClamp(value, lo, hi).Some?
    ensures Number(PyClamp(value, lo, hi).value) == Some(Clamp(Number(value).value, Number(lo).value, Number(hi).value))
  {
  }

  /** `BodySizeOfNumbers` wherever the limits are numbers. */
  lemma NumericBodySize(chars: int, hasPhoto: bool, unplaced: bool, body: RawLimits)
    ensures NumericLimits(body).Some? ==>
            var action := ActionFor(chars, hasPhoto, unplaced);
            BodySize(action, body).Some?
            && Number(BodySize(action, body).value) == Some(Decide(chars, hasPhoto, unplaced, NumericLimits(body).value).bodyPt)
  {
    if NumericLimits(body).Some? {
      BodySizeOfNumbers(chars, hasPhoto, unplaced, body);
    }
  }

  /** The title size on numeric limits, which never raises. */
  lemma NumericTitleSize(title: RawLimits)
    ensures NumericLimits(title).Some? ==>
            PyClamp(title.base, title.min, title.max).Some?
            && Number(PyClamp(title.base, title.min, title.max).value)
               == Some(Clamp(Number(title.base).value, Number(title.min).value, Number(title.max).value))
  {
    if NumericLimits(title).Some? {
      PyClampNumbers(title.base, title.min, title.max);
    }
  }

  /** On strings, `clamp` never raises and orders them as Python does. */
  lemma PyClampStrings(value: Json, lo: Json, hi: Json)
    requires value.JStr? && lo.JStr? && hi.JStr?
    ensures PyClamp(value, lo, hi).Some?
  {
  }

  /** `x - d` for a number `x`; None where Python raises (a string, a list, None...). */
  function Minus(x: Json, d: real): (r: Option<Json>)
    ensures r.Some? <==> Number(x).Some?
    ensures r.Some? ==> r.value == JNum(Number(x).value - d)
  {
    match Number(x)
    case Some(n) => Some(JNum(n - d))
    case None => None
  }

  /**
   * `group.get("base", defaultBase)` and `group.get("min"/"max", base)`: the
   * values as given, whatever their type.
   */
  function ReadLimits(group: map<string, Json>, defaultBase: real): (r: RawLimits)
    ensures "base" !in group ==> r.base == JNum(defaultBase)
    ensures "base" in group ==> r.base == group["base"]
    ensures "min" !in group ==> r.min == r.base
    ensures "min" in group ==> r.min == group["min"]
    ensures "max" !in group ==> r.max == r.base
    ensures "max" in group ==> r.max == group["max"]
  {
    var base := Get(group, "base", JNum(defaultBase));
    RawLimits(base, Get(group, "min", base), Get(group, "max", base))
  }

  /** The limits as numbers, when all three are numbers. */
  function NumericLimits(raw: RawLimits): (r: Option<Limits>)
    ensures r.Some? <==> Number(raw.base).Some? && Number(raw.min).Some? && Number(raw.max).Some?
    ensures r.Some? ==> r.value == Limits(Number(raw.base).value, Number(raw.min).value, Number(raw.max).value)
  {
    if Number(raw.base).Some? && Number(raw.min).Some? && Number(raw.max).Some? then
      Some(Limits(Number(raw.base).value, Number(raw.min).value, Number(raw.max).value))
    else None
  }

  /** `limits.get(key, {})`, which must be a dict for its own `.get` to work. */
  function Group(limits: map<string, Json>, key: string): (r: Option<map<string, Json>>)
    ensures key !in limits ==> r == Some(map[])
    ensures key in limits ==> (r.Some? <==> limits[key].JObj?)
  {
    match Get(limits, key, JObj(map[]))
    case JObj(fields) => Some(fields)
    case _ => None
  }

  const DefaultBodyPt: real := 9.5
  const DefaultTitlePt: real := 25.0

  /**
   * The `style_limits` of the request, with the defaults 9.5 pt (body) and
   * 25 pt (title). Python only raises here when the limits or one of their
   * groups is not a dict, since it calls `.get` on them.
   */
  function ReadStyle(data: map<string, Json>): (r: Option<StyleLimits>)
    ensures "style_limits" !in data ==>
      r == Some(StyleLimits(RawLimits(JNum(DefaultBodyPt), JNum(DefaultBodyPt), JNum(DefaultBodyPt)),
                            RawLimits(JNum(DefaultTitlePt), JNum(DefaultTitlePt), JNum(DefaultTitlePt))))
    ensures r.Some? <==>
      var limits := Get(data, "style_limits", JObj(map[]));
      limits.JObj? && Group(limits.fields, "body").Some? && Group(limits.fields, "title").Some?
  {
    match Get(data, "style_limits", JObj(map[]))
    case JObj(limits) =>
      (match (Group(limits, "body"), Group(limits, "title"))
       case (Some(body), Some(title)) =>
         Some(StyleLimits(ReadLimits(body, DefaultBodyPt), ReadLimits(title, DefaultTitlePt)))
       case _ => None)
    case _ => None
  }

  /** Python's `int(x)` of a float: the integer part, truncating towards zero. */
  function Truncate(x: real): (r: int)
    ensures x >= 0.0 ==> 0.0 <= r as real <= x < r as real + 1.0
    ensures x < 0.0 ==> r as real - 1.0 < x <= r as real <= 0.0
  {
    if x >= 0.0 then x.Floor else -((-x).Floor)
  }

  /** `int(v)`; strings go through `parseInt` (Python's integer syntax), None where it raises. */
  function ToInt(v: Json, parseInt: string -> Option<int>): Option<int> {
    match v
    case JNum(n) => Some(Truncate(n))
    case JBool(b) => Some(if b then 1 else 0)
    case JStr(s) => parseInt(s)
    case _ => None
  }

  /** The change to the base body size that each action asks for. */
  function Delta(action: Action): real {
    match action
    case ExpandFrameFirst => -0.5
    case Tighten => -0.25
    case Loosen => 0.25
    case Keep => 0.0
    case Unplaced => 0.0
  }

  /** The action the branch on placement and length picks. */
  function ActionFor(chars: int, hasPhoto: bool, unplaced: bool): (a: Action)
    ensures a == Unplaced <==> unplaced
    ensures !unplaced ==> (a == ExpandFrameFirst <==> chars > 1800)
    ensures !unplaced ==> (a == Tighten <==> 1400 <= chars <= 1800)
    ensures !unplaced ==> (a == Loosen <==> chars < 900 && !hasPhoto)
    ensures !unplaced ==> (a == Keep <==> (900 <= chars < 1400 || (chars < 900 && hasPhoto)))
  {
    if unplaced then Unplaced
    else if chars > 1800 then ExpandFrameFirst
    else if 1400 <= chars <= 1800 then Tighten
    else if chars < 900 && !hasPhoto then Loosen
    else Keep
  }

  datatype Decision = Decision(action: Action, bodyPt: real)

  /** The branch on placement and length, then the final clamp of the body size, on numeric limits. */
  function Decide(chars: int, hasPhoto: bool, unplaced: bool, body: Limits): (d: Decision)
    ensures d.action == ActionFor(chars, hasPhoto, unplaced)
    ensures d.bodyPt == Clamp(body.base + Delta(d.action), body.min, body.max)
  {
    var action := ActionFor(chars, hasPhoto, unplaced);
    var pt := if action == Keep || action == Unplaced then body.base
              else Clamp(body.base + Delta(action), body.min, body.max);
    ClampIdempotent(body.base + Delta(action), body.min, body.max);
    Decision(action, Clamp(pt, body.min, body.max))
  }

  /** For placed notes with the same photo flag, a longer text never gets a larger body size. */
  lemma LongerTextSmallerBody(c1: int, c2: int, hasPhoto: bool, body: Limits)
    requires c1 <= c2
    ensures Decide(c2, hasPhoto, false, body).bodyPt <= Decide(c1, hasPhoto, false, body).bodyPt
  {
    var a1 := Decide(c1, hasPhoto, false, body).action;
    var a2 := Decide(c2, hasPhoto, false, body).action;
    assert Delta(a2) <= Delta(a1);
    ClampMonotone(body.base + Delta(a2), body.base + Delta(a1), body.min, body.max);
  }

  /**
   * The body size as the endpoint computes it on the limits as given: the base
   * for "keep" and "unplaced", the clamped shifted base otherwise, then
   * clamped once more; None where a subtraction or comparison raises.
   */
  function BodySize(action: Action, body: RawLimits): Option<Json> {
    var pt := if action == Keep || action == Unplaced then Some(body.base)
              else match Minus(body.base, -Delta(action))
                   case None => None
                   case Some(shifted) => PyClamp(shifted, body.min, body.max);
    match pt
    case None => None
    case Some(v) => PyClamp(v, body.min, body.max)
  }

  /** On numeric limits the body size never raises and is the one `Decide` gives. */
  lemma BodySizeOfNumbers(chars: int, hasPhoto: bool, unplaced: bool, body: RawLimits)
    requires NumericLimits(body).Some?
    ensures var action := ActionFor(chars, hasPhoto, unplaced);
            BodySize(action, body).Some?
            && Number(BodySize(action, body).value) == Some(Decide(chars, hasPhoto, unplaced, NumericLimits(body).value).bodyPt)
  {
    var action := ActionFor(chars, hasPhoto, unplaced);
    var n := NumericLimits(body).value;
    if action == Keep || action == Unplaced {
      PyClampNumbers(body.base, body.min, body.max);
      assert n.base + Delta(action) == n.base;
    } else {
      var shifted := Minus(body.base, -Delta(action)).value;
      assert Number(shifted) == Some(n.base + Delta(action));
      PyClampNumbers(shifted, body.min, body.max);
      var once := PyClamp(shifted, body.min, body.max).value;
      PyClampNumbers(once, body.min, body.max);
      ClampIdempotent(n.base + Delta(action), n.min, n.max);
    }
  }

  /**
   * With string limits a note that keeps its base size or is unplaced is still
   * answered, its body size being one of the strings, while a note that
   * changes size raises on the subtraction.
   */
  lemma BodySizeOfStrings(action: Action, body: RawLimits)
    requires body.base.JStr? && body.min.JStr? && body.max.JStr?
    ensures (action == Keep || action == Unplaced) <==> BodySize(action, body).Some?
  {
    if action == Keep || action == Unplaced {
      PyClampStrings(body.base, body.min, body.max);
      var once := PyClamp(body.base, body.min, body.max).value;
      PyClampStrings(once, body.min, body.max);
    }
  }

  /** `nota{position + 1}`, the id given to a note without one. */
  function DefaultId(position: nat): string {
    "nota" + IntToString(position + 1)
  }

  /** Default ids of different positions differ. */
  lemma DefaultIdsDistinct(p: nat, q: nat)
    requires p != q
    ensures DefaultId(p) != DefaultId(q)
  {
    var s, t := IntToString(p + 1), IntToString(q + 1);
    if DefaultId(p) == DefaultId(q) {
      assert DefaultId(p)[4..] == s;
      assert DefaultId(q)[4..] == t;
      NatToStringRoundTrip(p + 1);
      NatToStringRoundTrip(q + 1);
      assert false;
    }
  }

  /** The note's `hasFrame` is the very value `False`; `0` or `None` do not count. */
  predicate FrameMissing(fields: map<string, Json>) {
    Get(fields, "hasFrame", JBool(true)) == JBool(false)
  }

  /** The note's `hasPhoto`, read with `bool(...)`. */
  predicate HasPhoto(fields: map<string, Json>) {
    Truthy(Get(fields, "hasPhoto", JBool(false)))
  }

  /** The note is unplaced: a truthy `unplaced` flag or a missing frame. */
  predicate IsUnplaced(fields: map<string, Json>) {
    Truthy(Get(fields, "unplaced", JBool(false))) || FrameMissing(fields)
  }

  /** The id of the `position`-th instruction: the note's truthy id or `nota{position + 1}`. */
  function NoteId(fields: map<string, Json>, position: nat): Json {
    var rawId := Get(fields, "id", JNull);
    if Truthy(rawId) then rawId else JStr(DefaultId(position))
  }

  /**
   * The instruction for one note, the `position`-th to be appended; None where
   * Python raises: the note is not a dict, its "chars" does not convert, or
   * the limits cannot be subtracted from or compared.
   */
  function NoteInstruction(note: Json, position: nat, style: StyleLimits,
                           parseInt: string -> Option<int>): (r: Option<Instruction>)
    ensures r.Some? <==>
      && note.JObj? && ToInt(Get(note.fields, "chars", JNum(0.0)), parseInt).Some?
      && BodySize(ActionFor(ToInt(Get(note.fields, "chars", JNum(0.0)), parseInt).value,
                            HasPhoto(note.fields), IsUnplaced(note.fields)), style.body).Some?
      && PyClamp(style.title.base, style.title.min, style.title.max).Some?
    ensures r.Some? ==>
      var chars := ToInt(Get(note.fields, "chars", JNum(0.0)), parseInt).value;
      && r.value.id == NoteId(note.fields, position)
      && r.value.action == ActionFor(chars, HasPhoto(note.fields), IsUnplaced(note.fields))
      && (r.value.titlePt == style.title.base || r.value.titlePt == style.title.min || r.value.titlePt == style.title.max)
      && (NumericLimits(style.body).Some? ==>
            Number(r.value.bodyPt) == Some(Decide(chars, HasPhoto(note.fields), IsUnplaced(note.fields),
                                                  NumericLimits(style.body).value).bodyPt))
      && (NumericLimits(style.title).Some? ==>
            Number(r.value.titlePt) == Some(Clamp(Number(style.title.base).value, Number(style.title.min).value,
                                                  Number(style.title.max).value)))
    ensures (note.JObj? && ToInt(Get(note.fields, "chars", JNum(0.0)), parseInt).Some?
             && NumericLimits(style.body).Some? && NumericLimits(style.title).Some?) ==> r.Some?
  {
    match note
    case JObj(fields) =>
      (match ToInt(Get(fields, "chars", JNum(0.0)), parseInt)
       case None => None
       case Some(chars) =>
         var action := ActionFor(chars, HasPhoto(fields), IsUnplaced(fields));
         NumericBodySize(chars, HasPhoto(fields), IsUnplaced(fields), style.body);
         NumericTitleSize(style.title);
         match (BodySize(action, style.body), PyClamp(style.title.base, style.title.min, style.title.max))
         case (Some(body), Some(title)) => Some(Instruction(NoteId(fields, position), body, title, action))
         case _ => None)
    case _ => None
  }

  /** `NoteInstruction` for fixed limits and integer syntax. */
  function StepFn(style: StyleLimits, parseInt: string -> Option<int>): (Json, nat) -> Option<Instruction> {
    (note: Json, position: nat) => NoteInstruction(note, position, style, parseInt)
  }

  /**
   * The instructions for a list of notes, in order, each made by `step` from
   * the note and the number of instructions before it; None where some step raises.
   */
  function Instructions(notes: seq<Json>, step: (Json, nat) -> Option<Instruction>): (r: Option<seq<Instruction>>)
    ensures r.Some? <==> forall i :: 0 <= i < |notes| ==> step(notes[i], i).Some?
    ensures r.Some? ==> |r.value| == |notes|
    ensures r.Some? ==> forall i :: 0 <= i < |notes| ==> r.value[i] == step(notes[i], i).value
    decreases |notes|
  {
    if notes == [] then Some([])
    else
      var init := notes[..|notes| - 1];
      assert forall i :: 0 <= i < |init| ==> init[i] == notes[i];
      match Instructions(init, step)
      case None => None
      case Some(acc) =>
        match step(notes[|notes| - 1], |acc|)
        case None => None
        case Some(ins) => Some(acc + [ins])
  }

  /**
   * The `instructions` the endpoint answers with; None where Python raises.
   * The size limits are only used inside the notes loop, so a request whose
   * limits are dicts is answered whenever it has no notes to size, whatever
   * the limits hold.
   */
  function LayoutSpec(data: Json, parseInt: string -> Option<int>): (r: Option<seq<Instruction>>)
    ensures !data.JObj? ==> r == None
    ensures data.JObj? && ReadStyle(data.fields).None? ==> r == None
    ensures data.JObj? && ReadStyle(data.fields).Some? && !Get(data.fields, "notes", JArr([])).JArr? ==> r == Some([])
    ensures data.JObj? && ReadStyle(data.fields).Some? && Get(data.fields, "notes", JArr([])) == JArr([]) ==> r == Some([])
    ensures data.JObj? && ReadStyle(data.fields).Some? && Get(data.fields, "notes", JArr([])).JArr? ==>
      var notes := Get(data.fields, "notes", JArr([])).items;
      var style := ReadStyle(data.fields).value;
      && (r.Some? <==> forall i :: 0 <= i < |notes| ==> NoteInstruction(notes[i], i, style, parseInt).Some?)
      && (r.Some? ==> |r.value| == |notes|
                      && forall i :: 0 <= i < |notes| ==> r.value[i] == NoteInstruction(notes[i], i, style, parseInt).value)
  {
    match data
    case JObj(fields) =>
      (match ReadStyle(fields)
       case None => None
       case Some(style) =>
         match Get(fields, "notes", JArr([]))
         case JArr(notes) => Instructions(notes, StepFn(style, parseInt))
         case _ => Some([]))
    case _ => None
  }

  /**
   * On numeric limits, every body and title size of a successful answer is a
   * number within its limits when they are ordered.
   */
  lemma SizesWithinLimits(data: Json, parseInt: string -> Option<int>)
    requires LayoutSpec(data, parseInt).Some?
    requires data.JObj? && ReadStyle(data.fields).Some?
    requires NumericLimits(ReadStyle(data.fields).value.body).Some?
    requires NumericLimits(ReadStyle(data.fields).value.title).Some?
    ensures var body := NumericLimits(ReadStyle(data.fields).value.body).value;
      var title := NumericLimits(ReadStyle(data.fields).value.title).value;
      var r := LayoutSpec(data, parseInt).value;
      forall i :: 0 <= i < |r| ==>
        && Number(r[i].bodyPt).Some? && Number(r[i].titlePt).Some?
        && (body.min <= body.max ==> body.min <= Number(r[i].bodyPt).value <= body.max)
        && (title.min <= title.max ==> title.min <= Number(r[i].titlePt).value <= title.max)
  {
    var style := ReadStyle(data.fields).value;
    var body := NumericLimits(style.body).value;
    var title := NumericLimits(style.title).value;
    var r := LayoutSpec(data, parseInt).value;
    var notesValue := Get(data.fields, "notes", JArr([]));
    if notesValue.JArr? {
      var notes := notesValue.items;
      forall i | 0 <= i < |r|
        ensures Number(r[i].bodyPt).Some? && Number(r[i].titlePt).Some?
        ensures body.min <= body.max ==> body.min <= Number(r[i].bodyPt).value <= body.max
        ensures title.min <= title.max ==> title.min <= Number(r[i].titlePt).value <= title.max
      {
        var note := notes[i];
        assert r[i] == NoteInstruction(note, i, style, parseInt).value;
        var chars := ToInt(Get(note.fields, "chars", JNum(0.0)), parseInt).value;
        assert Number(r[i].bodyPt) == Some(Decide(chars, HasPhoto(note.fields), IsUnplaced(note.fields), body).bodyPt);
      }
    }
  }

  /** A request whose only limit is a body base size given as the string "9.5". */
  function StringBaseRequest(notes: seq<Json>): Json {
    JObj(map["style_limits" := JObj(map["body" := JObj(map["base" := JStr("9.5")])]), "notes" := JArr(notes)])
  }

  lemma StringBaseStyle(notes: seq<Json>)
    ensures ReadStyle(StringBaseRequest(notes).fields)
            == Some(StyleLimits(RawLimits(JStr("9.5"), JStr("9.5"), JStr("9.5")),
                                RawLimits(JNum(25.0), JNum(25.0), JNum(25.0))))
  {
    var fields := StringBaseRequest(notes).fields;
    var limits := JObj(map["body" := JObj(map["base" := JStr("9.5")])]);
    assert Get(fields, "style_limits", JObj(map[])) == limits;
    assert Group(limits.fields, "title") == Some(map[]);
  }

  /** With a string base size, a request without notes is answered with no instructions. */
  lemma StringBaseNoNotes(parseInt: string -> Option<int>)
    ensures LayoutSpec(StringBaseRequest([]), parseInt) == Some([])
  {
    StringBaseStyle([]);
    assert Get(StringBaseRequest([]).fields, "notes", JArr([])) == JArr([]);
  }

  /** With a string base size, a note that keeps its size gets the string as its body size. */
  lemma StringBaseKeepNote(parseInt: string -> Option<int>)
    ensures LayoutSpec(StringBaseRequest([JObj(map["chars" := JNum(1000.0)])]), parseInt)
            == Some([Instruction(JStr(DefaultId(0)), JStr("9.5"), JNum(25.0), Keep)])
  {
    var note := JObj(map["chars" := JNum(1000.0)]);
    StringBaseStyle([note]);
    var style := ReadStyle(StringBaseRequest([note]).fields).value;
    assert Get(StringBaseRequest([note]).fields, "notes", JArr([])) == JArr([note]);
    assert ToInt(Get(note.fields, "chars", JNum(0.0)), parseInt) == Some(1000);
    assert ActionFor(1000, HasPhoto(note.fields), IsUnplaced(note.fields)) == Keep;
    assert BodySize(Keep, style.body) == Some(JStr("9.5"));
    assert PyClamp(style.title.base, style.title.min, style.title.max) == Some(JNum(25.0));
    assert NoteId(note.fields, 0) == JStr(DefaultId(0));
    var expected := Instruction(JStr(DefaultId(0)), JStr("9.5"), JNum(25.0), Keep);
    assert NoteInstruction(note, 0, style, parseInt) == Some(expected);
    var r := LayoutSpec(StringBaseRequest([note]), parseInt);
    assert r.Some? && |r.value| == 1 && r.value[0] == expected;
    assert r.value == [expected];
  }

  /** With a string base size, a long note raises on the subtraction. */
  lemma StringBaseLongNote(parseInt: string -> Option<int>)
    ensures LayoutSpec(StringBaseRequest([JObj(map["chars" := JNum(2000.0)])]), parseInt) == None
  {
    var note := JObj(map["chars" := JNum(2000.0)]);
    StringBaseStyle([note]);
    var style := ReadStyle(StringBaseRequest([note]).fields).value;
    assert Get(StringBaseRequest([note]).fields, "notes", JArr([])) == JArr([note]);
    assert ToInt(Get(note.fields, "chars", JNum(0.0)), parseInt) == Some(2000);
    assert ActionFor(2000, HasPhoto(note.fields), IsUnplaced(note.fields)) == ExpandFrameFirst;
  }

  /** `layout()`: the loop over the notes, appending one instruction per note. */
  method Layout(data: Json, parseInt: string -> Option<int>) returns (r: Option<seq<Instruction>>)
    ensures r == LayoutSpec(data, parseInt)
  {
    if !data.JObj? {
      return None;
    }
    var style := ReadStyle(data.fields);
    if style.None? {
      return None;
    }
    var notesValue := Get(data.fields, "notes", JArr([]));
    if !notesValue.JArr? {
      return Some([]);
    }
    r := AppendAll(notesValue.items, StepFn(style.value, parseInt));
  }

  /** The loop of `layout()`: one step per note, stopping at the first that raises. */
  method AppendAll(notes: seq<Json>, step: (Json, nat) -> Option<Instruction>) returns (r: Option<seq<Instruction>>)
    ensures r == Instructions(notes, step)
  {
    var instructions: seq<Instruction> := [];
    var i := 0;
    while i < |notes|
      invariant 0 <= i <= |notes|
      invariant Instructions(notes[..i], step) == Some(instructions)
    {
      var next := step(notes[i], |instructions|);
      assert notes[..i + 1][..i] == notes[..i];
      if next.None? {
        InstructionsStopAtFailure(notes, i + 1, step);
        return None;
      }
      instructions := instructions + [next.value];
      i := i + 1;
    }
    assert notes[..i] == notes;
    return Some(instructions);
  }

  /** Once a note raises, the whole answer is an error. */
  lemma InstructionsStopAtFailure(notes: seq<Json>, k: nat, step: (Json, nat) -> Option<Instruction>)
    requires 0 < k <= |notes|
    requires Instructions(notes[..k], step).None?
    ensures Instructions(notes, step).None?
  {
    assert notes[..k][k - 1] == notes[k - 1];
  }
}
