/**
 * How tall a note is in a column: lines of characters of a fixed width per
 * point of font size, a line height proportional to the font size, an image
 * scaled to the slot's width, and the body characters that still fit in a
 * remaining height.
 */
module Heights {
  import opened LayoutTypes
  import opened PlannerConfig

  const PointsPerCm: real := 28.3464566929

  /** The column model: its widths are echoed, its two factors size every text. */
  datatype ColumnModel = ColumnModel(columnWidth: real, gutter: real, charWidthFactor: real, leadingFactor: real)
  {
    /** Every division of the height model is by a positive number. */
    predicate Valid() {
      charWidthFactor > 0.0 && leadingFactor > 0.0
    }
  }

  function Max(a: real, b: real): real {
    if a >= b then a else b
  }

  /** Division by a positive number keeps the order. */
  lemma DivMonotone(a: real, b: real, c: real)
    requires a <= b && c > 0.0
    ensures a / c <= b / c
  {
    assert b / c - a / c == (b - a) / c;
  }

  /** A non-negative number divided by a larger divisor gives less. */
  lemma DivAntitone(a: real, c: real, d: real)
    requires a >= 0.0 && 0.0 < c <= d
    ensures a / d <= a / c
  {
    assert a / c - a / d == a * (d - c) / (c * d);
  }

  lemma MulLe(a: real, b: real, c: real)
    requires a <= b && c >= 0.0
    ensures a * c <= b * c
  {
    assert b * c - a * c == (b - a) * c;
  }

  lemma MulLtCancel(a: real, b: real, c: real)
    requires c > 0.0 && a * c < b * c
    ensures a < b
  {
    if a >= b {
      MulLe(b, a, c);
    }
  }

  lemma StrictMul(a: real, b: real, c: real)
    requires a < b && c > 0.0
    ensures a * c < b * c
  {
    assert b * c - a * c == (b - a) * c;
  }

  lemma DivNonNeg(a: real, b: real)
    requires a >= 0.0 && b > 0.0
    ensures a / b >= 0.0
  {
  }

  /** Scaling `n <= x < n + 1` by a positive factor. */
  lemma FloorScaled(x: real, l: real, n: int)
    requires l > 0.0 && n as real <= x < (n + 1) as real
    ensures n as real * l <= x * l < (n + 1) as real * l
  {
    MulLe(n as real, x, l);
    StrictMul(x, (n + 1) as real, l);
  }

  /** Scaling `n - 1 < x <= n` by a positive factor. */
  lemma CeilScaled(x: real, l: real, n: int)
    requires l > 0.0 && (n - 1) as real < x <= n as real
    ensures (n - 1) as real * l < x * l <= n as real * l
  {
    MulLe(x, n as real, l);
    StrictMul((n - 1) as real, x, l);
  }

  lemma DivCancel(a: real, b: real)
    requires b != 0.0
    ensures (a / b) * b == a
  {
  }

  lemma FloorMonotone(x: real, y: real)
    requires x <= y
    ensures x.Floor <= y.Floor
  {
  }

  lemma MulMonotone(a: real, b: real, c: real, d: real)
    requires 0.0 <= a <= b && 0.0 <= c <= d
    ensures a * c <= b * d
  {
    assert b * d - a * c == (b - a) * d + a * (d - c);
  }

  /** `chars_per_line`: how many characters of `font * charWidthFactor` points fill the width. */
  function CharsPerLine(cm: ColumnModel, width: real, font: real): (r: real)
    requires cm.Valid() && font > 0.0
    ensures r > 0.0
  {
    MulMonotone(0.0, font, 0.0, cm.charWidthFactor);
    StrictMul(0.0, font, cm.charWidthFactor);
    Max(width, 1.0) / (font * cm.charWidthFactor)
  }

  /** A line holds characters of `font * charWidthFactor` points across the whole width. */
  lemma CharsPerLineFills(cm: ColumnModel, width: real, font: real)
    requires cm.Valid() && font > 0.0
    ensures CharsPerLine(cm, width, font) * (font * cm.charWidthFactor) == Max(width, 1.0)
  {
    StrictMul(0.0, font, cm.charWidthFactor);
    DivCancel(Max(width, 1.0), font * cm.charWidthFactor);
  }

  /** `line_height`. */
  function LineHeight(cm: ColumnModel, font: real): (r: real)
    requires cm.Valid() && font > 0.0
    ensures r > 0.0
  {
    font * cm.leadingFactor
  }

  /** `math.ceil`. */
  function Ceil(x: real): (r: int)
    ensures (r - 1) as real < x <= r as real
  {
    if x == x.Floor as real then x.Floor else x.Floor + 1
  }

  lemma CeilMonotone(x: real, y: real)
    requires x <= y
    ensures Ceil(x) <= Ceil(y)
  {
  }

  /** The fewest lines of `perLine` characters that hold `chars` characters: `ceil(chars / perLine)`. */
  function LinesFor(chars: int, perLine: real): (r: int)
    requires perLine > 0.0
    ensures chars > 0 ==> r >= 1
  {
    if chars > 0 then DivNonNeg(chars as real, perLine); Ceil(chars as real / perLine) else Ceil(chars as real / perLine)
  }

  /** `LinesFor` lines hold the characters, one line fewer does not. */
  lemma LinesForBounds(chars: int, perLine: real)
    requires perLine > 0.0
    ensures (LinesFor(chars, perLine) - 1) as real * perLine < chars as real <= LinesFor(chars, perLine) as real * perLine
  {
    var x := chars as real / perLine;
    var n := Ceil(x);
    CeilScaled(x, perLine, n);
    DivCancel(chars as real, perLine);
    assert x * perLine == chars as real;
    assert (n - 1) as real * perLine < chars as real;
    assert chars as real <= n as real * perLine;
  }

  /** A line count is at most another when its characters are fewer and its lines no shorter. */
  lemma LinesForMonotone(c1: int, c2: int, p1: real, p2: real)
    requires c1 <= c2 && 0.0 < p2 <= p1 && c1 >= 0
    ensures LinesFor(c1, p1) <= LinesFor(c2, p2)
  {
    var x1 := c1 as real / p1;
    var x2 := c2 as real / p2;
    DivMonotone(c1 as real, c2 as real, p2);
    DivAntitone(c1 as real, p2, p1);
    assert x1 <= c1 as real / p2 <= x2;
    CeilMonotone(x1, x2);
  }

  /** The height of `chars` characters set `perLine` to a line of height `lineHeight`. */
  function LinesHeight(chars: int, perLine: real, lineHeight: real): (r: real)
    requires perLine > 0.0 && lineHeight >= 0.0
    ensures r >= 0.0
    ensures chars <= 0 ==> r == 0.0
  {
    if chars <= 0 then 0.0
    else
      MulLe(0.0, LinesFor(chars, perLine) as real, lineHeight);
      LinesFor(chars, perLine) as real * lineHeight
  }

  /** Fewer characters, longer lines or lower lines never take more height. */
  lemma LinesHeightMonotone(c1: int, c2: int, p1: real, p2: real, h1: real, h2: real)
    requires c1 <= c2 && 0.0 < p2 <= p1 && 0.0 <= h1 <= h2
    ensures LinesHeight(c1, p1, h1) <= LinesHeight(c2, p2, h2)
  {
    if c1 > 0 {
      LinesForMonotone(c1, c2, p1, p2);
      MulMonotone(LinesFor(c1, p1) as real, LinesFor(c2, p2) as real, h1, h2);
    }
  }

  /** `compute_text_height`: nothing for no text, else `LinesFor` lines at the font's line height. */
  function TextHeight(chars: int, width: real, font: real, cm: ColumnModel): (r: real)
    requires cm.Valid() && font > 0.0
    ensures r >= 0.0
    ensures chars <= 0 ==> r == 0.0
  {
    LinesHeight(chars, Max(CharsPerLine(cm, width, font), 1.0), LineHeight(cm, font))
  }

  /** More characters never take less height. */
  lemma TextHeightMonotone(c1: int, c2: int, width: real, font: real, cm: ColumnModel)
    requires cm.Valid() && font > 0.0 && c1 <= c2
    ensures TextHeight(c1, width, font, cm) <= TextHeight(c2, width, font, cm)
  {
    var p := Max(CharsPerLine(cm, width, font), 1.0);
    LinesHeightMonotone(c1, c2, p, p, LineHeight(cm, font), LineHeight(cm, font));
  }

  /** A larger font fits fewer characters on a line. */
  lemma CharsPerLineShrinks(cm: ColumnModel, width: real, f1: real, f2: real)
    requires cm.Valid() && 0.0 < f1 <= f2
    ensures CharsPerLine(cm, width, f2) <= CharsPerLine(cm, width, f1)
  {
    var a, c, d := Max(width, 1.0), f1 * cm.charWidthFactor, f2 * cm.charWidthFactor;
    MulLe(f1, f2, cm.charWidthFactor);
    StrictMul(0.0, f1, cm.charWidthFactor);
    DivAntitone(a, c, d);
    assert CharsPerLine(cm, width, f1) == a / c && CharsPerLine(cm, width, f2) == a / d;
  }

  /** A larger font has taller lines. */
  lemma LineHeightGrows(cm: ColumnModel, f1: real, f2: real)
    requires cm.Valid() && 0.0 < f1 <= f2
    ensures LineHeight(cm, f1) <= LineHeight(cm, f2)
  {
    MulLe(f1, f2, cm.leadingFactor);
  }

  /** A larger font never takes less height: fewer characters per line, taller lines. */
  lemma TextHeightGrowsWithFont(chars: int, width: real, f1: real, f2: real, cm: ColumnModel)
    requires cm.Valid() && 0.0 < f1 <= f2
    ensures TextHeight(chars, width, f1, cm) <= TextHeight(chars, width, f2, cm)
  {
    CharsPerLineShrinks(cm, width, f1, f2);
    LineHeightGrows(cm, f1, f2);
    LinesHeightMonotone(chars, chars, Max(CharsPerLine(cm, width, f1), 1.0), Max(CharsPerLine(cm, width, f2), 1.0),
      LineHeight(cm, f1), LineHeight(cm, f2));
  }

  /**
   * `compute_image_height`: the minimum image height, scaled down in
   * proportion when the slot is narrower than the image.
   */
  function ImageHeight(slotWidth: real, image: ImageStyle): (r: real)
    ensures slotWidth >= image.widthCm * PointsPerCm ==> r == image.minHeightCm * PointsPerCm
    ensures slotWidth < image.widthCm * PointsPerCm ==>
      r * Max(image.widthCm * PointsPerCm, 1.0) == image.minHeightCm * PointsPerCm * slotWidth
  {
    var widthPt := image.widthCm * PointsPerCm;
    var heightPt := image.minHeightCm * PointsPerCm;
    if slotWidth < widthPt then heightPt * (slotWidth / Max(widthPt, 1.0)) else heightPt
  }

  /** A scaled image is never taller than the unscaled one. */
  lemma ImageHeightBounded(slotWidth: real, image: ImageStyle)
    requires slotWidth >= 0.0 && image.minHeightCm >= 0.0 && image.widthCm * PointsPerCm >= 1.0
    ensures 0.0 <= ImageHeight(slotWidth, image) <= image.minHeightCm * PointsPerCm
  {
    var widthPt := image.widthCm * PointsPerCm;
    if slotWidth < widthPt {
      DivMonotone(slotWidth, widthPt, widthPt);
      MulMonotone(0.0, image.minHeightCm * PointsPerCm, 0.0, slotWidth / widthPt);
      MulMonotone(image.minHeightCm * PointsPerCm, image.minHeightCm * PointsPerCm, slotWidth / widthPt, 1.0);
    }
  }

  /** The six parts of `compute_note_height`'s breakdown. */
  datatype NoteHeights = NoteHeights(
    title: real, body: real, image: real, titleSpacing: real, bodySpacing: real, imageSpacing: real)
  {
    function Total(): real {
      title + body + image + titleSpacing + bodySpacing + imageSpacing
    }
  }

  /** No height of a note's breakdown when it has no text and no image. */
  const NoHeights: NoteHeights := NoteHeights(0.0, 0.0, 0.0, 0.0, 0.0, 0.0)

  /**
   * `compute_note_height`: title and body text at their sizes, the image
   * when the note has one, and the spacing after each part the note has.
   */
  function NoteHeight(note: Note, slotWidth: real, fontTitle: real, fontBody: real, cm: ColumnModel, s: Settings): (r: NoteHeights)
    requires cm.Valid() && fontTitle > 0.0 && fontBody > 0.0
    ensures r.title == TextHeight(note.titleChars, slotWidth, fontTitle, cm)
    ensures r.body == TextHeight(note.bodyChars, slotWidth, fontBody, cm)
    ensures note.titleChars == 0 ==> r.titleSpacing == 0.0
    ensures note.bodyChars == 0 ==> r.bodySpacing == 0.0
    ensures !note.HasImage() ==> r.image == 0.0 && r.imageSpacing == 0.0
    ensures note.titleChars == 0 && note.bodyChars == 0 && !note.HasImage() ==> r == NoHeights
  {
    NoteHeights(
      TextHeight(note.titleChars, slotWidth, fontTitle, cm),
      TextHeight(note.bodyChars, slotWidth, fontBody, cm),
      if note.HasImage() then ImageHeight(slotWidth, s.image) else 0.0,
      if note.titleChars != 0 then s.title.spacing else 0.0,
      if note.bodyChars != 0 then s.body.spacing else 0.0,
      if note.HasImage() then s.image.spacing else 0.0)
  }

  /** Larger sizes never make a note shorter, which is why the planner tries them first. */
  lemma NoteHeightGrowsWithFonts(note: Note, slotWidth: real, t1: real, t2: real, b1: real, b2: real, cm: ColumnModel, s: Settings)
    requires cm.Valid() && 0.0 < t1 <= t2 && 0.0 < b1 <= b2
    ensures NoteHeight(note, slotWidth, t1, b1, cm, s).Total() <= NoteHeight(note, slotWidth, t2, b2, cm, s).Total()
  {
    TextHeightGrowsWithFont(note.titleChars, slotWidth, t1, t2, cm);
    TextHeightGrowsWithFont(note.bodyChars, slotWidth, b1, b2, cm);
  }

  /** The whole lines of height `lineHeight` that fit in `height`: `floor(height / lineHeight)`. */
  function FullLines(height: real, lineHeight: real): (r: int)
    requires height >= 0.0 && lineHeight > 0.0
    ensures r >= 0
  {
    DivNonNeg(height, lineHeight);
    (height / lineHeight).Floor
  }

  /** `FullLines` lines fit in the height, one more does not. */
  lemma FullLinesBounds(height: real, lineHeight: real)
    requires height >= 0.0 && lineHeight > 0.0
    ensures FullLines(height, lineHeight) as real * lineHeight <= height < (FullLines(height, lineHeight) + 1) as real * lineHeight
  {
    var x := height / lineHeight;
    var n := x.Floor;
    FloorScaled(x, lineHeight, n);
    DivCancel(height, lineHeight);
    EqualScaled(x, lineHeight, height, n);
  }

  lemma EqualScaled(x: real, l: real, h: real, n: int)
    requires x * l == h && n as real * l <= x * l < (n + 1) as real * l
    ensures n as real * l <= h < (n + 1) as real * l
  {
  }

  lemma FullLinesMonotone(h1: real, h2: real, lh: real)
    requires 0.0 <= h1 <= h2 && lh > 0.0
    ensures FullLines(h1, lh) <= FullLines(h2, lh)
  {
    DivMonotone(h1, h2, lh);
    FloorMonotone(h1 / lh, h2 / lh);
  }

  /** The whole characters that the full lines of `lineHeight` in `height` hold at `perLine` a line. */
  function LinesCapacity(height: real, lineHeight: real, perLine: real): (r: int)
    requires height >= 0.0 && lineHeight > 0.0 && perLine > 0.0
    ensures r >= 0
  {
    MulLe(0.0, FullLines(height, lineHeight) as real, perLine);
    (FullLines(height, lineHeight) as real * perLine).Floor
  }

  /** The capacity is the whole number of characters that the full lines hold. */
  lemma LinesCapacityBounds(height: real, lineHeight: real, perLine: real)
    requires height >= 0.0 && lineHeight > 0.0 && perLine > 0.0
    ensures var r := LinesCapacity(height, lineHeight, perLine);
      r as real <= FullLines(height, lineHeight) as real * perLine < (r + 1) as real
  {
  }

  lemma LinesCapacityMonotone(h1: real, h2: real, lineHeight: real, perLine: real)
    requires 0.0 <= h1 <= h2 && lineHeight > 0.0 && perLine > 0.0
    ensures LinesCapacity(h1, lineHeight, perLine) <= LinesCapacity(h2, lineHeight, perLine)
  {
    FullLinesMonotone(h1, h2, lineHeight);
    MulLe(FullLines(h1, lineHeight) as real, FullLines(h2, lineHeight) as real, perLine);
    FloorMonotone(FullLines(h1, lineHeight) as real * perLine, FullLines(h2, lineHeight) as real * perLine);
  }

  /** At most `LinesCapacity` characters, set no more densely, fit in the height. */
  lemma LinesCapacityHolds(chars: int, height: real, lineHeight: real, perLine: real, p: real)
    requires height >= 0.0 && lineHeight > 0.0 && 0.0 < perLine <= p
    requires chars <= LinesCapacity(height, lineHeight, perLine)
    ensures LinesHeight(chars, p, lineHeight) <= height
  {
    if chars > 0 {
      var lines := FullLines(height, lineHeight);
      LinesCapacityBounds(height, lineHeight, perLine);
      FullLinesBounds(height, lineHeight);
      MulLe(perLine, p, lines as real);
      var cap := LinesCapacity(height, lineHeight, perLine);
      assert chars as real <= cap as real <= lines as real * perLine;
      assert lines as real * perLine <= lines as real * p;
      LinesWithin(chars, lines, p);
      HeightWithin(chars, lines, p, lineHeight, height);
    }
  }

  lemma HeightWithin(chars: int, lines: int, p: real, lineHeight: real, height: real)
    requires p > 0.0 && lineHeight >= 0.0 && 0 <= lines && LinesFor(chars, p) <= lines
    requires lines as real * lineHeight <= height
    ensures LinesHeight(chars, p, lineHeight) <= height
  {
    if chars > 0 {
      MulLe(LinesFor(chars, p) as real, lines as real, lineHeight);
    } else {
      MulLe(0.0, lines as real, lineHeight);
    }
  }

  /** How many lines `LinesFor` needs is at most the lines that hold as many characters. */
  lemma LinesWithin(chars: int, lines: int, p: real)
    requires p > 0.0 && lines >= 0 && chars as real <= lines as real * p
    ensures LinesFor(chars, p) <= lines
  {
    var needed := LinesFor(chars, p);
    LinesForBounds(chars, p);
    assert (needed - 1) as real * p < chars as real;
    assert (needed - 1) as real * p < lines as real * p;
    MulLtCancel((needed - 1) as real, lines as real, p);
  }

  /**
   * `compute_capacity`: the body characters that fit in the whole lines of
   * the available height less the body's spacing, rounded down.
   */
  function Capacity(available: real, width: real, fontBody: real, cm: ColumnModel, s: Settings): (r: int)
    requires cm.Valid() && fontBody > 0.0
    ensures r >= 0
  {
    LinesCapacity(Max(available - s.body.spacing, 0.0), LineHeight(cm, fontBody), CharsPerLine(cm, width, fontBody))
  }

  /** More room never holds fewer characters. */
  lemma CapacityMonotone(a1: real, a2: real, width: real, fontBody: real, cm: ColumnModel, s: Settings)
    requires cm.Valid() && fontBody > 0.0 && a1 <= a2
    ensures Capacity(a1, width, fontBody, cm, s) <= Capacity(a2, width, fontBody, cm, s)
  {
    LinesCapacityMonotone(Max(a1 - s.body.spacing, 0.0), Max(a2 - s.body.spacing, 0.0),
      LineHeight(cm, fontBody), CharsPerLine(cm, width, fontBody));
  }

  /**
   * Capacity means what it says: a body of at most that many characters
   * needs no more height than the room left after the body's spacing.
   */
  lemma CapacityHolds(chars: int, available: real, width: real, fontBody: real, cm: ColumnModel, s: Settings)
    requires cm.Valid() && fontBody > 0.0
    requires chars <= Capacity(available, width, fontBody, cm, s)
    ensures TextHeight(chars, width, fontBody, cm) <= Max(available - s.body.spacing, 0.0)
  {
    var cpl := CharsPerLine(cm, width, fontBody);
    LinesCapacityHolds(chars, Max(available - s.body.spacing, 0.0), LineHeight(cm, fontBody), cpl, Max(cpl, 1.0));
  }
}
