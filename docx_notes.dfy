/**
 * Splitting a Word document into notes: a paragraph whose runs are at least
 * 80% bold starts a note and gives its title; the plain paragraphs after it
 * form the body; text before the first title belongs to no note.
 */
module DocxNotes {
  import opened Wrappers
  import opened Text
  import opened Sorting

  /** A run of a paragraph: its text (`run.text or ""`) and whether `run.bold` is set. */
  datatype Run = Run(text: string, bold: bool)

  /** A paragraph: its text (`paragraph.text or ""`) and its runs. */
  datatype Paragraph = Paragraph(text: string, runs: seq<Run>)

  /** A note as extracted: its title and its body. */
  datatype NoteText = NoteText(title: string, body: string)

  /** Characters over all runs. */
  function RunChars(runs: seq<Run>): nat {
    if runs == [] then 0 else RunChars(runs[..|runs| - 1]) + |runs[|runs| - 1].text|
  }

  /** Characters over the bold runs. */
  function BoldChars(runs: seq<Run>): (r: nat)
    ensures r <= RunChars(runs)
  {
    if runs == [] then 0
    else BoldChars(runs[..|runs| - 1]) + (if runs[|runs| - 1].bold then |runs[|runs| - 1].text| else 0)
  }

  /** The condition of `is_paragraph_bold`: non-blank text and a bold share of at least 0.8. */
  predicate ParagraphIsBold(p: Paragraph) {
    && Strip(p.text) != []
    && RunChars(p.runs) > 0
    && (BoldChars(p.runs) as real) / (RunChars(p.runs) as real) >= 0.8
  }

  /** A paragraph is bold exactly when its text is not blank and five bold characters of its runs are worth four of all. */
  lemma ParagraphIsBoldMeaning(p: Paragraph)
    ensures ParagraphIsBold(p) <==> !IsBlank(p.text) && RunChars(p.runs) > 0 && 5 * BoldChars(p.runs) >= 4 * RunChars(p.runs)
  {
    StripEmptyIffBlank(p.text);
    var b, t := BoldChars(p.runs) as real, RunChars(p.runs) as real;
    if t > 0.0 {
      FourFifths(b, t);
    }
  }

  lemma FourFifths(b: real, t: real)
    requires t > 0.0
    ensures b / t >= 0.8 <==> 5.0 * b >= 4.0 * t
  {
    calc {
      5.0 * b;
      5.0 * (b / t) * t;
    }
    if b / t >= 0.8 {
      assert (b / t) * t >= 0.8 * t;
    } else {
      assert (b / t) * t < 0.8 * t;
    }
  }

  /** `is_paragraph_bold(paragraph)`: counts run characters and bold run characters. */
  method IsParagraphBold(p: Paragraph) returns (bold: bool)
    ensures bold == ParagraphIsBold(p)
  {
    if Strip(p.text) == [] {
      return false;
    }
    var total, boldChars := 0, 0;
    var i := 0;
    while i < |p.runs|
      invariant 0 <= i <= |p.runs|
      invariant total == RunChars(p.runs[..i]) && boldChars == BoldChars(p.runs[..i])
    {
      assert p.runs[..i + 1][..i] == p.runs[..i];
      total := total + |p.runs[i].text|;
      if p.runs[i].bold {
        boldChars := boldChars + |p.runs[i].text|;
      }
      i := i + 1;
    }
    assert p.runs[..i] == p.runs;
    if total == 0 {
      return false;
    }
    bold := (boldChars as real) / (total as real) >= 0.8;
  }

  /** What one paragraph contributes: nothing (blank), a title, or a body line; texts stripped. */
  datatype Token = Skip | Heading(text: string) | Line(text: string)

  function Kind(p: Paragraph): (t: Token)
    ensures t.Skip? <==> Strip(p.text) == []
    ensures t.Heading? <==> Strip(p.text) != [] && ParagraphIsBold(p)
    ensures !t.Skip? ==> t.text == Strip(p.text)
  {
    var text := Strip(p.text);
    if text == [] then Skip else if ParagraphIsBold(p) then Heading(text) else Line(text)
  }

  function Tokens(ps: seq<Paragraph>): (ts: seq<Token>)
    ensures |ts| == |ps|
    ensures forall i :: 0 <= i < |ps| ==> ts[i] == Kind(ps[i])
  {
    MapSeq(ps, Kind)
  }

  /** A note before its body is joined: its title and its body lines. */
  datatype RawNote = RawNote(title: string, lines: seq<string>)

  /** The state of the extraction loop: notes so far, the open title and its body lines. */
  datatype Scan = Scan(notes: seq<RawNote>, title: Option<string>, body: seq<string>)

  const Start := Scan([], None, [])

  /** The open note, closed. */
  function Close(st: Scan): seq<RawNote> {
    match st.title
    case None => []
    case Some(t) => [RawNote(t, st.body)]
  }

  /** One paragraph of the extraction loop. */
  function Step(st: Scan, tok: Token): Scan {
    match tok
    case Skip => st
    case Heading(text) => Scan(st.notes + Close(st), Some(text), [])
    case Line(text) => if st.title.None? then st else Scan(st.notes, st.title, st.body + [text])
  }

  function Fold(st: Scan, ts: seq<Token>): Scan
    decreases |ts|
  {
    if ts == [] then st else Fold(Step(st, ts[0]), ts[1..])
  }

  /** `(title, "\n".join(body).strip())`. */
  function Joined(raw: RawNote): NoteText {
    NoteText(raw.title, Strip(Join(raw.lines, "\n")))
  }

  function JoinAll(raw: seq<RawNote>): seq<NoteText> {
    MapSeq(raw, Joined)
  }

  function Collect(ts: seq<Token>): seq<RawNote> {
    var st := Fold(Start, ts);
    st.notes + Close(st)
  }

  /** What `extract_notes_from_document` returns for the paragraphs `ps`. */
  function ExtractNotes(ps: seq<Paragraph>): seq<NoteText> {
    JoinAll(Collect(Tokens(ps)))
  }

  /** The loop body's tests on one paragraph: blank, bold, or plain. */
  method Classify(p: Paragraph) returns (tok: Token)
    ensures tok == Kind(p)
  {
    var text := Strip(p.text);
    if text == [] {
      return Skip;
    }
    var bold := IsParagraphBold(p);
    tok := if bold then Heading(text) else Line(text);
  }

  /** `(current_title, "\n".join(current_body).strip())`. */
  method CloseNote(title: string, body: seq<string>) returns (note: NoteText)
    ensures note == Joined(RawNote(title, body))
  {
    note := NoteText(title, Strip(Join(body, "\n")));
  }

  /** One paragraph's update of the open title, its body and the finished notes. */
  method Advance(ghost raw: seq<RawNote>, notes: seq<NoteText>, title: Option<string>, body: seq<string>, tok: Token)
    returns (ghost raw': seq<RawNote>, notes': seq<NoteText>, title': Option<string>, body': seq<string>)
    requires notes == JoinAll(raw)
    ensures notes' == JoinAll(raw')
    ensures Scan(raw', title', body') == Step(Scan(raw, title, body), tok)
  {
    raw', notes', title', body' := raw, notes, title, body;
    match tok {
      case Skip =>
      case Heading(text) =>
        if title.Some? {
          var note := CloseNote(title.value, body);
          JoinAllSnoc(raw, RawNote(title.value, body));
          notes' := notes + [note];
          raw' := raw + [RawNote(title.value, body)];
        }
        title' := Some(text);
        body' := [];
      case Line(text) =>
        if title.Some? {
          body' := body + [text];
        }
    }
  }

  /** `extract_notes_from_document(doc)`. */
  method ExtractNotesFromDocument(ps: seq<Paragraph>) returns (notes: seq<NoteText>)
    ensures notes == ExtractNotes(ps)
  {
    notes := ExtractWith(ps, Kind);
  }

  /**
   * The loop of `extract_notes_from_document` over the paragraphs with the
   * open title and body, for a classification `kind` of the paragraphs
   * (`Kind`, which `Classify` computes).
   */
  method ExtractWith(ps: seq<Paragraph>, kind: Paragraph -> Token) returns (notes: seq<NoteText>)
    ensures notes == JoinAll(Collect(MapSeq(ps, kind)))
  {
    notes := [];
    ghost var raw: seq<RawNote> := [];
    var title: Option<string> := None;
    var body: seq<string> := [];
    ghost var ts := MapSeq(ps, kind);
    var i := 0;
    assert ts[i..] == ts;
    while i < |ps|
      invariant 0 <= i <= |ps|
      invariant notes == JoinAll(raw)
      invariant Fold(Scan(raw, title, body), ts[i..]) == Fold(Start, ts)
    {
      var tok := kind(ps[i]);
      assert ts[i..] == [tok] + ts[i + 1..];
      FoldCons(Scan(raw, title, body), tok, ts[i + 1..]);
      raw, notes, title, body := Advance(raw, notes, title, body, tok);
      i := i + 1;
    }
    if title.Some? {
      var note := CloseNote(title.value, body);
      JoinAllSnoc(raw, RawNote(title.value, body));
      notes := notes + [note];
      raw := raw + [RawNote(title.value, body)];
    }
    assert raw == Collect(ts);
  }

  lemma JoinAllSnoc(raw: seq<RawNote>, x: RawNote)
    ensures JoinAll(raw + [x]) == JoinAll(raw) + [Joined(x)]
  {
    MapSeqSnoc(raw, x, Joined);
  }

  /** The title tokens, in order. */
  function Headings(ts: seq<Token>): seq<string>
    decreases |ts|
  {
    if ts == [] then [] else (if ts[0].Heading? then [ts[0].text] else []) + Headings(ts[1..])
  }

  /** The stripped texts of the paragraphs that start notes, in order. */
  function Titles(ps: seq<Paragraph>): seq<string> {
    Headings(Tokens(ps))
  }

  function TitlesOf(notes: seq<RawNote>): (r: seq<string>)
    ensures |r| == |notes|
    ensures forall k :: 0 <= k < |notes| ==> r[k] == notes[k].title
  {
    seq(|notes|, k requires 0 <= k < |notes| => notes[k].title)
  }

  function OpenTitle(st: Scan): seq<string> {
    if st.title.Some? then [st.title.value] else []
  }

  lemma TitlesOfAppend(a: seq<RawNote>, b: seq<RawNote>)
    ensures TitlesOf(a + b) == TitlesOf(a) + TitlesOf(b)
  {
  }

  lemma StepTitles(st: Scan, tok: Token)
    ensures TitlesOf(Step(st, tok).notes) + OpenTitle(Step(st, tok))
         == TitlesOf(st.notes) + OpenTitle(st) + (if tok.Heading? then [tok.text] else [])
  {
    if tok.Heading? {
      TitlesOfAppend(st.notes, Close(st));
    }
  }

  lemma {:induction false} FoldTitles(st: Scan, ts: seq<Token>)
    ensures TitlesOf(Fold(st, ts).notes) + OpenTitle(Fold(st, ts)) == TitlesOf(st.notes) + OpenTitle(st) + Headings(ts)
    decreases |ts|
  {
    if ts != [] {
      StepTitles(st, ts[0]);
      FoldTitles(Step(st, ts[0]), ts[1..]);
    }
  }

  /** The collected notes carry the title tokens, in order. */
  lemma CollectTitles(ts: seq<Token>)
    ensures TitlesOf(Collect(ts)) == Headings(ts)
  {
    var st := Fold(Start, ts);
    FoldTitles(Start, ts);
    TitlesOfAppend(st.notes, Close(st));
    assert TitlesOf(Close(st)) == OpenTitle(st);
  }

  /** Joining the body lines keeps each note's title. */
  lemma JoinAllTitles(raw: seq<RawNote>)
    ensures |JoinAll(raw)| == |raw|
    ensures forall k :: 0 <= k < |raw| ==> JoinAll(raw)[k].title == raw[k].title
  {
  }

  /** There is one note per bold, non-blank paragraph, titled by its stripped text, in document order. */
  lemma ExtractTitles(ps: seq<Paragraph>)
    ensures |ExtractNotes(ps)| == |Titles(ps)|
    ensures forall k :: 0 <= k < |Titles(ps)| ==> ExtractNotes(ps)[k].title == Titles(ps)[k]
  {
    var raw := Collect(Tokens(ps));
    CollectTitles(Tokens(ps));
    JoinAllTitles(raw);
    assert |raw| == |TitlesOf(raw)|;
  }

  /** No paragraph of `ps` starts a note. */
  predicate Plain(ps: seq<Paragraph>) {
    forall i :: 0 <= i < |ps| ==> !Kind(ps[i]).Heading?
  }

  lemma {:induction false} FoldAppend(st: Scan, a: seq<Token>, b: seq<Token>)
    ensures Fold(st, a + b) == Fold(Fold(st, a), b)
    decreases |a|
  {
    if a != [] {
      assert (a + b)[1..] == a[1..] + b;
      FoldAppend(Step(st, a[0]), a[1..], b);
    } else {
      assert a + b == b;
    }
  }

  lemma {:induction false} NoHeadingKeepsStart(ts: seq<Token>)
    requires forall i :: 0 <= i < |ts| ==> !ts[i].Heading?
    ensures Fold(Start, ts) == Start
    decreases |ts|
  {
    if ts != [] {
      assert Step(Start, ts[0]) == Start;
      NoHeadingKeepsStart(ts[1..]);
    }
  }

  lemma TokensAppend(a: seq<Paragraph>, b: seq<Paragraph>)
    ensures Tokens(a + b) == Tokens(a) + Tokens(b)
  {
    MapSeqAppend(a, b, Kind);
  }

  /** Text before the first title is ignored. */
  lemma IgnoresTextBeforeFirstTitle(before: seq<Paragraph>, ps: seq<Paragraph>)
    requires Plain(before)
    ensures ExtractNotes(before + ps) == ExtractNotes(ps)
  {
    TokensAppend(before, ps);
    FoldAppend(Start, Tokens(before), Tokens(ps));
    NoHeadingKeepsStart(Tokens(before));
  }

  /** The texts of the body lines, in order. */
  function Lines(ts: seq<Token>): seq<string>
    decreases |ts|
  {
    if ts == [] then [] else (if ts[0].Line? then [ts[0].text] else []) + Lines(ts[1..])
  }

  /** The stripped texts of the non-blank paragraphs. */
  function Texts(ps: seq<Paragraph>): seq<string> {
    Lines(Tokens(ps))
  }

  lemma {:induction false} FoldBody(t: string, notes: seq<RawNote>, body: seq<string>, ts: seq<Token>)
    requires forall i :: 0 <= i < |ts| ==> !ts[i].Heading?
    ensures Fold(Scan(notes, Some(t), body), ts) == Scan(notes, Some(t), body + Lines(ts))
    decreases |ts|
  {
    if ts == [] {
      assert body + [] == body;
    } else {
      var line := if ts[0].Line? then [ts[0].text] else [];
      var next := body + line;
      assert Step(Scan(notes, Some(t), body), ts[0]) == Scan(notes, Some(t), next);
      FoldBody(t, notes, next, ts[1..]);
      assert Lines(ts) == line + Lines(ts[1..]);
      Associate(body, line, Lines(ts[1..]));
    }
  }

  lemma Associate<T>(a: seq<T>, b: seq<T>, c: seq<T>)
    ensures (a + b) + c == a + (b + c)
  {
  }

  lemma FoldCons(st: Scan, tok: Token, ts: seq<Token>)
    ensures Fold(st, [tok] + ts) == Fold(Step(st, tok), ts)
  {
    assert ([tok] + ts)[1..] == ts;
  }

  lemma HeadingThenLines(t: string, ts: seq<Token>)
    requires forall i :: 0 <= i < |ts| ==> !ts[i].Heading?
    ensures Collect([Heading(t)] + ts) == [RawNote(t, Lines(ts))]
  {
    FoldCons(Start, Heading(t), ts);
    assert Step(Start, Heading(t)) == Scan([], Some(t), []);
    FoldBody(t, [], [], ts);
    assert [] + Lines(ts) == Lines(ts);
    assert Fold(Start, [Heading(t)] + ts) == Scan([], Some(t), Lines(ts));
  }

  /** A title paragraph followed by plain paragraphs makes one note whose body joins their texts by newlines. */
  lemma OneNote(title: Paragraph, ps: seq<Paragraph>)
    requires Kind(title).Heading?
    requires Plain(ps)
    ensures ExtractNotes([title] + ps) == [NoteText(Strip(title.text), Strip(Join(Texts(ps), "\n")))]
  {
    var t := Strip(title.text);
    var rest := Tokens(ps);
    TokensAppend([title], ps);
    assert Tokens([title]) == [Heading(t)];
    HeadingThenLines(t, rest);
    assert Lines(rest) == Texts(ps);
  }
}
