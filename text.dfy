/**
 * The handful of Python string operations the core relies on, written out on
 * `seq<char>`: `str.isspace`, `strip`, `split()` without arguments, ASCII
 * `lower`, `startswith`, decimal digits and `str(int)`, `"sep".join`.
 */
module Text {

  /** The characters for which Python's `str.isspace()` holds. */
  predicate IsSpace(c: char) {
    c == ' ' || ('\t' <= c <= '\r') || ('\U{1C}' <= c <= '\U{1F}')
    || c == '\U{85}' || c == '\U{A0}' || c == '\U{1680}'
    || ('\U{2000}' <= c <= '\U{200A}') || c == '\U{2028}' || c == '\U{2029}'
    || c == '\U{202F}' || c == '\U{205F}' || c == '\U{3000}'
  }

  predicate IsBlank(s: string) {
    forall i :: 0 <= i < |s| ==> IsSpace(s[i])
  }

  /** `s.lstrip()`: the suffix left after dropping leading whitespace. */
  function TrimLeft(s: string): (r: string)
    ensures |r| <= |s| && r == s[|s| - |r|..]
    ensures forall i :: 0 <= i < |s| - |r| ==> IsSpace(s[i])
    ensures r != [] ==> !IsSpace(r[0])
  {
    if |s| > 0 && IsSpace(s[0]) then TrimLeft(s[1..]) else s
  }

  /** `s.rstrip()`: the prefix left after dropping trailing whitespace. */
  function TrimRight(s: string): (r: string)
    ensures |r| <= |s| && r == s[..|r|]
    ensures forall i :: |r| <= i < |s| ==> IsSpace(s[i])
    ensures r != [] ==> !IsSpace(r[|r| - 1])
  {
    if |s| > 0 && IsSpace(s[|s| - 1]) then TrimRight(s[..|s| - 1]) else s
  }

  /** `s.strip()`. */
  function Strip(s: string): (r: string)
    ensures r != [] ==> !IsSpace(r[0]) && !IsSpace(r[|r| - 1])
  {
    TrimRight(TrimLeft(s))
  }

  lemma TrimLeftNoop(s: string)
    requires s == [] || !IsSpace(s[0])
    ensures TrimLeft(s) == s
  {
  }

  lemma TrimRightNoop(s: string)
    requires s == [] || !IsSpace(s[|s| - 1])
    ensures TrimRight(s) == s
  {
  }

  /** Stripping twice is stripping once. */
  lemma StripIdempotent(s: string)
    ensures Strip(Strip(s)) == Strip(s)
  {
    var r := Strip(s);
    TrimLeftNoop(r);
    TrimRightNoop(r);
  }

  /** `s.strip()` is empty exactly when `s` holds whitespace only. */
  lemma StripEmptyIffBlank(s: string)
    ensures Strip(s) == [] <==> IsBlank(s)
  {
    if IsBlank(s) {
      BlankStripsToEmpty(s);
    } else {
      var k :| 0 <= k < |s| && !IsSpace(s[k]);
      KeptByStrip(s, k);
    }
  }

  /** A non-whitespace character survives `strip`. */
  lemma KeptByStrip(s: string, k: nat)
    requires k < |s| && !IsSpace(s[k])
    ensures Strip(s) != []
  {
    var t := TrimLeft(s);
    var j := k - (|s| - |t|);
    assert t[j] == s[k];
    assert j < |TrimRight(t)|;
  }

  lemma {:induction false} BlankStripsToEmpty(s: string)
    requires IsBlank(s)
    ensures TrimLeft(s) == [] && Strip(s) == []
  {
    if s != [] {
      BlankStripsToEmpty(s[1..]);
    }
  }

  /** The longest prefix of `s` without whitespace. */
  function TakeWord(s: string): (r: string)
    ensures |r| <= |s| && r == s[..|r|]
    ensures forall i :: 0 <= i < |r| ==> !IsSpace(r[i])
    ensures |r| < |s| ==> IsSpace(s[|r|])
  {
    if |s| > 0 && !IsSpace(s[0]) then [s[0]] + TakeWord(s[1..]) else []
  }

  predicate IsWord(w: string) {
    w != [] && forall i :: 0 <= i < |w| ==> !IsSpace(w[i])
  }

  /** `s.split()`: the maximal runs of non-whitespace characters, in order. */
  function Words(s: string): seq<string>
    decreases |s|
  {
    var t := TrimLeft(s);
    if t == [] then
      []
    else
      var w := TakeWord(t);
      assert w != [] && IsWord(w);
      var rest := t[|w|..];
      assert |rest| < |s|;
      [w] + Words(rest)
  }

  /** Every piece of the split is a non-empty run of non-whitespace. */
  lemma {:induction false} WordsAreWords(s: string)
    ensures forall k :: 0 <= k < |Words(s)| ==> IsWord(Words(s)[k])
    decreases |s|
  {
    var t := TrimLeft(s);
    if t != [] {
      var w := TakeWord(t);
      var rest := t[|w|..];
      WordsAreWords(rest);
      assert Words(s) == [w] + Words(rest);
    }
  }

  /** A string of whitespace only has no words. */
  lemma WordsOfBlank(s: string)
    requires IsBlank(s)
    ensures Words(s) == []
  {
    BlankStripsToEmpty(s);
  }

  lemma {:induction false} TakeWordOfWord(w: string, rest: string)
    requires IsWord(w)
    requires rest == [] || IsSpace(rest[0])
    ensures TakeWord(w + rest) == w
  {
    if |w| > 1 {
      assert (w + rest)[1..] == w[1..] + rest;
      TakeWordOfWord(w[1..], rest);
    } else {
      assert (w + rest)[1..] == rest;
    }
  }

  /** Leading whitespace does not change the word split. */
  lemma WordsSkipSpace(c: char, tail: string)
    requires IsSpace(c)
    ensures Words([c] + tail) == Words(tail)
  {
    assert ([c] + tail)[1..] == tail;
  }

  /** A word followed by a space starts the word split. */
  lemma WordsCons(w: string, tail: string)
    requires IsWord(w)
    ensures Words(w + " " + tail) == [w] + Words(tail)
  {
    var s := w + " " + tail;
    assert s == w + (" " + tail);
    TrimLeftNoop(s);
    TakeWordOfWord(w, " " + tail);
    assert s[|w|..] == " " + tail;
    WordsSkipSpace(' ', tail);
  }

  lemma WordsOfWord(w: string)
    requires IsWord(w)
    ensures Words(w) == [w]
  {
    TrimLeftNoop(w);
    TakeWordOfWord(w, []);
    assert w + [] == w;
    assert w[|w|..] == [];
  }

  /** Splitting words joined by single spaces gives the words back. */
  lemma {:induction false} WordsOfJoin(ws: seq<string>)
    requires forall k :: 0 <= k < |ws| ==> IsWord(ws[k])
    ensures Words(Join(ws, " ")) == ws
  {
    if |ws| == 1 {
      WordsOfWord(ws[0]);
    } else if |ws| > 1 {
      var tail := ws[1..];
      AllWordsTail(ws);
      var j := Join(tail, " ");
      calc {
        Words(Join(ws, " "));
        Words(ws[0] + " " + j);
        { WordsCons(ws[0], j); }
        [ws[0]] + Words(j);
        { WordsOfJoin(tail); }
        [ws[0]] + tail;
        ws;
      }
    } else {
      assert Join(ws, " ") == [];
    }
  }

  lemma AllWordsTail(ws: seq<string>)
    requires ws != []
    requires forall k :: 0 <= k < |ws| ==> IsWord(ws[k])
    ensures forall k :: 0 <= k < |ws[1..]| ==> IsWord(ws[1..][k])
  {
    forall k | 0 <= k < |ws[1..]| ensures IsWord(ws[1..][k]) {
      assert ws[1..][k] == ws[k + 1];
    }
  }

  /** Python's `str.lower()` restricted to ASCII letters. */
  function LowerChar(c: char): char {
    if 'A' <= c <= 'Z' then (c as int + 32) as char else c
  }

  function Lower(s: string): (r: string)
    ensures |r| == |s|
    ensures forall i :: 0 <= i < |s| ==> r[i] == LowerChar(s[i])
  {
    seq(|s|, i requires 0 <= i < |s| => LowerChar(s[i]))
  }

  lemma LowerCharIdempotent(c: char)
    ensures LowerChar(LowerChar(c)) == LowerChar(c)
  {
  }

  /** Lower-casing neither creates nor removes whitespace. */
  lemma LowerCharKeepsSpace(c: char)
    ensures IsSpace(LowerChar(c)) == IsSpace(c)
  {
  }

  lemma LowerIdempotent(s: string)
    ensures Lower(Lower(s)) == Lower(s)
  {
    var t := Lower(s);
    forall i | 0 <= i < |s| ensures Lower(t)[i] == t[i] {
      LowerCharIdempotent(s[i]);
    }
  }

  /** Lower-casing a stripped string leaves it stripped. */
  lemma StripLower(s: string)
    requires Strip(s) == s
    ensures Strip(Lower(s)) == Lower(s)
  {
    var t := Lower(s);
    if s != [] {
      LowerCharKeepsSpace(s[0]);
      LowerCharKeepsSpace(s[|s| - 1]);
      assert !IsSpace(t[0]) && !IsSpace(t[|t| - 1]);
    }
    TrimLeftNoop(t);
    TrimRightNoop(t);
  }

  predicate StartsWith(s: string, prefix: string) {
    |prefix| <= |s| && s[..|prefix|] == prefix
  }

  /** `s.replace(a, b)` for single characters. */
  function ReplaceChar(s: string, a: char, b: char): (r: string)
    ensures |r| == |s|
    ensures forall i :: 0 <= i < |s| ==> r[i] == (if s[i] == a then b else s[i])
  {
    seq(|s|, i requires 0 <= i < |s| => if s[i] == a then b else s[i])
  }

  /** `sep.join(parts)`. */
  function Join(parts: seq<string>, sep: string): string {
    if parts == [] then []
    else if |parts| == 1 then parts[0]
    else parts[0] + sep + Join(parts[1..], sep)
  }

  predicate IsDigit(c: char) {
    '0' <= c <= '9'
  }

  predicate AllDigits(s: string) {
    forall i :: 0 <= i < |s| ==> IsDigit(s[i])
  }

  /** The value of a string of decimal digits, most significant first. */
  function DigitsValue(s: string): nat
    requires AllDigits(s)
  {
    if s == [] then 0 else DigitsValue(s[..|s| - 1]) * 10 + (s[|s| - 1] as int - '0' as int)
  }

  /** Python's `str(n)` for a non-negative integer. */
  function NatToString(n: nat): (r: string)
    ensures r != [] && AllDigits(r)
  {
    if n < 10 then [('0' as int + n) as char]
    else NatToString(n / 10) + [('0' as int + n % 10) as char]
  }

  /** Python's `str(i)` for any integer. */
  function IntToString(i: int): string {
    if i < 0 then "-" + NatToString(-i) else NatToString(i)
  }

  /** Reading back what `str(n)` printed gives `n`. */
  lemma {:induction false} NatToStringRoundTrip(n: nat)
    ensures DigitsValue(NatToString(n)) == n
  {
    var r := NatToString(n);
    if n >= 10 {
      NatToStringRoundTrip(n / 10);
      assert r[..|r| - 1] == NatToString(n / 10);
    }
  }
}
