/**
 * How the planner matches pages: `normalize_page_key` (strip, then collapse
 * every whitespace run to one space) and `first_int_in_string` (the first run
 * of decimal digits as a number).
 */
module PageKeys {
  import opened Wrappers
  import opened Text

  /** `re.sub(r"\s+", " ", s)`: every maximal whitespace run becomes one space. */
  function Collapse(s: string): string
    decreases |s|
  {
    if s == [] then []
    else if IsSpace(s[0]) then " " + Collapse(TrimLeft(s))
    else [s[0]] + Collapse(s[1..])
  }

  /** `normalize_page_key(value)`. */
  function NormalizePageKey(value: string): string {
    var v := Strip(value);
    if v == [] then v else Collapse(v)
  }

  predicate Stripped(s: string) {
    s == [] || (!IsSpace(s[0]) && !IsSpace(s[|s| - 1]))
  }

  lemma {:induction false} CollapseWord(w: string, rest: string)
    requires forall i :: 0 <= i < |w| ==> !IsSpace(w[i])
    ensures Collapse(w + rest) == w + Collapse(rest)
    decreases |w|
  {
    if w != [] {
      assert (w + rest)[1..] == w[1..] + rest;
      CollapseWord(w[1..], rest);
    } else {
      assert w + rest == rest;
    }
  }

  /** The words of `s` are those of `s` without its leading whitespace. */
  lemma WordsAfterSpace(s: string)
    ensures Words(s) == Words(TrimLeft(s))
  {
    TrimLeftNoop(TrimLeft(s));
  }

  lemma WordsOfWordStart(s: string)
    requires s != [] && !IsSpace(s[0])
    ensures Words(s) == [TakeWord(s)] + Words(s[|TakeWord(s)|..])
  {
    TrimLeftNoop(s);
  }

  /** After the first word of a stripped string comes either nothing or spaces and a stripped rest. */
  lemma AfterFirstWord(s: string)
    requires Stripped(s) && s != []
    requires |TakeWord(s)| < |s|
    ensures var rest := s[|TakeWord(s)|..];
      && IsSpace(rest[0])
      && TrimLeft(rest) != [] && Stripped(TrimLeft(rest)) && |TrimLeft(rest)| < |s|
  {
    var rest := s[|TakeWord(s)|..];
    var t := TrimLeft(rest);
    assert rest[|rest| - 1] == s[|s| - 1];
    assert t != [];
    assert t[|t| - 1] == rest[|rest| - 1];
  }

  lemma JoinCons(w: string, ws: seq<string>)
    requires ws != []
    ensures Join([w] + ws, " ") == w + (" " + Join(ws, " "))
  {
    assert ([w] + ws)[1..] == ws;
    assert w + " " + Join(ws, " ") == w + (" " + Join(ws, " "));
  }

  lemma {:induction false} CollapseIsJoin(s: string)
    requires Stripped(s)
    ensures Collapse(s) == Join(Words(s), " ")
    decreases |s|
  {
    if s != [] {
      var w := TakeWord(s);
      var rest := s[|w|..];
      assert s == w + rest;
      WordsOfWordStart(s);
      CollapseWord(w, rest);
      if rest == [] {
        calc {
          Collapse(s);
          w + Collapse(rest);
          w;
          Join([w], " ");
          { assert Words(rest) == []; }
          Join(Words(s), " ");
        }
      } else {
        AfterFirstWord(s);
        var t := TrimLeft(rest);
        calc {
          Collapse(s);
          w + Collapse(rest);
          w + (" " + Collapse(t));
          { CollapseIsJoin(t); }
          w + (" " + Join(Words(t), " "));
          { assert Words(t) != []; JoinCons(w, Words(t)); }
          Join([w] + Words(t), " ");
          { WordsAfterSpace(rest); }
          Join(Words(s), " ");
        }
      }
    }
  }

  /** `normalize_page_key` joins the words of the stripped key with single spaces. */
  lemma NormalizeIsJoin(value: string)
    ensures NormalizePageKey(value) == Join(Words(Strip(value)), " ")
  {
    var v := Strip(value);
    CollapseIsJoin(v);
  }

  /** Words joined by spaces neither start nor end with whitespace. */
  lemma {:induction false} JoinStripped(ws: seq<string>)
    requires forall k :: 0 <= k < |ws| ==> IsWord(ws[k])
    ensures Stripped(Join(ws, " "))
    ensures ws != [] ==> Join(ws, " ") != []
  {
    if |ws| > 1 {
      AllWordsTail(ws);
      JoinStripped(ws[1..]);
      var j := Join(ws[1..], " ");
      assert Join(ws, " ") == ws[0] + (" " + j);
      assert Join(ws, " ")[0] == ws[0][0];
    }
  }

  /** Normalizing a normalized key changes nothing. */
  lemma NormalizeIdempotent(value: string)
    ensures NormalizePageKey(NormalizePageKey(value)) == NormalizePageKey(value)
  {
    var ws := Words(Strip(value));
    WordsAreWords(Strip(value));
    NormalizeIsJoin(value);
    var j := Join(ws, " ");
    JoinStripped(ws);
    TrimLeftNoop(j);
    TrimRightNoop(j);
    assert Strip(j) == j;
    NormalizeIsJoin(j);
    WordsOfJoin(ws);
  }

  /** The longest prefix of `s` made of decimal digits. */
  function DigitRun(s: string): (r: string)
    ensures |r| <= |s| && r == s[..|r|] && AllDigits(r)
    ensures |r| < |s| ==> !IsDigit(s[|r|])
  {
    if s != [] && IsDigit(s[0]) then [s[0]] + DigitRun(s[1..]) else []
  }

  /** `first_int_in_string(value)`: the value of the first run of digits, None without digits. */
  function FirstIntInString(value: string): (r: Option<nat>)
    ensures r.Some? <==> exists i :: 0 <= i < |value| && IsDigit(value[i])
  {
    if value == [] then None
    else if IsDigit(value[0]) then Some(DigitsValue(DigitRun(value)))
    else
      var r := FirstIntInString(value[1..]);
      assert forall i :: 0 < i < |value| ==> value[i] == value[1..][i - 1];
      r
  }

  lemma {:induction false} DigitRunOfDigits(d: string, suffix: string)
    requires AllDigits(d)
    requires suffix == [] || !IsDigit(suffix[0])
    ensures DigitRun(d + suffix) == d
    decreases |d|
  {
    if d != [] {
      assert (d + suffix)[1..] == d[1..] + suffix;
      DigitRunOfDigits(d[1..], suffix);
    } else {
      assert d + suffix == suffix;
    }
  }

  /** A number written out after text without digits is the first integer found. */
  lemma {:induction false} FirstIntOfWrittenNumber(prefix: string, n: nat, suffix: string)
    requires forall i :: 0 <= i < |prefix| ==> !IsDigit(prefix[i])
    requires suffix == [] || !IsDigit(suffix[0])
    ensures FirstIntInString(prefix + NatToString(n) + suffix) == Some(n)
    decreases |prefix|
  {
    var s := prefix + NatToString(n) + suffix;
    if prefix == [] {
      assert s == NatToString(n) + suffix;
      DigitRunOfDigits(NatToString(n), suffix);
      NatToStringRoundTrip(n);
    } else {
      assert s[1..] == prefix[1..] + NatToString(n) + suffix;
      FirstIntOfWrittenNumber(prefix[1..], n, suffix);
    }
  }
}
