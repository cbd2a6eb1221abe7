/**
 * Word-level case normalisation applied to every location name
 * (`CapitalizeUtil.capitalizeWords`): double quotes are dropped, the text is
 * split at runs of whitespace, tokens of at most two characters are upper-cased,
 * longer tokens get an upper-case first character and a lower-case rest, and
 * the tokens are joined by single spaces.
 */
module Capitalize {
  import opened Wrappers
  import opened Text

  predicate NotSpace(c: char) { !IsRegexSpace(c) }

  predicate NotQuote(c: char) { c != '"' }

  /** Above U+0020: neither the split nor `trim` removes it. */
  predicate Visible(c: char) { c > ' ' }

  predicate VisibleOrSpace(c: char) { c > ' ' || IsRegexSpace(c) }

  /** Every character of `s` has property `p`. */
  ghost predicate All(s: string, p: char -> bool)
  {
    forall i :: 0 <= i < |s| ==> p(s[i])
  }

  /** No control character: each character is above U+0020 or is whitespace the split removes. */
  ghost predicate NoControl(s: string)
  {
    All(s, VisibleOrSpace)
  }

  /** No leading or trailing whitespace, and every whitespace character is a lone space between two words. */
  ghost predicate SingleSpaced(r: string)
  {
    && (r != [] ==> r[0] > ' ' && r[|r| - 1] > ' ')
    && forall i :: 0 <= i < |r| && IsRegexSpace(r[i]) ==>
         r[i] == ' ' && 0 < i < |r| - 1 && !IsRegexSpace(r[i - 1]) && !IsRegexSpace(r[i + 1])
  }

  /** `input.replace("\"", "")`. */
  function StripQuotes(s: string): (r: string)
    ensures '"' !in r
    ensures '"' !in s ==> r == s
  {
    if s == [] then [] else (if s[0] == '"' then [] else [s[0]]) + StripQuotes(s[1..])
  }

  lemma {:induction false} StripQuotesKeeps(s: string, p: char -> bool)
    requires All(s, p)
    ensures All(StripQuotes(s), p) && All(StripQuotes(s), NotQuote)
  {
    if s != [] {
      StripQuotesKeeps(s[1..], p);
      var r := StripQuotes(s);
      if s[0] != '"' {
        assert r == [s[0]] + StripQuotes(s[1..]);
        assert forall i :: 1 <= i < |r| ==> r[i] == StripQuotes(s[1..])[i - 1];
      }
    }
  }

  function SkipSpaces(s: string): (t: string)
    ensures |t| <= |s|
    ensures t != [] ==> !IsRegexSpace(t[0])
  {
    if s != [] && IsRegexSpace(s[0]) then SkipSpaces(s[1..]) else s
  }

  lemma SkipSpacesIsSuffix(s: string)
    ensures SkipSpaces(s) == s[|s| - |SkipSpaces(s)|..]
  {
  }

  /** The longest prefix of `s` without whitespace. */
  function TakeWord(s: string): (w: string)
    ensures |w| <= |s|
    ensures All(w, NotSpace)
    ensures |w| < |s| ==> IsRegexSpace(s[|w|])
    ensures s != [] && !IsRegexSpace(s[0]) ==> |w| >= 1
  {
    if s != [] && !IsRegexSpace(s[0]) then [s[0]] + TakeWord(s[1..]) else []
  }

  lemma TakeWordIsPrefix(s: string)
    ensures TakeWord(s) == s[..|TakeWord(s)|]
  {
  }

  /** The maximal runs of non-whitespace characters of `s`, in order. */
  function Words(s: string): (ws: seq<string>)
    ensures forall i :: 0 <= i < |ws| ==> ws[i] != [] && All(ws[i], NotSpace)
    decreases |s|
  {
    var t := SkipSpaces(s);
    if t == [] then []
    else
      var w := TakeWord(t);
      var rest := Words(t[|w|..]);
      assert forall i :: 1 <= i < |[w] + rest| ==> ([w] + rest)[i] == rest[i - 1];
      [w] + rest
  }

  /** Every character of `s` has property `p` or is whitespace. */
  ghost predicate KeptOrSpace(s: string, p: char -> bool)
  {
    forall i :: 0 <= i < |s| ==> p(s[i]) || IsRegexSpace(s[i])
  }

  lemma DropKeeps(s: string, lo: int, p: char -> bool)
    requires 0 <= lo <= |s| && KeptOrSpace(s, p)
    ensures KeptOrSpace(s[lo..], p)
  {
    assert forall i :: 0 <= i < |s| - lo ==> s[lo..][i] == s[lo + i];
  }

  /** The first word of the text after the leading whitespace, and the text after that word, keep `p`. */
  lemma FirstWordKeeps(s: string, p: char -> bool)
    requires KeptOrSpace(s, p) && SkipSpaces(s) != []
    ensures All(TakeWord(SkipSpaces(s)), p)
    ensures KeptOrSpace(SkipSpaces(s)[|TakeWord(SkipSpaces(s))|..], p)
  {
    var t := SkipSpaces(s);
    SkipSpacesIsSuffix(s);
    DropKeeps(s, |s| - |t|, p);
    var w := TakeWord(t);
    TakeWordIsPrefix(t);
    forall j | 0 <= j < |w|
      ensures p(w[j])
    {
      assert w[j] == t[j] && NotSpace(w[j]);
    }
    DropKeeps(t, |w|, p);
  }

  lemma ConsKeeps(w: string, ws: seq<string>, p: char -> bool)
    requires All(w, p) && forall i :: 0 <= i < |ws| ==> All(ws[i], p)
    ensures forall i :: 0 <= i < |[w] + ws| ==> All(([w] + ws)[i], p)
  {
    forall i | 0 <= i < |[w] + ws|
      ensures All(([w] + ws)[i], p)
    {
      if i > 0 {
        assert ([w] + ws)[i] == ws[i - 1];
      }
    }
  }

  /** A property every non-whitespace character of `s` has, every word of `s` has. */
  lemma {:induction false} WordsKeep(s: string, p: char -> bool)
    requires KeptOrSpace(s, p)
    ensures forall i :: 0 <= i < |Words(s)| ==> All(Words(s)[i], p)
    decreases |s|
  {
    var t := SkipSpaces(s);
    if t != [] {
      var w := TakeWord(t);
      var u := t[|w|..];
      FirstWordKeeps(s, p);
      WordsKeep(u, p);
      ConsKeeps(w, Words(u), p);
      assert Words(s) == [w] + Words(u);
    }
  }

  /**
   * `sanitizedInput.split("\\s+")`: the words, preceded by one empty string
   * when the input starts with whitespace and has a word; `[""]` for the empty
   * input. Trailing empty strings are dropped, as `split` does.
   */
  function JavaSplit(s: string): seq<string>
  {
    if s == [] then [""]
    else if IsRegexSpace(s[0]) && Words(s) != [] then [""] + Words(s)
    else Words(s)
  }

  lemma SplitKeeps(s: string, p: char -> bool)
    requires forall i :: 0 <= i < |s| ==> p(s[i]) || IsRegexSpace(s[i])
    ensures forall i :: 0 <= i < |JavaSplit(s)| ==> All(JavaSplit(s)[i], p) && All(JavaSplit(s)[i], NotSpace)
  {
    WordsKeep(s, p);
    var ws := JavaSplit(s);
    if ws != Words(s) && ws != [""] {
      assert forall i :: 1 <= i < |ws| ==> ws[i] == Words(s)[i - 1];
    }
  }

  /** The formatting of one non-empty token (CapitalizeUtil.java:19-22). */
  function FormatWord(w: string): (r: string)
    ensures |r| == |w|
    ensures forall i :: 0 <= i < |w| ==> r[i] == UpperChar(w[i]) || r[i] == LowerChar(w[i])
  {
    if |w| <= 2 then ToUpper(w) else [UpperChar(w[0])] + ToLower(w[1..])
  }

  /** Case mapping keeps whitespace, quotes and visibility. */
  lemma FormatWordKeeps(w: string)
    ensures All(w, NotSpace) ==> All(FormatWord(w), NotSpace)
    ensures All(w, NotQuote) ==> All(FormatWord(w), NotQuote)
    ensures All(w, Visible) ==> All(FormatWord(w), Visible)
  {
  }

  /** What one iteration of the loop appends to the builder. */
  function Piece(w: string): string
  {
    if w == [] then [] else FormatWord(w) + " "
  }

  /** The builder's content after the loop has run over `ws`. */
  function Appended(ws: seq<string>): string
  {
    if ws == [] then [] else Piece(ws[0]) + Appended(ws[1..])
  }

  /** The result of `capitalizeWords`, as a function of its input. */
  function Capitalized(input: Option<string>): (r: Option<string>)
    ensures input.None? || input == Some([]) ==> r == input
    ensures input.Some? ==> r.Some?
  {
    match input
    case None => None
    case Some(s) => if s == [] then input else Some(Trim(Appended(JavaSplit(StripQuotes(s)))))
  }

  /** CapitalizeUtil.capitalizeWords: a loop over the split words appending to a builder. */
  method CapitalizeWords(input: Option<string>) returns (r: Option<string>)
    ensures r == Capitalized(input)
  {
    if input.None? || input.value == [] {
      return input;
    }
    var sanitizedInput := StripQuotes(input.value);
    var words := JavaSplit(sanitizedInput);
    var formatted := "";
    for i := 0 to |words|
      invariant formatted == Appended(words[..i])
    {
      var word := words[i];
      AppendedStep(words, i, formatted);
      if word != [] {
        if |word| <= 2 {
          formatted := formatted + ToUpper(word) + " ";
        } else {
          var capWord := [UpperChar(word[0])] + ToLower(word[1..]);
          formatted := formatted + capWord + " ";
        }
      }
    }
    assert words[..|words|] == words;
    r := Some(Trim(formatted));
  }

  /** One iteration of the loop of `CapitalizeWords`: what it appends is the next piece. */
  lemma AppendedStep(words: seq<string>, i: int, formatted: string)
    requires 0 <= i < |words| && formatted == Appended(words[..i])
    ensures var word := words[i];
      Appended(words[..i + 1]) ==
        if word == [] then formatted
        else if |word| <= 2 then formatted + ToUpper(word) + " "
        else formatted + ([UpperChar(word[0])] + ToLower(word[1..])) + " "
  {
    var word := words[i];
    AppendedNext(words, i);
    if word != [] {
      if |word| <= 2 {
        PieceShort(formatted, word);
      } else {
        PieceLong(formatted, word);
      }
    }
  }

  lemma AppendedNext(words: seq<string>, i: int)
    requires 0 <= i < |words|
    ensures Appended(words[..i + 1]) == Appended(words[..i]) + Piece(words[i])
  {
    assert words[..i + 1] == words[..i] + [words[i]];
    AppendedSnoc(words[..i], words[i]);
  }

  lemma AppendSpace(f: string, x: string)
    ensures f + x + " " == f + (x + " ")
  {
  }

  lemma PieceShortWord(w: string)
    requires 1 <= |w| <= 2
    ensures Piece(w) == ToUpper(w) + " "
  {
  }

  lemma PieceLongWord(w: string)
    requires |w| > 2
    ensures Piece(w) == [UpperChar(w[0])] + ToLower(w[1..]) + " "
  {
  }

  lemma PieceShort(f: string, w: string)
    requires 1 <= |w| <= 2
    ensures f + Piece(w) == f + ToUpper(w) + " "
  {
    PieceShortWord(w);
    AppendSpace(f, ToUpper(w));
  }

  lemma PieceLong(f: string, w: string)
    requires |w| > 2
    ensures f + Piece(w) == f + ([UpperChar(w[0])] + ToLower(w[1..])) + " "
  {
    PieceLongWord(w);
    AppendSpace(f, [UpperChar(w[0])] + ToLower(w[1..]));
  }

  lemma {:induction false} AppendedSnoc(ws: seq<string>, w: string)
    ensures Appended(ws + [w]) == Appended(ws) + Piece(w)
  {
    if ws != [] {
      var v := ws + [w];
      assert v[0] == ws[0] && v[1..] == ws[1..] + [w];
      AppendedSnoc(ws[1..], w);
      assert Appended(v) == Piece(ws[0]) + (Appended(ws[1..]) + Piece(w));
    }
  }

  // ---------------------------------------------------------------------
  // The shape of the output, for every input.

  /** Quote-free, and every whitespace character is a space after a non-whitespace one and before a non-whitespace one or the end. */
  ghost predicate Spaced(x: string)
  {
    && All(x, NotQuote)
    && forall j :: 0 <= j < |x| && IsRegexSpace(x[j]) ==>
         x[j] == ' ' && 0 < j && !IsRegexSpace(x[j - 1]) && (j + 1 < |x| ==> !IsRegexSpace(x[j + 1]))
  }

  lemma SpacedCons(f: string, rest: string)
    requires f != [] && All(f, NotSpace) && All(f, NotQuote) && Spaced(rest)
    ensures Spaced(f + " " + rest)
  {
    var x := f + " " + rest;
    assert forall j :: 0 <= j < |f| ==> x[j] == f[j];
    assert forall j :: |f| < j < |x| ==> x[j] == rest[j - |f| - 1];
    forall j | 0 <= j < |x| && IsRegexSpace(x[j])
      ensures x[j] == ' ' && 0 < j && !IsRegexSpace(x[j - 1]) && (j + 1 < |x| ==> !IsRegexSpace(x[j + 1]))
    {
      if j == |f| {
        assert x[j - 1] == f[|f| - 1];
      } else if j > |f| + 1 {
        assert x[j - 1] == rest[j - |f| - 2];
      }
    }
  }

  lemma {:induction false} AppendedSpaced(ws: seq<string>)
    requires forall i :: 0 <= i < |ws| ==> All(ws[i], NotSpace) && All(ws[i], NotQuote)
    ensures Spaced(Appended(ws))
  {
    if ws != [] {
      AppendedSpaced(ws[1..]);
      if ws[0] != [] {
        FormatWordKeeps(ws[0]);
        SpacedCons(FormatWord(ws[0]), Appended(ws[1..]));
      }
    }
  }

  /** A trimmed slice of spaced text is single-spaced. */
  lemma SpacedTrim(x: string)
    requires Spaced(x)
    ensures All(Trim(x), NotQuote) && SingleSpaced(Trim(x))
  {
    var a := TrimStart(x);
    var r := TrimEnd(a);
    TrimStartSpec(x);
    TrimEndSpec(a);
    var k := |x| - |a|;
    assert r == x[k..][..|r|] == x[k..k + |r|];
    SpacedWindow(x, k, r);
  }

  /** A window of spaced text that starts and ends above U+0020 is single-spaced. */
  lemma SpacedWindow(x: string, k: nat, r: string)
    requires Spaced(x) && k + |r| <= |x| && r == x[k..k + |r|]
    requires r != [] ==> r[0] > ' ' && r[|r| - 1] > ' '
    ensures All(r, NotQuote) && SingleSpaced(r)
  {
    forall i | 0 <= i < |r| && IsRegexSpace(r[i])
      ensures r[i] == ' ' && 0 < i < |r| - 1 && !IsRegexSpace(r[i - 1]) && !IsRegexSpace(r[i + 1])
    {
      var j := k + i;
      assert IsRegexSpace(x[j]);
      assert 0 < i < |r| - 1;
      assert r[i - 1] == x[j - 1] && r[i + 1] == x[j + 1];
    }
    forall i | 0 <= i < |r|
      ensures NotQuote(r[i])
    {
      assert r[i] == x[k + i];
    }
  }

  /**
   * For every input, the output holds no double quote, neither begins nor ends
   * with whitespace (nor any other character `trim` strips), and each of its
   * whitespace characters is a single space with non-whitespace on both sides.
   */
  lemma CapitalizedShape(s: string)
    ensures var r := Capitalized(Some(s)).value; '"' !in r && SingleSpaced(r)
  {
    if s != [] {
      var t := StripQuotes(s);
      assert forall i :: 0 <= i < |t| ==> NotQuote(t[i]);
      var ws := JavaSplit(t);
      SplitKeeps(t, NotQuote);
      AppendedSpaced(ws);
      SpacedTrim(Appended(ws));
      var r := Trim(Appended(ws));
    } else {
      assert Capitalized(Some(s)).value == [];
    }
  }

  // ---------------------------------------------------------------------
  // Without control characters: the exact word structure.

  /** Non-empty words of visible, quote-free characters. */
  ghost predicate Clean(fs: seq<string>)
  {
    forall i :: 0 <= i < |fs| ==> fs[i] != [] && All(fs[i], Visible) && All(fs[i], NotQuote)
  }

  /** The words joined by single spaces. */
  function Unwords(fs: seq<string>): string
  {
    if |fs| == 0 then [] else if |fs| == 1 then fs[0] else fs[0] + " " + Unwords(fs[1..])
  }

  function FormatAll(ws: seq<string>): (fs: seq<string>)
    ensures |fs| == |ws| && forall i :: 0 <= i < |ws| ==> fs[i] == FormatWord(ws[i])
  {
    if ws == [] then [] else [FormatWord(ws[0])] + FormatAll(ws[1..])
  }

  lemma {:induction false} AppendedIsUnwords(ws: seq<string>)
    requires forall i :: 0 <= i < |ws| ==> ws[i] != []
    ensures Appended(ws) == if ws == [] then [] else Unwords(FormatAll(ws)) + " "
  {
    if ws != [] {
      AppendedIsUnwords(ws[1..]);
      var fs := FormatAll(ws);
      assert fs[1..] == FormatAll(ws[1..]);
    }
  }

  lemma {:induction false} UnwordsEnds(fs: seq<string>)
    requires fs != [] && forall i :: 0 <= i < |fs| ==> fs[i] != []
    ensures |Unwords(fs)| > 0 && Unwords(fs)[0] == fs[0][0]
    ensures Unwords(fs)[|Unwords(fs)| - 1] == fs[|fs| - 1][|fs[|fs| - 1]| - 1]
  {
    if |fs| > 1 {
      var u := Unwords(fs[1..]);
      UnwordsEnds(fs[1..]);
      var x := fs[0] + " " + u;
      assert Unwords(fs) == x;
      assert x[0] == fs[0][0];
      assert x[|x| - 1] == u[|u| - 1];
      assert fs[1..][|fs[1..]| - 1] == fs[|fs| - 1];
    }
  }

  lemma {:induction false} UnwordsKeeps(fs: seq<string>, p: char -> bool)
    requires p(' ') && forall i :: 0 <= i < |fs| ==> All(fs[i], p)
    ensures All(Unwords(fs), p)
  {
    if |fs| > 1 {
      UnwordsKeeps(fs[1..], p);
      var u := Unwords(fs[1..]);
      var x := fs[0] + " " + u;
      assert forall j :: 0 <= j < |fs[0]| ==> x[j] == fs[0][j];
      assert forall j :: |fs[0]| < j < |x| ==> x[j] == u[j - |fs[0]| - 1];
    }
  }

  lemma {:induction false} TakeWordPrefix(w: string, rest: string)
    requires All(w, NotSpace)
    requires rest == [] || IsRegexSpace(rest[0])
    ensures TakeWord(w + rest) == w
  {
    if w != [] {
      var x := w + rest;
      assert x[0] == w[0] && NotSpace(w[0]);
      assert x[1..] == w[1..] + rest;
      assert All(w[1..], NotSpace) by {
        assert forall j :: 0 <= j < |w| - 1 ==> w[1..][j] == w[j + 1];
      }
      TakeWordPrefix(w[1..], rest);
      assert TakeWord(x) == [w[0]] + TakeWord(x[1..]);
      assert [w[0]] + w[1..] == w;
    }
  }

  /** The words after the first of a list of non-empty words without whitespace are such words too. */
  lemma TailWords(fs: seq<string>)
    requires fs != [] && forall i :: 0 <= i < |fs| ==> fs[i] != [] && All(fs[i], NotSpace)
    ensures forall i :: 0 <= i < |fs[1..]| ==> fs[1..][i] != [] && All(fs[1..][i], NotSpace)
  {
    forall i | 0 <= i < |fs[1..]|
      ensures fs[1..][i] != [] && All(fs[1..][i], NotSpace)
    {
      assert fs[1..][i] == fs[i + 1];
    }
  }

  lemma {:induction false} WordsOfUnwords(fs: seq<string>)
    requires forall i :: 0 <= i < |fs| ==> fs[i] != [] && All(fs[i], NotSpace)
    ensures Words(Unwords(fs)) == fs
  {
    if |fs| == 1 {
      TakeWordPrefix(fs[0], []);
      assert fs[0] + [] == fs[0];
    } else if |fs| > 1 {
      var rest := fs[1..];
      TailWords(fs);
      var u := Unwords(rest);
      assert Unwords(fs) == fs[0] + " " + u;
      UnwordsEnds(rest);
      assert u[0] == rest[0][0] && NotSpace(rest[0][0]);
      WordsCons(fs[0], u);
      WordsOfUnwords(rest);
      assert Words(Unwords(fs)) == [fs[0]] + rest;
      assert [fs[0]] + rest == fs;
    }
  }

  /** A word, a space, then text starting with a word: the word comes first. */
  lemma WordsCons(w: string, u: string)
    requires w != [] && All(w, NotSpace) && u != [] && !IsRegexSpace(u[0])
    ensures Words(w + " " + u) == [w] + Words(u)
  {
    var x := w + " " + u;
    assert x == w + (" " + u);
    TakeWordPrefix(w, " " + u);
    assert SkipSpaces(x) == x;
    assert x[|w|..] == " " + u;
    assert (" " + u)[1..] == u;
    assert SkipSpaces(" " + u) == u;
    assert Words(" " + u) == Words(u);
  }

  lemma TrimUnwords(fs: seq<string>)
    requires fs != [] && Clean(fs)
    ensures Trim(Unwords(fs) + " ") == Unwords(fs)
  {
    var u := Unwords(fs);
    UnwordsEnds(fs);
    assert TrimStart(u + " ") == u + " ";
    assert (u + " ")[..|u|] == u;
    assert TrimEnd(u + " ") == TrimEnd(u);
  }

  /** The tokens formatted, quote-free, visible and non-empty. */
  lemma TokensFormatted(s: string)
    requires NoControl(s)
    ensures Clean(FormatAll(Words(StripQuotes(s))))
  {
    var t := StripQuotes(s);
    StripQuotesKeeps(s, VisibleOrSpace);
    WordsKeep(t, Visible);
    WordsKeep(t, NotQuote);
    var toks := Words(t);
    forall i | 0 <= i < |toks|
      ensures FormatWord(toks[i]) != [] && All(FormatWord(toks[i]), NotQuote) && All(FormatWord(toks[i]), Visible)
    {
      FormatWordKeeps(toks[i]);
    }
  }

  /** Visible characters are not whitespace. */
  lemma CleanWords(fs: seq<string>)
    requires Clean(fs)
    ensures forall i :: 0 <= i < |fs| ==> fs[i] != [] && All(fs[i], NotSpace)
  {
  }

  /** Under `NoControl`, the output is the formatted tokens joined by single spaces. */
  lemma CapitalizedIsUnwords(s: string)
    requires s != [] && NoControl(s)
    ensures Capitalized(Some(s)) == Some(Unwords(FormatAll(Words(StripQuotes(s)))))
  {
    var t := StripQuotes(s);
    var toks := Words(t);
    var ws := JavaSplit(t);
    assert Appended(ws) == Appended(toks) by {
      if ws != toks {
        assert ws == [""] + toks || ws == [""];
        if ws == [""] + toks { assert ws[1..] == toks; }
      }
    }
    AppendedIsUnwords(toks);
    TokensFormatted(s);
    if toks != [] {
      TrimUnwords(FormatAll(toks));
    }
  }

  // ---------------------------------------------------------------------
  // Names joined by " - ".

  /** The formatted quote-free tokens of `s`: the words `capitalizeWords` joins. */
  function Normalised(s: string): seq<string>
  {
    FormatAll(Words(StripQuotes(s)))
  }

  lemma {:induction false} StripQuotesAppend(x: string, y: string)
    ensures StripQuotes(x + y) == StripQuotes(x) + StripQuotes(y)
    decreases |x|
  {
    if x == [] {
      assert x + y == y;
    } else {
      assert (x + y)[0] == x[0] && (x + y)[1..] == x[1..] + y;
      StripQuotesAppend(x[1..], y);
    }
  }

  lemma {:induction false} SkipSpacesAppend(a: string, x: string)
    ensures SkipSpaces(a) == [] ==> SkipSpaces(a + x) == SkipSpaces(x)
    ensures SkipSpaces(a) != [] ==> SkipSpaces(a + x) == SkipSpaces(a) + x
    decreases |a|
  {
    if a == [] {
      assert a + x == x;
    } else {
      assert (a + x)[0] == a[0] && (a + x)[1..] == a[1..] + x;
      if IsRegexSpace(a[0]) {
        SkipSpacesAppend(a[1..], x);
      }
    }
  }

  lemma {:induction false} TakeWordAppend(t: string, x: string)
    requires x == [] || IsRegexSpace(x[0])
    ensures TakeWord(t + x) == TakeWord(t)
    decreases |t|
  {
    if t == [] {
      assert t + x == x;
    } else {
      assert (t + x)[0] == t[0] && (t + x)[1..] == t[1..] + x;
      if !IsRegexSpace(t[0]) {
        TakeWordAppend(t[1..], x);
      }
    }
  }

  /** Splitting at a space splits the words: those before it, then those after it. */
  lemma {:induction false} WordsSpace(a: string, b: string)
    ensures Words(a + " " + b) == Words(a) + Words(b)
    decreases |a|
  {
    var x := a + " " + b;
    var t := SkipSpaces(a);
    assert x == a + (" " + b);
    SkipSpacesAppend(a, " " + b);
    if t == [] {
      assert (" " + b)[1..] == b;
      assert SkipSpaces(x) == SkipSpaces(b);
    } else {
      var w := TakeWord(t);
      TakeWordAppend(t, " " + b);
      var u := t[|w|..];
      assert (t + (" " + b))[|w|..] == u + " " + b;
      WordsSpace(u, b);
    }
  }

  lemma FormatAllAppend(x: seq<string>, y: seq<string>)
    ensures FormatAll(x + y) == FormatAll(x) + FormatAll(y)
  {
    var f := FormatAll(x + y);
    assert forall i :: 0 <= i < |x + y| ==> f[i] == (FormatAll(x) + FormatAll(y))[i];
  }

  lemma StripQuotesDash(a: string, b: string)
    ensures StripQuotes(a + " - " + b) == StripQuotes(a) + " - " + StripQuotes(b)
  {
    StripQuotesAppend(a + " - ", b);
    StripQuotesAppend(a, " - ");
  }

  /** The words of "x - y": those of `x`, the dash, then those of `y`. */
  lemma WordsDash(x: string, y: string)
    ensures Words(x + " - " + y) == Words(x) + ["-"] + Words(y)
  {
    assert x + " - " + y == x + " " + ("-" + " " + y);
    WordsSpace(x, "-" + " " + y);
    WordsSpace("-", y);
    DashWord();
  }

  lemma DashWord()
    ensures Words("-") == ["-"]
  {
    var d := "-";
    assert SkipSpaces(d) == d;
    assert TakeWord(d[1..]) == [] && TakeWord(d) == d;
    assert d[|TakeWord(d)|..] == [];
  }

  /**
   * The normalised words of "a - b" are those of `a`, the dash, then those of
   * `b`: the separator stays a word of its own whatever `a` and `b` are.
   */
  lemma NormalisedDash(a: string, b: string)
    ensures Normalised(a + " - " + b) == Normalised(a) + ["-"] + Normalised(b)
  {
    StripQuotesDash(a, b);
    var wa, wb := Words(StripQuotes(a)), Words(StripQuotes(b));
    WordsDash(StripQuotes(a), StripQuotes(b));
    FormatAllAppend(wa + ["-"], wb);
    FormatAllAppend(wa, ["-"]);
    assert FormatAll(["-"]) == ["-"] by {
      assert FormatWord("-") == "-";
    }
  }

  /** Without control characters, "a - b" is normalised to its normalised words joined by single spaces. */
  lemma CapitalizedDash(a: string, b: string)
    requires NoControl(a) && NoControl(b)
    ensures NoControl(a + " - " + b)
    ensures Capitalized(Some(a + " - " + b)) == Some(Unwords(Normalised(a) + ["-"] + Normalised(b)))
  {
    var s := a + " - " + b;
    forall i | 0 <= i < |s|
      ensures VisibleOrSpace(s[i])
    {
      if i < |a| {
        assert s[i] == a[i];
      } else if i >= |a| + 3 {
        assert s[i] == b[i - |a| - 3];
      }
    }
    CapitalizedIsUnwords(s);
    NormalisedDash(a, b);
  }

  /**
   * Without control characters, the output's words correspond one to one with
   * the whitespace-separated tokens of the quote-stripped input: a token of at
   * most two characters is upper-cased, a longer one gets an upper-case first
   * character and a lower-case rest, and the output is those words joined by
   * single spaces.
   */
  lemma CapitalizedTokens(s: string)
    requires s != [] && NoControl(s)
    ensures var toks := Words(StripQuotes(s));
      var r := Capitalized(Some(s)).value;
      var outs := Words(r);
      && |outs| == |toks|
      && r == Unwords(outs)
      && forall i :: 0 <= i < |toks| ==>
           && (|toks[i]| <= 2 ==> outs[i] == ToUpper(toks[i]))
           && (|toks[i]| > 2 ==>
                 |outs[i]| == |toks[i]| && outs[i][0] == UpperChar(toks[i][0]) && outs[i][1..] == ToLower(toks[i][1..]))
  {
    CapitalizedIsUnwords(s);
    TokensFormatted(s);
    CleanWords(FormatAll(Words(StripQuotes(s))));
    WordsOfUnwords(FormatAll(Words(StripQuotes(s))));
  }

  lemma FormatWordIdempotent(w: string)
    ensures FormatWord(FormatWord(w)) == FormatWord(w)
  {
    var f := FormatWord(w);
    if |w| <= 2 {
      assert FormatWord(f) == ToUpper(f);
    } else {
      assert f[1..] == ToLower(w[1..]);
    }
  }

  lemma {:induction false} FormatAllIdempotent(ws: seq<string>)
    ensures FormatAll(FormatAll(ws)) == FormatAll(ws)
  {
    if ws != [] {
      FormatWordIdempotent(ws[0]);
      FormatAllIdempotent(ws[1..]);
      assert FormatAll(ws)[1..] == FormatAll(ws[1..]);
    }
  }

  /** Joined clean words have no control character and no quote. */
  lemma UnwordsClean(fs: seq<string>)
    requires Clean(fs)
    ensures NoControl(Unwords(fs)) && '"' !in Unwords(fs)
  {
    UnwordsKeeps(fs, VisibleOrSpace);
    UnwordsKeeps(fs, NotQuote);
  }

  /** Without control characters, applying the normaliser twice gives the result of applying it once. */
  lemma CapitalizedIdempotent(s: string)
    requires NoControl(s)
    ensures Capitalized(Capitalized(Some(s))) == Capitalized(Some(s))
  {
    if s != [] {
      var fs := FormatAll(Words(StripQuotes(s)));
      CapitalizedIsUnwords(s);
      TokensFormatted(s);
      var r := Unwords(fs);
      if fs != [] {
        UnwordsEnds(fs);
        UnwordsClean(fs);
        CapitalizedIsUnwords(r);
        assert StripQuotes(r) == r;
        CleanWords(fs);
        WordsOfUnwords(fs);
        FormatAllIdempotent(Words(StripQuotes(s)));
      }
    }
  }

  /**
   * With a control character the idempotence above fails: the final trim eats
   * the leading U+0001, which leaves a two-letter token the second pass upper-cases.
   */
  lemma ControlCharacterBreaksIdempotence()
    ensures Capitalized(Some("\U{1}ab")) == Some("ab")
    ensures Capitalized(Some("ab")) == Some("AB")
  {
    LeadingControlTrimmed();
    TwoLettersUpperCased();
  }

  lemma LeadingControlTrimmed()
    ensures Capitalized(Some("\U{1}ab")) == Some("ab")
  {
    ControlTokenSteps();
    SingleToken("\U{1}ab");
  }

  lemma ControlTokenSteps()
    ensures All("\U{1}ab", NotSpace)
    ensures FormatWord("\U{1}ab") == "\U{1}ab"
    ensures Trim(FormatWord("\U{1}ab") + " ") == "ab"
  {
    assert ToLower("ab") == "ab";
    assert "\U{1}ab" + " " == "\U{1}ab ";
    assert "\U{1}ab "[1..] == "ab ";
    assert TrimStart("ab ") == "ab ";
    assert "ab "[..2] == "ab";
    assert TrimEnd("ab") == "ab";
  }

  lemma TwoLettersUpperCased()
    ensures Capitalized(Some("ab")) == Some("AB")
  {
    TwoLetterSteps();
    SingleToken("ab");
  }

  lemma TwoLetterSteps()
    ensures All("ab", NotSpace)
    ensures FormatWord("ab") == "AB"
    ensures Trim(FormatWord("ab") + " ") == "AB"
  {
    assert "AB" + " " == "AB ";
    assert TrimStart("AB ") == "AB ";
    assert "AB "[..2] == "AB";
  }

  /** A single quote-free token is formatted and followed by the space the final trim removes. */
  lemma SingleToken(w: string)
    requires w != [] && '"' !in w && All(w, NotSpace)
    ensures Capitalized(Some(w)) == Some(Trim(FormatWord(w) + " "))
  {
    assert Unwords([w]) == w;
    WordsOfUnwords([w]);
    assert JavaSplit(w) == [w];
    assert Appended([w]) == FormatWord(w) + " ";
  }
}
