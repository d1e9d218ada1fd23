/**
 * Rendering of a quantity in one of several styles: the dispatch on the
 * style name, and the rewrites of a unit name into LaTeX, Unicode
 * superscripts and HTML. The numeric part arrives already formatted
 * (Python's `%g`, `%e` or `str` of an array), since float formatting is
 * not modelled.
 */
module Formatter {
  import opened Text

  // ------------------------------------------------------------ power runs

  /** The characters the power loops take as part of an exponent: `isdigit()` or one of `-+`. */
  predicate IsPowerChar(c: char) {
    '0' <= c <= '9' || c == '-' || c == '+'
  }

  /** The three ways of marking up an exponent run. */
  datatype Markup = Superscripts | HtmlSup | LatexBraces

  /**
   * The characters a run of markup `m` takes. The Unicode and HTML loops
   * stop at anything but a digit, `-` or `+`; the braced LaTeX run also
   * takes the decimal point of the float exponents units print (`^2.0`).
   */
  predicate IsRunChar(m: Markup, c: char) {
    IsPowerChar(c) || (m == LatexBraces && c == '.')
  }

  /** The length of the exponent run at the start of `t`: the inner `while j < len(result) ...` loop. */
  function RunLength(m: Markup, t: string): (n: nat)
    ensures n <= |t|
  {
    if |t| > 0 && IsRunChar(m, t[0]) then 1 + RunLength(m, t[1..]) else 0
  }

  /** The run holds only exponent characters and stops at the first other one. */
  lemma {:induction false} RunLengthSpec(m: Markup, t: string)
    ensures forall k :: 0 <= k < RunLength(m, t) ==> IsRunChar(m, t[k])
    ensures RunLength(m, t) < |t| ==> !IsRunChar(m, t[RunLength(m, t)])
  {
    if |t| > 0 && IsRunChar(m, t[0]) {
      RunLengthSpec(m, t[1..]);
      forall k | 0 < k < RunLength(m, t)
        ensures IsRunChar(m, t[k])
      {
        assert t[k] == t[1..][k - 1];
      }
    }
  }

  /** The run is the only length with those two properties. */
  lemma {:induction false} RunLengthUnique(m: Markup, t: string, n: nat)
    requires n <= |t|
    requires forall k :: 0 <= k < n ==> IsRunChar(m, t[k])
    requires n < |t| ==> !IsRunChar(m, t[n])
    ensures RunLength(m, t) == n
  {
    if n > 0 {
      RunLengthUnique(m, t[1..], n - 1);
    }
  }

  /** The `superscripts` table; other characters are kept (`superscripts.get(c, c)`). */
  function SuperChar(c: char): char {
    match c
    case '0' => '\U{2070}'
    case '1' => '\U{00B9}'
    case '2' => '\U{00B2}'
    case '3' => '\U{00B3}'
    case '4' => '\U{2074}'
    case '5' => '\U{2075}'
    case '6' => '\U{2076}'
    case '7' => '\U{2077}'
    case '8' => '\U{2078}'
    case '9' => '\U{2079}'
    case '-' => '\U{207B}'
    case '+' => '\U{207A}'
    case _ => c
  }

  /** The superscript characters the table produces. */
  predicate IsSuperChar(c: char) {
    c in {'\U{2070}', '\U{00B9}', '\U{00B2}', '\U{00B3}', '\U{2074}', '\U{2075}', '\U{2076}',
          '\U{2077}', '\U{2078}', '\U{2079}', '\U{207B}', '\U{207A}'}
  }

  /** The reverse of the table, mapping each superscript back to its plain character. */
  function PlainChar(c: char): char {
    match c
    case '\U{2070}' => '0'
    case '\U{00B9}' => '1'
    case '\U{00B2}' => '2'
    case '\U{00B3}' => '3'
    case '\U{2074}' => '4'
    case '\U{2075}' => '5'
    case '\U{2076}' => '6'
    case '\U{2077}' => '7'
    case '\U{2078}' => '8'
    case '\U{2079}' => '9'
    case '\U{207B}' => '-'
    case '\U{207A}' => '+'
    case _ => c
  }

  /** The table sends each exponent character to a superscript, and back. */
  lemma SuperCharInverse(c: char)
    ensures IsPowerChar(c) ==> IsSuperChar(SuperChar(c)) && PlainChar(SuperChar(c)) == c
    ensures !IsSuperChar(c) ==> PlainChar(c) == c
  {
  }

  /** `''.join(superscripts.get(c, c) for c in power)`. */
  function Superscript(run: string): (r: string)
    ensures |r| == |run|
    ensures forall k :: 0 <= k < |run| ==> r[k] == SuperChar(run[k])
  {
    seq(|run|, k requires 0 <= k < |run| => SuperChar(run[k]))
  }

  /** What replaces `^` and its run. */
  function Wrap(m: Markup, run: string): string {
    match m
    case Superscripts => Superscript(run)
    case HtmlSup => "<sup>" + run + "</sup>"
    case LatexBraces => "^{" + run + "}"
  }

  /**
   * The text the power loops compute: scanning from the left, each `^`
   * and the exponent run after it are replaced by their markup, which is
   * not scanned again; every other character is kept.
   */
  function Rewrite(m: Markup, s: string): string
    decreases |s|
  {
    if |s| == 0 then ""
    else if s[0] == '^' then
      var n := RunLength(m, s[1..]);
      Wrap(m, s[1..1 + n]) + Rewrite(m, s[1 + n..])
    else [s[0]] + Rewrite(m, s[1..])
  }

  /** A character other than `^` is kept in front of the rewritten rest. */
  lemma RewriteCons(m: Markup, s: string)
    requires |s| > 0 && s[0] != '^'
    ensures Rewrite(m, s) == [s[0]] + Rewrite(m, s[1..])
  {
  }

  lemma PlainStep(m: Markup, result: string, i: nat)
    requires i < |result| && result[i] != '^'
    ensures result[..i + 1] + Rewrite(m, result[i + 1..]) == result[..i] + Rewrite(m, result[i..])
  {
    var t := result[i..];
    var tail := Rewrite(m, result[i + 1..]);
    assert t[1..] == result[i + 1..];
    RewriteCons(m, t);
    assert result[..i + 1] == result[..i] + [result[i]];
    AppendAssoc(result[..i], [result[i]], tail);
  }

  /** All characters of `run` are exponent characters. */
  predicate IsRun(m: Markup, run: string) {
    forall k :: 0 <= k < |run| ==> IsRunChar(m, run[k])
  }

  lemma RunHasNoMarkup(m: Markup, run: string)
    requires IsRun(m, run)
    ensures '^' !in run && '<' !in run && '{' !in run && '}' !in run && ' ' !in run && '/' !in run
  {
  }

  /** A text starting with `^` is the caret, its run and the rest, and rewrites to the run's markup and the rewritten rest. */
  lemma CaretSplit(m: Markup, s: string)
    requires |s| > 0 && s[0] == '^'
    ensures var n := RunLength(m, s[1..]);
            1 + n <= |s| && IsRun(m, s[1..1 + n])
            && Rewrite(m, s) == Wrap(m, s[1..1 + n]) + Rewrite(m, s[1 + n..])
            && s == ['^'] + s[1..1 + n] + s[1 + n..]
  {
    var n := RunLength(m, s[1..]);
    assert IsRun(m, s[1..1 + n]) by {
      RunLengthSpec(m, s[1..]);
      assert s[1..][..n] == s[1..1 + n];
    }
    assert s == ['^'] + s[1..1 + n] + s[1 + n..];
  }

  lemma Splice(result: string, i: nat, j: nat, sup: string)
    requires i < j <= |result|
    ensures var next := result[..i] + sup + result[j..];
            next[..i + |sup|] == result[..i] + sup && next[i + |sup|..] == result[j..]
  {
  }

  lemma CaretRewrite(m: Markup, result: string, i: nat, j: nat)
    requires i < j <= |result| && result[i] == '^'
    requires j - (i + 1) == RunLength(m, result[i + 1..])
    ensures Rewrite(m, result[i..]) == Wrap(m, result[i + 1..j]) + Rewrite(m, result[j..])
  {
    var t := result[i..];
    assert t[1..] == result[i + 1..];
    CaretSplit(m, t);
    assert t[1..j - i] == result[i + 1..j];
    assert t[j - i..] == result[j..];
  }

  lemma CaretStep(m: Markup, result: string, i: nat, j: nat)
    requires i < j <= |result| && result[i] == '^'
    requires j - (i + 1) == RunLength(m, result[i + 1..])
    ensures var sup := Wrap(m, result[i + 1..j]);
            var next := result[..i] + sup + result[j..];
            next[..i + |sup|] + Rewrite(m, next[i + |sup|..]) == result[..i] + Rewrite(m, result[i..])
  {
    var sup := Wrap(m, result[i + 1..j]);
    var next := result[..i] + sup + result[j..];
    var tail := Rewrite(m, result[j..]);
    assert next[..i + |sup|] == result[..i] + sup && next[i + |sup|..] == result[j..] by {
      Splice(result, i, j, sup);
    }
    assert Rewrite(m, result[i..]) == sup + tail by {
      CaretRewrite(m, result, i, j);
    }
    AppendAssoc(result[..i], sup, tail);
  }

  lemma AppendAssoc(a: string, b: string, c: string)
    ensures (a + b) + c == a + (b + c)
  {
  }

  /** The inner scan: the index just past the exponent run that starts at `start`. */
  method RunEnd(m: Markup, text: string, start: nat) returns (j: nat)
    requires start <= |text|
    ensures start <= j <= |text| && j - start == RunLength(m, text[start..])
  {
    j := start;
    while j < |text| && IsRunChar(m, text[j])
      invariant start <= j <= |text|
      invariant forall k :: start <= k < j ==> IsRunChar(m, text[k])
    {
      j := j + 1;
    }
    RunLengthUnique(m, text[start..], j - start);
  }

  /**
   * The power loop shared by `_unit_to_unicode` and `_unit_to_html`: at
   * each `^`, find the run after it, splice its markup into the text and
   * continue after the markup.
   */
  method RewritePowers(m: Markup, unitText: string) returns (result: string)
    ensures result == Rewrite(m, unitText)
  {
    result := unitText;
    var i := 0;
    while i < |result|
      invariant 0 <= i <= |result|
      invariant result[..i] + Rewrite(m, result[i..]) == Rewrite(m, unitText)
      decreases |result| - i
    {
      if result[i] == '^' {
        var j := RunEnd(m, result, i + 1);
        var power := result[i + 1..j];
        var sup := Wrap(m, power);
        CaretStep(m, result, i, j);
        result := result[..i] + sup + result[j..];
        i := i + |sup|;
      } else {
        PlainStep(m, result, i);
        i := i + 1;
      }
    }
    assert result[i..] == [];
    assert result[..i] == result;
  }

  // ------------------------------------------------------- unit rewrites

  /** `_unit_to_unicode`: every `^` dropped and its exponent written in superscripts. */
  method UnitToUnicode(unitText: string) returns (r: string)
    ensures r == Rewrite(Superscripts, unitText)
  {
    r := RewritePowers(Superscripts, unitText);
  }

  /** The first two `/`-parts, stripped and joined by `/`; later parts are dropped. */
  function Fraction(unitText: string): string {
    var parts := Split(unitText, '/');
    if |parts| >= 2 then Strip(parts[0]) + "/" + Strip(parts[1]) else unitText
  }

  /** `_unit_to_html`: a quotient as its first two parts; otherwise each power as `<sup>run</sup>`. */
  method UnitToHtml(unitText: string) returns (r: string)
    ensures '/' in unitText ==> r == Fraction(unitText)
    ensures '/' !in unitText ==> r == Rewrite(HtmlSup, unitText)
  {
    if '/' in unitText {
      var parts := Split(unitText, '/');
      var numerator := Strip(parts[0]);
      var denominator := Strip(parts[1]);
      return numerator + "/" + denominator;
    }
    r := RewritePowers(HtmlSup, unitText);
  }

  /** `\frac{num}{den}` from the first two stripped `/`-parts. */
  function LatexFraction(unitText: string): string
    requires '/' in unitText
  {
    var parts := Split(unitText, '/');
    "\\frac{" + Strip(parts[0]) + "}{" + Strip(parts[1]) + "}"
  }

  /**
   * `_unit_to_latex` as written: after `^` becomes `^{`, every space
   * becomes `} ` and one `}` is appended unless the text already ends
   * with one; the result is wrapped in `\mathrm{...}`.
   */
  function UnitToLatexAsWritten(unitText: string): string {
    if '/' in unitText then LatexFraction(unitText)
    else
      var powered := ReplaceChar(unitText, '^', "^{");
      var closed :=
        if '^' in unitText then
          var spaced := ReplaceChar(powered, ' ', "} ");
          if EndsWith(spaced, "}") then spaced else spaced + "}"
        else powered;
      "\\mathrm{" + closed + "}"
  }

  /**
   * `_unit_to_latex` with each exponent run, decimal point included,
   * braced: what the brace juggling aims at. It is not what `format`
   * renders, which is the as-written function above.
   */
  function UnitToLatex(unitText: string): string {
    if '/' in unitText then LatexFraction(unitText)
    else "\\mathrm{" + Rewrite(LatexBraces, unitText) + "}"
  }

  // ------------------------------------------------------------- dispatch

  /** The text `format` returns: the value (in `%e` form for `scientific`) and the unit rendered for the style. */
  function FormattedText(style: string, general: string, scientific: string, unitText: string): string {
    if style == "latex" then general + " " + UnitToLatexAsWritten(unitText)
    else if style == "unicode" then general + " " + Rewrite(Superscripts, unitText)
    else if style == "html" then
      general + " " + (if '/' in unitText then Fraction(unitText) else Rewrite(HtmlSup, unitText))
    else if style == "compact" then general + unitText
    else if style == "scientific" then scientific + " " + unitText
    else general + " " + unitText
  }

  /**
   * `QuantityFormatter.format`. `general` is the value as `%.{precision}g`
   * (or `str` of an array), `scientific` as `%.{precision}e`, `unitText`
   * the unit's name.
   */
  method Format(style: string, general: string, scientific: string, unitText: string) returns (r: string)
    ensures r == FormattedText(style, general, scientific, unitText)
  {
    if style == "latex" {
      r := general + " " + UnitToLatexAsWritten(unitText);
    } else if style == "unicode" {
      var unicode := UnitToUnicode(unitText);
      r := general + " " + unicode;
    } else if style == "html" {
      var html := UnitToHtml(unitText);
      r := general + " " + html;
    } else if style == "compact" {
      r := general + unitText;
    } else if style == "scientific" {
      r := scientific + " " + unitText;
    } else {
      r := general + " " + unitText;
    }
  }

  // ----------------------------------------------------------- properties

  /** An unrecognised style renders as `default` does; every style starts with the value. */
  lemma FormatFallsBack(style: string, general: string, scientific: string, unitText: string)
    ensures style !in ["latex", "unicode", "html", "compact", "scientific"] ==>
              FormattedText(style, general, scientific, unitText) == FormattedText("default", general, scientific, unitText)
    ensures StartsWith(FormattedText(style, general, scientific, unitText), if style == "scientific" then scientific else general)
  {
    var r := FormattedText(style, general, scientific, unitText);
    var v := if style == "scientific" then scientific else general;
    assert r == v + r[|v|..];
    assert r[..|v|] == v;
  }

  /** Text without `^` passes through the power rewrites unchanged. */
  lemma {:induction false} RewriteIdentity(m: Markup, s: string)
    requires '^' !in s
    ensures Rewrite(m, s) == s
  {
    if |s| > 0 {
      RewriteIdentity(m, s[1..]);
      assert s == [s[0]] + s[1..];
    }
  }

  /** The Unicode and HTML rewrites leave no `^` behind. */
  lemma {:induction false} RewriteRemovesCarets(m: Markup, s: string)
    requires m != LatexBraces
    ensures '^' !in Rewrite(m, s)
  {
    if |s| > 0 {
      if s[0] == '^' {
        CaretSplit(m, s);
        var n := RunLength(m, s[1..]);
        RewriteRemovesCarets(m, s[1 + n..]);
        WrapHasNoCaret(m, s[1..1 + n]);
      } else {
        RewriteRemovesCarets(m, s[1..]);
        RewriteCons(m, s);
      }
    }
  }

  lemma WrapHasNoCaret(m: Markup, run: string)
    requires m != LatexBraces && IsRun(m, run)
    ensures '^' !in Wrap(m, run)
  {
    RunHasNoMarkup(m, run);
    if m == HtmlSup {
      assert '^' !in "<sup>" && '^' !in "</sup>";
    }
  }

  /** `c` removed from the text. */
  function Remove(s: string, c: char): (r: string)
    ensures c !in r
  {
    if |s| == 0 then "" else (if s[0] == c then "" else [s[0]]) + Remove(s[1..], c)
  }

  function Unsuperscript(s: string): (r: string)
    ensures |r| == |s|
    ensures forall k :: 0 <= k < |s| ==> r[k] == PlainChar(s[k])
  {
    seq(|s|, k requires 0 <= k < |s| => PlainChar(s[k]))
  }

  lemma UnsuperscriptAppend(a: string, b: string)
    ensures Unsuperscript(a + b) == Unsuperscript(a) + Unsuperscript(b)
  {
  }

  lemma {:induction false} RemoveAppend(a: string, b: string, c: char)
    ensures Remove(a + b, c) == Remove(a, c) + Remove(b, c)
  {
    if |a| > 0 {
      RemoveAppend(a[1..], b, c);
      assert (a + b)[0] == a[0] && (a + b)[1..] == a[1..] + b;
    } else {
      assert a + b == b;
    }
  }

  lemma SuperscriptInverse(run: string)
    requires IsRun(Superscripts, run)
    ensures Unsuperscript(Superscript(run)) == run
  {
    forall k | 0 <= k < |run|
      ensures Unsuperscript(Superscript(run))[k] == run[k]
    {
      SuperCharInverse(run[k]);
    }
  }

  lemma RemoveCaretRun(run: string, rest: string)
    requires IsRun(Superscripts, run)
    ensures Remove(['^'] + run + rest, '^') == run + Remove(rest, '^')
  {
    RunHasNoMarkup(Superscripts, run);
    RemoveAppend(['^'] + run, rest, '^');
    RemoveAppend(['^'], run, '^');
    assert Remove(['^'], '^') == "" by {
      assert ['^'][1..] == [];
    }
    RemoveIdentity(run, '^');
    assert "" + run == run;
  }

  lemma PlainCharStep(c: char, rest: string)
    requires !IsSuperChar(c) && c != '^'
    ensures Unsuperscript([c] + rest) == [c] + Unsuperscript(rest)
    ensures Remove([c] + rest, '^') == [c] + Remove(rest, '^')
  {
    SuperCharInverse(c);
    assert ([c] + rest)[1..] == rest;
  }

  /**
   * The Unicode rewrite only drops carets and turns exponent characters
   * into superscripts: mapping the superscripts back gives the text with
   * its carets removed, every other character kept in order.
   */
  lemma {:induction false} UnicodeDropsOnlyCarets(s: string)
    requires forall k :: 0 <= k < |s| ==> !IsSuperChar(s[k])
    ensures Unsuperscript(Rewrite(Superscripts, s)) == Remove(s, '^')
  {
    if |s| > 0 {
      if s[0] == '^' {
        var n := RunLength(Superscripts, s[1..]);
        UnicodeDropsOnlyCarets(s[1 + n..]);
        UnicodeCaretStep(s);
      } else {
        UnicodeDropsOnlyCarets(s[1..]);
        UnicodePlainStep(s);
      }
    }
  }

  /** A `^` and its run read back as the run itself, once the rest does. */
  lemma UnicodeCaretStep(s: string)
    requires |s| > 0 && s[0] == '^'
    requires forall k :: 0 <= k < |s| ==> !IsSuperChar(s[k])
    requires var n := RunLength(Superscripts, s[1..]);
      Unsuperscript(Rewrite(Superscripts, s[1 + n..])) == Remove(s[1 + n..], '^')
    ensures Unsuperscript(Rewrite(Superscripts, s)) == Remove(s, '^')
  {
    CaretSplit(Superscripts, s);
    var n := RunLength(Superscripts, s[1..]);
    var run := s[1..1 + n];
    UnsuperscriptAppend(Superscript(run), Rewrite(Superscripts, s[1 + n..]));
    SuperscriptInverse(run);
    RemoveCaretRun(run, s[1 + n..]);
  }

  /** A character other than `^` reads back as itself, once the rest does. */
  lemma UnicodePlainStep(s: string)
    requires |s| > 0 && s[0] != '^' && !IsSuperChar(s[0])
    requires Unsuperscript(Rewrite(Superscripts, s[1..])) == Remove(s[1..], '^')
    ensures Unsuperscript(Rewrite(Superscripts, s)) == Remove(s, '^')
  {
    assert s == [s[0]] + s[1..];
    PlainCharStep(s[0], s[1..]);
  }

  lemma {:induction false} RemoveIdentity(s: string, c: char)
    requires c !in s
    ensures Remove(s, c) == s
  {
    if |s| > 0 {
      RemoveIdentity(s[1..], c);
      assert s == [s[0]] + s[1..];
    }
  }

  /** Undoes the HTML markup: `<sup>` back to `^`, `</sup>` dropped. */
  function Unmarkup(t: string): string
    decreases |t|
  {
    if |t| == 0 then ""
    else if StartsWith(t, "<sup>") then "^" + Unmarkup(t[5..])
    else if StartsWith(t, "</sup>") then Unmarkup(t[6..])
    else [t[0]] + Unmarkup(t[1..])
  }

  lemma UnmarkupChar(c: char, t: string)
    requires c != '<'
    ensures Unmarkup([c] + t) == [c] + Unmarkup(t)
  {
    var s := [c] + t;
    assert "<sup>"[0] == '<' && "</sup>"[0] == '<';
    assert !StartsWith(s, "<sup>") && !StartsWith(s, "</sup>");
    assert s[1..] == t;
  }

  lemma {:induction false} UnmarkupPlain(a: string, t: string)
    requires '<' !in a
    ensures Unmarkup(a + t) == a + Unmarkup(t)
  {
    if |a| > 0 {
      var rest := a[1..] + t;
      assert a + t == [a[0]] + rest;
      assert Unmarkup(rest) == a[1..] + Unmarkup(t) by {
        UnmarkupPlain(a[1..], t);
      }
      UnmarkupChar(a[0], rest);
      assert [a[0]] + (a[1..] + Unmarkup(t)) == a + Unmarkup(t);
    } else {
      assert a + t == t;
    }
  }

  lemma UnmarkupOpen(t: string)
    ensures Unmarkup("<sup>" + t) == "^" + Unmarkup(t)
  {
    StartsWithConcat("<sup>", t);
  }

  lemma UnmarkupClose(t: string)
    ensures Unmarkup("</sup>" + t) == Unmarkup(t)
  {
    var u := "</sup>" + t;
    StartsWithConcat("</sup>", t);
    assert u[1] == '/';
    assert u[..5] != "<sup>";
  }

  /** Undoing the markup of one power gives back the caret and its run. */
  lemma UnmarkupPower(run: string, rest: string)
    requires IsRun(HtmlSup, run)
    ensures Unmarkup("<sup>" + run + "</sup>" + rest) == "^" + run + Unmarkup(rest)
  {
    RunHasNoMarkup(HtmlSup, run);
    assert "<sup>" + run + "</sup>" + rest == "<sup>" + (run + ("</sup>" + rest));
    UnmarkupOpen(run + ("</sup>" + rest));
    UnmarkupPlain(run, "</sup>" + rest);
    UnmarkupClose(rest);
  }

  /** The HTML rewrite loses nothing: on text without `<`, undoing the markup gives the text back. */
  lemma {:induction false} HtmlRoundTrip(s: string)
    requires '<' !in s
    ensures Unmarkup(Rewrite(HtmlSup, s)) == s
  {
    if |s| > 0 {
      if s[0] == '^' {
        CaretSplit(HtmlSup, s);
        var n := RunLength(HtmlSup, s[1..]);
        HtmlRoundTrip(s[1 + n..]);
        UnmarkupPower(s[1..1 + n], Rewrite(HtmlSup, s[1 + n..]));
      } else {
        HtmlRoundTrip(s[1..]);
        UnmarkupChar(s[0], Rewrite(HtmlSup, s[1..]));
        assert s == [s[0]] + s[1..];
      }
    }
  }

  /** The number of occurrences of `c`. */
  function Count(s: string, c: char): nat {
    if |s| == 0 then 0 else (if s[0] == c then 1 else 0) + Count(s[1..], c)
  }

  lemma {:induction false} CountAppend(a: string, b: string, c: char)
    ensures Count(a + b, c) == Count(a, c) + Count(b, c)
  {
    if |a| > 0 {
      CountAppend(a[1..], b, c);
      assert (a + b)[0] == a[0] && (a + b)[1..] == a[1..] + b;
    } else {
      assert a + b == b;
    }
  }

  lemma {:induction false} CountAbsent(s: string, c: char)
    requires c !in s
    ensures Count(s, c) == 0
  {
    if |s| > 0 {
      CountAbsent(s[1..], c);
    }
  }

  lemma CountCons(c0: char, rest: string, c: char)
    ensures Count([c0] + rest, c) == (if c0 == c then 1 else 0) + Count(rest, c)
  {
    assert ([c0] + rest)[1..] == rest;
  }

  /** A braced power holds one `{` and one `}`. */
  lemma BracedCounts(run: string, rest: string)
    requires IsRun(LatexBraces, run)
    ensures Count(Wrap(LatexBraces, run) + rest, '{') == 1 + Count(rest, '{')
    ensures Count(Wrap(LatexBraces, run) + rest, '}') == 1 + Count(rest, '}')
  {
    RunHasNoMarkup(LatexBraces, run);
    CountAbsent(run, '{');
    CountAbsent(run, '}');
    assert "^{" + run + "}" + rest == "^{" + (run + ("}" + rest));
    PieceCounts();
    CountAppend("^{", run + ("}" + rest), '{');
    CountAppend("^{", run + ("}" + rest), '}');
    CountAppend(run, "}" + rest, '{');
    CountAppend(run, "}" + rest, '}');
    CountAppend("}", rest, '{');
    CountAppend("}", rest, '}');
  }

  /** With every exponent braced, a text without braces renders with as many `{` as `}`. */
  lemma {:induction false} LatexBracesBalanced(s: string)
    requires '{' !in s && '}' !in s
    ensures Count(Rewrite(LatexBraces, s), '{') == Count(Rewrite(LatexBraces, s), '}')
  {
    if |s| > 0 {
      if s[0] == '^' {
        CaretSplit(LatexBraces, s);
        var n := RunLength(LatexBraces, s[1..]);
        LatexBracesBalanced(s[1 + n..]);
        BracedCounts(s[1..1 + n], Rewrite(LatexBraces, s[1 + n..]));
      } else {
        LatexBracesBalanced(s[1..]);
        CountCons(s[0], Rewrite(LatexBraces, s[1..]), '{');
        CountCons(s[0], Rewrite(LatexBraces, s[1..]), '}');
      }
    }
  }

  lemma MathrmCounts()
    ensures Count("\\mathrm{", '{') == 1 && Count("\\mathrm{", '}') == 0
  {
    assert "\\mathrm{" == "\\mathrm" + "{";
    CountAppend("\\mathrm", "{", '{');
    CountAppend("\\mathrm", "{", '}');
    CountAbsent("\\mathrm", '{');
    CountAbsent("\\mathrm", '}');
  }

  /** Outside a quotient, the LaTeX rendering of a brace-free unit has balanced braces. */
  lemma LatexBalanced(unitText: string)
    requires '/' !in unitText && '{' !in unitText && '}' !in unitText
    ensures Count(UnitToLatex(unitText), '{') == Count(UnitToLatex(unitText), '}')
  {
    var body := Rewrite(LatexBraces, unitText);
    LatexBracesBalanced(unitText);
    MathrmCounts();
    CountAppend("\\mathrm{" + body, "}", '{');
    CountAppend("\\mathrm{" + body, "}", '}');
    CountAppend("\\mathrm{", body, '{');
    CountAppend("\\mathrm{", body, '}');
  }

  /** A unit name with none of the characters the LaTeX rewrite treats specially. */
  predicate IsPlainName(s: string) {
    '^' !in s && ' ' !in s && '/' !in s && '{' !in s && '}' !in s
  }

  /** Replacing `^` by `^{` in `a^d * b`. */
  lemma PoweredShape(a: string, d: string, b: string)
    requires IsPlainName(a) && IsPlainName(b) && IsRun(LatexBraces, d)
    ensures ReplaceChar(a + "^" + d + " * " + b, '^', "^{") == a + "^{" + d + " * " + b
  {
    RunHasNoMarkup(LatexBraces, d);
    var x1 := a + "^";
    var x2 := x1 + d;
    var x3 := x2 + " * ";
    assert ReplaceChar(x1, '^', "^{") == a + "^{" by {
      ReplaceCharAppend(a, "^", '^', "^{");
      assert ReplaceChar("^", '^', "^{") == "^{" + ReplaceChar("", '^', "^{");
    }
    assert ReplaceChar(x2, '^', "^{") == a + "^{" + d by {
      ReplaceCharAppend(x1, d, '^', "^{");
    }
    assert ReplaceChar(x3, '^', "^{") == a + "^{" + d + " * " by {
      ReplaceCharAppend(x2, " * ", '^', "^{");
      assert '^' !in " * ";
    }
    ReplaceCharAppend(x3, b, '^', "^{");
  }

  /** Replacing each space by `} ` in `a^{d * b`. */
  lemma SpacedShape(a: string, d: string, b: string)
    requires IsPlainName(a) && IsPlainName(b) && IsRun(LatexBraces, d)
    ensures ReplaceChar(a + "^{" + d + " * " + b, ' ', "} ") == a + "^{" + d + "} *} " + b
  {
    RunHasNoMarkup(LatexBraces, d);
    var x1 := a + "^{";
    var x2 := x1 + d;
    var x3 := x2 + " * ";
    assert ReplaceChar(x1, ' ', "} ") == x1 by {
      assert ' ' !in "^{";
    }
    assert ReplaceChar(x2, ' ', "} ") == x2 by {
      ReplaceCharAppend(x1, d, ' ', "} ");
    }
    assert ReplaceChar(x3, ' ', "} ") == x2 + "} *} " by {
      ReplaceCharAppend(x2, " * ", ' ', "} ");
      assert ReplaceChar(" * ", ' ', "} ") == "} *} ";
    }
    ReplaceCharAppend(x3, b, ' ', "} ");
  }

  /** `a^d * b` as `_unit_to_latex` writes it. */
  lemma LatexAsWrittenShape(a: string, d: string, b: string)
    requires IsPlainName(a) && IsPlainName(b) && IsRun(LatexBraces, d) && |b| > 0
    ensures UnitToLatexAsWritten(a + "^" + d + " * " + b) == "\\mathrm{" + (a + "^{" + d + "} *} " + b + "}") + "}"
  {
    var u := a + "^" + d + " * " + b;
    var spaced := a + "^{" + d + "} *} " + b;
    assert '/' !in u && '^' in u by {
      RunHasNoMarkup(LatexBraces, d);
      assert '/' !in "^" && '/' !in " * ";
      assert u[|a|] == '^';
    }
    assert ReplaceChar(ReplaceChar(u, '^', "^{"), ' ', "} ") == spaced by {
      PoweredShape(a, d, b);
      SpacedShape(a, d, b);
    }
    assert !EndsWith(spaced, "}") by {
      assert spaced[|spaced| - 1] == b[|b| - 1];
      assert spaced[|spaced| - 1..] == [b[|b| - 1]];
    }
  }

  lemma PieceCounts()
    ensures Count("^{", '{') == 1 && Count("^{", '}') == 0
    ensures Count("} *} ", '{') == 0 && Count("} *} ", '}') == 2
    ensures Count("}", '{') == 0 && Count("}", '}') == 1
  {
  }

  /** The braces of `a^{d} *} b`: one `{` and two `}`. */
  lemma SpacedCounts(a: string, d: string, b: string)
    requires IsPlainName(a) && IsPlainName(b) && IsRun(LatexBraces, d)
    ensures Count(a + "^{" + d + "} *} " + b, '{') == 1
    ensures Count(a + "^{" + d + "} *} " + b, '}') == 2
  {
    RunHasNoMarkup(LatexBraces, d);
    PieceCounts();
    CountAbsent(a, '{');
    CountAbsent(a, '}');
    CountAbsent(d, '{');
    CountAbsent(d, '}');
    CountAbsent(b, '{');
    CountAbsent(b, '}');
    var p1 := a + "^{";
    var p2 := p1 + d;
    var p3 := p2 + "} *} ";
    CountAppend(a, "^{", '{');
    CountAppend(a, "^{", '}');
    CountAppend(p1, d, '{');
    CountAppend(p1, d, '}');
    CountAppend(p2, "} *} ", '{');
    CountAppend(p2, "} *} ", '}');
    CountAppend(p3, b, '{');
    CountAppend(p3, b, '}');
  }

  /**
   * As written, a power followed by a space-separated factor gets its
   * brace closed at every space and once more at the end: `a^d * b`
   * renders as `\\mathrm{a^{d} *} b}}`, with two `{` and four `}`.
   */
  lemma LatexAsWrittenUnbalanced(a: string, d: string, b: string)
    requires IsPlainName(a) && IsPlainName(b) && IsRun(LatexBraces, d) && |b| > 0
    ensures Count(UnitToLatexAsWritten(a + "^" + d + " * " + b), '{') == 2
    ensures Count(UnitToLatexAsWritten(a + "^" + d + " * " + b), '}') == 4
  {
    LatexAsWrittenShape(a, d, b);
    var spaced := a + "^{" + d + "} *} " + b;
    SpacedCounts(a, d, b);
    MathrmCounts();
    PieceCounts();
    CountAppend(spaced, "}", '{');
    CountAppend(spaced, "}", '}');
    CountAppend("\\mathrm{", spaced + "}", '{');
    CountAppend("\\mathrm{", spaced + "}", '}');
    CountAppend("\\mathrm{" + (spaced + "}"), "}", '{');
    CountAppend("\\mathrm{" + (spaced + "}"), "}", '}');
  }

  lemma {:induction false} RewritePlainPrefix(m: Markup, a: string, t: string)
    requires '^' !in a
    ensures Rewrite(m, a + t) == a + Rewrite(m, t)
  {
    if |a| > 0 {
      RewritePlainPrefix(m, a[1..], t);
      assert (a + t)[0] == a[0] && (a + t)[1..] == a[1..] + t;
      assert a == [a[0]] + a[1..];
    } else {
      assert a + t == t;
    }
  }

  /** The corrected rendering of `a^d * b`: `\\mathrm{a^{d} * b}`. */
  lemma LatexShape(a: string, d: string, b: string)
    requires IsPlainName(a) && IsPlainName(b) && IsRun(LatexBraces, d)
    ensures UnitToLatex(a + "^" + d + " * " + b) == "\\mathrm{" + (a + "^{" + d + "}" + " * " + b) + "}"
  {
    var u := a + "^" + d + " * " + b;
    var p, q := "^{" + d + "}", " * " + b;
    assert '/' !in u by {
      RunHasNoMarkup(LatexBraces, d);
      assert '/' !in "^" && '/' !in " * ";
    }
    assert Rewrite(LatexBraces, u) == a + (p + q) by {
      var s := "^" + (d + " * " + b);
      assert u == a + s;
      RewritePlainPrefix(LatexBraces, a, s);
      CaretPower(d, b);
      assert Rewrite(LatexBraces, s) == p + q;
    }
    assert a + (p + q) == (a + p) + q;
    assert (a + p) + q == (a + p) + " * " + b;
    assert a + p == a + "^{" + d + "}";
  }

  lemma CaretPower(d: string, b: string)
    requires IsRun(LatexBraces, d) && '^' !in b
    ensures Rewrite(LatexBraces, "^" + (d + " * " + b)) == "^{" + d + "}" + (" * " + b)
  {
    RunHasNoMarkup(LatexBraces, d);
    var s := "^" + (d + " * " + b);
    assert s[1..] == d + (" * " + b);
    RunLengthUnique(LatexBraces, s[1..], |d|) by {
      assert s[1..][|d|] == ' ';
    }
    CaretSplit(LatexBraces, s);
    assert s[1..1 + |d|] == d;
    assert s[1 + |d|..] == " * " + b;
    RewriteIdentity(LatexBraces, " * " + b) by {
      assert '^' !in " * ";
    }
  }

  /** `meter^2 * second` is one such unit. */
  lemma LatexMeterSquaredSecond()
    ensures Count(UnitToLatexAsWritten("meter" + "^" + "2" + " * " + "second"), '{') == 2
    ensures Count(UnitToLatexAsWritten("meter" + "^" + "2" + " * " + "second"), '}') == 4
    ensures UnitToLatex("meter" + "^" + "2" + " * " + "second") == "\\mathrm{" + ("meter" + "^{" + "2" + "}" + " * " + "second") + "}"
  {
    assert IsRun(LatexBraces, "2");
    LatexAsWrittenUnbalanced("meter", "2", "second");
    LatexShape("meter", "2", "second");
  }

  /** `meter^2.0 * second`, the way products print their float exponents. */
  lemma LatexMeterSquaredFloatSecond()
    ensures UnitToLatexAsWritten("meter" + "^" + "2.0" + " * " + "second")
              == "\\mathrm{" + ("meter" + "^{" + "2.0" + "} *} " + "second" + "}") + "}"
    ensures UnitToLatex("meter" + "^" + "2.0" + " * " + "second")
              == "\\mathrm{" + ("meter" + "^{" + "2.0" + "}" + " * " + "second") + "}"
  {
    assert IsRun(LatexBraces, "2.0");
    LatexAsWrittenShape("meter", "2.0", "second");
    LatexShape("meter", "2.0", "second");
  }

  /** On a single power the two renderings agree: `a^d` becomes `\mathrm{a^{d}}`. */
  lemma LatexSinglePower(a: string, d: string)
    requires IsPlainName(a) && IsRun(LatexBraces, d)
    ensures UnitToLatexAsWritten(a + "^" + d) == "\\mathrm{" + (a + "^{" + d + "}") + "}"
    ensures UnitToLatex(a + "^" + d) == "\\mathrm{" + (a + "^{" + d + "}") + "}"
  {
    SinglePowerAsWritten(a, d);
    SinglePowerBraced(a, d);
  }

  lemma SinglePowerAsWritten(a: string, d: string)
    requires IsPlainName(a) && IsRun(LatexBraces, d)
    ensures UnitToLatexAsWritten(a + "^" + d) == "\\mathrm{" + (a + "^{" + d + "}") + "}"
  {
    RunHasNoMarkup(LatexBraces, d);
    var u := a + "^" + d;
    var powered := a + "^{" + d;
    assert '/' !in u && '^' in u by {
      assert u[|a|] == '^';
    }
    assert ReplaceChar(u, '^', "^{") == powered by {
      ReplaceCharAppend(a + "^", d, '^', "^{");
      ReplaceCharAppend(a, "^", '^', "^{");
      assert ReplaceChar("^", '^', "^{") == "^{" + ReplaceChar("", '^', "^{");
    }
    assert ' ' !in powered;
    assert !EndsWith(powered, "}") by {
      assert powered[|powered| - 1] != '}';
      assert powered[|powered| - 1..] == [powered[|powered| - 1]];
    }
    assert powered + "}" == a + "^{" + d + "}";
  }

  lemma SinglePowerBraced(a: string, d: string)
    requires IsPlainName(a) && IsRun(LatexBraces, d)
    ensures UnitToLatex(a + "^" + d) == "\\mathrm{" + (a + "^{" + d + "}") + "}"
  {
    RunHasNoMarkup(LatexBraces, d);
    var u := a + "^" + d;
    assert '/' !in u;
    var body := a + ("^{" + d + "}");
    assert Rewrite(LatexBraces, u) == body by {
      assert u == a + ("^" + d);
      RewritePlainPrefix(LatexBraces, a, "^" + d);
      CaretRun(d);
    }
    assert body == a + "^{" + d + "}";
  }

  lemma CaretRun(d: string)
    requires IsRun(LatexBraces, d)
    ensures Rewrite(LatexBraces, "^" + d) == "^{" + d + "}"
  {
    var s := "^" + d;
    assert s[1..] == d;
    RunLengthUnique(LatexBraces, s[1..], |d|);
    CaretSplit(LatexBraces, s);
    assert s[1..1 + |d|] == d && s[1 + |d|..] == "";
    assert Rewrite(LatexBraces, "") == "";
  }

  /** With `c` and `x` distinct, replacing `c` by `r` adds `x` once per `c` if `r` holds one `x`. */
  lemma {:induction false} CountReplace(s: string, c: char, r: string, x: char)
    requires x != c && Count(r, x) <= 1
    ensures Count(ReplaceChar(s, c, r), x) == Count(s, x) + (if Count(r, x) == 1 then Count(s, c) else 0)
  {
    if |s| > 0 {
      var head := if s[0] == c then r else [s[0]];
      CountReplace(s[1..], c, r, x);
      CountAppend(head, ReplaceChar(s[1..], c, r), x);
      CountCons(s[0], s[1..], x);
      CountCons(s[0], s[1..], c);
      assert s == [s[0]] + s[1..];
      CountCons(s[0], "", x);
    }
  }

  /** The last character of a replacement: `r`'s last one where `c` was, the same one elsewhere. */
  lemma ReplaceLast(s: string, c: char, r: string)
    requires |s| > 0 && |r| > 0
    ensures var t := ReplaceChar(s, c, r);
            |t| > 0 && t[|t| - 1] == (if s[|s| - 1] == c then r[|r| - 1] else s[|s| - 1])
  {
    var init, last := s[..|s| - 1], s[|s| - 1..];
    assert s == init + last;
    ReplaceCharAppend(init, last, c, r);
    assert last[1..] == "";
  }

  /** The braces after both replacements: one `{` per `^`, one `}` per space. */
  lemma SpacedReplaceCounts(u: string)
    requires '{' !in u && '}' !in u
    ensures var spaced := ReplaceChar(ReplaceChar(u, '^', "^{"), ' ', "} ");
            Count(spaced, '{') == Count(u, '^') && Count(spaced, '}') == Count(u, ' ')
  {
    var powered := ReplaceChar(u, '^', "^{");
    CountAbsent(u, '{');
    CountAbsent(u, '}');
    assert Count("^{", '{') == 1 && Count("^{", '}') == 0 && Count("^{", ' ') == 0;
    assert Count("} ", '{') == 0 && Count("} ", '}') == 1;
    CountReplace(u, '^', "^{", '{');
    CountReplace(u, '^', "^{", '}');
    CountReplace(u, '^', "^{", ' ');
    CountReplace(powered, ' ', "} ", '{');
    CountReplace(powered, ' ', "} ", '}');
  }

  /** After both replacements a text with a `^` ends in `{`, a space or its own last character. */
  lemma SpacedOpen(u: string)
    requires '}' !in u && '^' in u
    ensures !EndsWith(ReplaceChar(ReplaceChar(u, '^', "^{"), ' ', "} "), "}")
  {
    var powered := ReplaceChar(u, '^', "^{");
    var spaced := ReplaceChar(powered, ' ', "} ");
    ReplaceLast(u, '^', "^{");
    ReplaceLast(powered, ' ', "} ");
    assert spaced[|spaced| - 1..] == [spaced[|spaced| - 1]];
  }

  /**
   * `_unit_to_latex` as written on any brace-free unit outside a
   * quotient: without a power it only wraps the text; with one, it opens
   * one brace per `^` and closes one per space plus one at the end, so
   * the braces balance exactly when there is one more `^` than spaces.
   */
  lemma LatexAsWrittenCounts(u: string)
    requires '/' !in u && '{' !in u && '}' !in u
    ensures '^' !in u ==> UnitToLatexAsWritten(u) == "\\mathrm{" + u + "}"
    ensures '^' in u ==> Count(UnitToLatexAsWritten(u), '{') == 1 + Count(u, '^')
    ensures '^' in u ==> Count(UnitToLatexAsWritten(u), '}') == 2 + Count(u, ' ')
    ensures '^' in u ==>
              (Count(UnitToLatexAsWritten(u), '{') == Count(UnitToLatexAsWritten(u), '}')
               <==> Count(u, '^') == Count(u, ' ') + 1)
  {
    if '^' in u {
      var spaced := ReplaceChar(ReplaceChar(u, '^', "^{"), ' ', "} ");
      SpacedReplaceCounts(u);
      SpacedOpen(u);
      assert UnitToLatexAsWritten(u) == "\\mathrm{" + (spaced + "}") + "}";
      MathrmCounts();
      CountAppend(spaced, "}", '{');
      CountAppend(spaced, "}", '}');
      CountAppend("\\mathrm{", spaced + "}", '{');
      CountAppend("\\mathrm{", spaced + "}", '}');
      CountAppend("\\mathrm{" + (spaced + "}"), "}", '{');
      CountAppend("\\mathrm{" + (spaced + "}"), "}", '}');
    }
  }

  /** A quotient of two trimmed, slash-free names renders as `\frac{num}{den}`. */
  lemma LatexQuotient(num: string, den: string)
    requires '/' !in num && '/' !in den
    requires |num| > 0 && !IsSpace(num[0]) && !IsSpace(num[|num| - 1])
    requires |den| > 0 && !IsSpace(den[0]) && !IsSpace(den[|den| - 1])
    ensures UnitToLatex(num + "/" + den) == "\\frac{" + num + "}{" + den + "}"
    ensures UnitToLatexAsWritten(num + "/" + den) == "\\frac{" + num + "}{" + den + "}"
  {
    var u := num + "/" + den;
    assert '/' in u by {
      assert u[|num|] == '/';
    }
    assert LatexFraction(u) == "\\frac{" + num + "}{" + den + "}" by {
      SplitAfter(num, '/', den);
      StripTrimmed(num);
      StripTrimmed(den);
    }
  }
}
