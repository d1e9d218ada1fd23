/**
 * `UnitValidator` and its helpers: whether a text is a unit, whether two
 * units share a dimension, the component dictionary and simplified name of
 * a unit text, the edit distance between two texts, and the suggestions
 * offered for a misspelt unit name.
 *
 * The validator's only attribute, the set of conversion-table keys, is
 * fixed at construction and never updated, so everything here is a value
 * computation; the loops of `simplify_unit`, `_levenshtein_distance` and
 * `suggest_corrections` are methods proved against the functions they
 * compute.
 */
module Validator {
  import opened Wrappers
  import opened Text
  import opened Dimensions
  import opened Components
  import opened UnitTables
  import opened Units

  // ------------------------------------------------------------- validity

  /**
   * `is_valid`: `Unit(s)` is attempted and any exception means invalid.
   * Parsing is defined for every text, so every text is valid.
   */
  function IsValid(s: string): (r: bool)
    ensures r
  {
    var _ := FromString(s, 1.0);
    true
  }

  /** `validate`: the verdict together with the message of the exception, when there is one. */
  function Validate(s: string): (r: (bool, Option<string>))
    ensures r.0 == IsValid(s)
    ensures r.0 <==> r.1 == None
  {
    var _ := FromString(s, 1.0);
    (true, None)
  }

  /** `validate_unit`: the module-level shortcut for `is_valid`. */
  function ValidateUnit(s: string): (r: bool)
    ensures r == IsValid(s)
  {
    IsValid(s)
  }

  /** Unknown names are accepted: the text `invalid_unit` is valid, as is every other text. */
  lemma EveryTextIsValid(s: string)
    ensures ValidateUnit(s) && Validate(s) == (true, None)
  {
  }

  // -------------------------------------------------------- dimensionality

  /** The fields of the message `check_dimensionality` writes for units of different dimensions. */
  datatype Mismatch = Mismatch(unit1: string, dim1: Dimension, unit2: string, dim2: Dimension)

  /**
   * `check_dimensionality`: compatible units give `(True, None)`, others
   * `(False, message)` naming both texts and both dimensions.
   */
  function CheckDimensionality(unit1: string, unit2: string): (r: (bool, Option<Mismatch>))
    ensures r.0 <==> Compatible(FromString(unit1, 1.0), FromString(unit2, 1.0))
    ensures r.0 <==> r.1 == None
    ensures !r.0 ==>
      r.1.value.unit1 == unit1 && r.1.value.unit2 == unit2 && r.1.value.dim1 != r.1.value.dim2
      && r.1.value.dim1 == DimOf(ParseComponents(unit1)) && r.1.value.dim2 == DimOf(ParseComponents(unit2))
  {
    var u1 := FromString(unit1, 1.0);
    var u2 := FromString(unit2, 1.0);
    if Compatible(u1, u2) then (true, None)
    else (false, Some(Mismatch(unit1, DimOf(u1.components), unit2, DimOf(u2.components))))
  }

  /** A unit text is always compatible with itself, and the check is symmetric. */
  lemma CheckDimensionalitySymmetric(unit1: string, unit2: string)
    ensures CheckDimensionality(unit1, unit1) == (true, None)
    ensures CheckDimensionality(unit1, unit2).0 == CheckDimensionality(unit2, unit1).0
  {
  }

  /** The documented examples: `meter` and `foot` are compatible, `meter` and `second` are not. */
  lemma CheckDimensionalityExamples()
    ensures CheckDimensionality("meter", "foot") == (true, None)
    ensures !CheckDimensionality("meter", "second").0
  {
    MeterIsToken();
    MeterIsLength();
    FootIsLength();
    SecondIsTime();
    TokensCompatibility("meter", "foot");
    TokensCompatibility("meter", "second");
  }

  /** Two single names are compatible exactly when they resolve to base units of the same dimension. */
  lemma TokensCompatibility(a: string, b: string)
    requires IsToken(a) && IsToken(b)
    ensures CheckDimensionality(a, b).0 <==> BaseDim(a) == BaseDim(b)
  {
    ParseToken(a);
    ParseToken(b);
    SingleNameDim(a);
    SingleNameDim(b);
  }

  lemma FootIsLength()
    ensures IsToken("foot") && BaseDim("foot") == Length
  {
    var s := "foot";
    assert forall i :: 0 <= i < |s| ==> s[i] != '/' && s[i] != '*' && s[i] != ' ';
    ResolveAgrees(s);
    ResolvesFoot();
    LookupBaseUnits("meter");
  }

  lemma ResolvesFoot()
    ensures ResolveChain("foot") == "meter"
  {
    FootNotInSmallLists();
    FootNotInTime();
    FootNotInMass();
    assert LengthUnits[26] == "foot";
  }

  lemma FootNotInSmallLists()
    ensures "foot" !in DimensionlessUnits && "foot" !in LuminosityUnits && "foot" !in AmountUnits
    ensures "foot" !in CurrentUnits && "foot" !in TemperatureUnits
  {
  }

  lemma FootNotInTime()
    ensures "foot" !in TimeUnits
  {
  }

  lemma FootNotInMass()
    ensures "foot" !in MassUnits
  {
  }

  lemma SecondIsTime()
    ensures IsToken("second") && BaseDim("second") == Time
  {
    var s := "second";
    assert forall i :: 0 <= i < |s| ==> s[i] != '/' && s[i] != '*' && s[i] != ' ';
    ResolveAgrees(s);
    ResolvesSecond();
    LookupBaseUnits(s);
  }

  // ------------------------------------------------------- compound units

  /**
   * `parse_compound_unit`: the component dictionary of the text. A `^`
   * is not an exponent: `meter/second^2` has `second^2` with power -1.
   */
  function ParseCompoundUnit(s: string): (c: Components)
    ensures UniqueKeys(c)
    ensures '/' !in s && '*' !in s && ' ' !in s ==> c == [(Strip(s), 1)]
  {
    FromString(s, 1.0).components
  }

  /** The documented example `meter/second^2` parses as `{'meter': 1, 'second^2': -1}`, not as `second` with power -2. */
  lemma ParseCompoundExample()
    ensures ParseCompoundUnit("meter" + "/" + "second^2") == [("meter", 1), ("second^2", -1)]
  {
    MeterIsToken();
    SecondSquaredIsToken();
    ParseQuotient("meter", "second^2");
    StripTrimmed("meter");
    StripTrimmed("second^2");
    ParseToken("meter");
    ParseToken("second^2");
    MeterOverSecondSquared();
  }

  lemma MeterOverSecondSquared()
    ensures Combine([("meter", 1)], [("second^2", 1)], -1) == [("meter", 1), ("second^2", -1)]
  {
    var c := [("meter", 1)];
    assert Combine(c, [("second^2", 1)], -1) == Combine(Put(c, "second^2", -1), [], -1);
  }

  /** The components with a power other than zero, in their order. */
  function NonZero(c: Components): Components {
    if |c| == 0 then []
    else
      var last := c[|c| - 1];
      NonZero(c[..|c| - 1]) + (if last.1 != 0 then [last] else [])
  }

  /** No power left after the filter is zero, and the filter only ever shortens. */
  lemma {:induction false} NonZeroPowers(c: Components)
    ensures |NonZero(c)| <= |c|
    ensures forall i :: 0 <= i < |NonZero(c)| ==> NonZero(c)[i].1 != 0
  {
    if |c| > 0 {
      NonZeroPowers(c[..|c| - 1]);
    }
  }

  /** Dropping zero powers changes neither the numerator nor the denominator of a quotient's name. */
  lemma NonZeroParts(c: Components)
    ensures NumeratorParts(NonZero(c)) == NumeratorParts(c)
    ensures DenominatorParts(NonZero(c)) == DenominatorParts(c)
  {
    forall x: (string, int) | x.1 == 0
      ensures NumeratorPiece(x) == [] && DenominatorPiece(x) == []
    {
    }
    NonZeroPieces(c, NumeratorPiece);
    NonZeroPieces(c, DenominatorPiece);
  }

  /** Components that contribute no piece can be dropped without changing the pieces. */
  lemma {:induction false} NonZeroPieces(c: Components, piece: ((string, int)) -> seq<string>)
    requires forall x: (string, int) :: x.1 == 0 ==> piece(x) == []
    ensures PartsOf(NonZero(c), piece) == PartsOf(c, piece)
  {
    if |c| > 0 {
      var init, last := c[..|c| - 1], c[|c| - 1];
      NonZeroPieces(init, piece);
      if last.1 != 0 {
        var r := NonZero(init) + [last];
        assert NonZero(c) == r;
        assert r[..|r| - 1] == NonZero(init) && r[|r| - 1] == last;
      } else {
        assert NonZero(c) == NonZero(init);
      }
    }
  }

  /**
   * `simplify_unit`: zero powers are dropped, no powers left gives
   * `dimensionless`, and the rest is rendered as a quotient, positive
   * powers over negative ones. The result is the name a quotient of the
   * parsed components carries.
   */
  method SimplifyUnit(s: string) returns (text: string)
    ensures text == QuotientName(ParseComponents(s))
  {
    text := RenderSimplified(FromString(s, 1.0).components);
  }

  /** The body of `simplify_unit` once the text is parsed: filter, then render as a quotient. */
  method RenderSimplified(parsed: Components) returns (text: string)
    ensures text == QuotientName(parsed)
  {
    var components := NonZero(parsed);
    NonZeroParts(parsed);
    NonZeroPowers(parsed);
    if |components| == 0 {
      return "dimensionless";
    }
    var numerator: seq<string> := [];
    var denominator: seq<string> := [];
    var i := 0;
    while i < |components|
      invariant 0 <= i <= |components|
      invariant numerator == NumeratorParts(components[..i])
      invariant denominator == DenominatorParts(components[..i])
    {
      var (name, power) := components[i];
      PartsOfStep(components, i, NumeratorPiece);
      PartsOfStep(components, i, DenominatorPiece);
      if power > 0 {
        numerator := numerator + NumeratorPiece((name, power));
      } else {
        denominator := denominator + DenominatorPiece((name, power));
      }
      i := i + 1;
    }
    WholeSlice(components);
    if |denominator| == 0 {
      text := Join(" * ", numerator);
    } else if |numerator| == 0 {
      text := "1 / " + Join(" * ", denominator);
    } else {
      text := Join(" * ", numerator) + " / " + Join(" * ", denominator);
    }
  }

  /** A unit divided by itself cancels: `meter * second / second` simplifies to `meter`. */
  lemma SimplifyExample()
    ensures QuotientName(ParseComponents("meter" + " * " + "second" + " / " + "second")) == "meter"
  {
    MeterIsToken();
    var sec := "second";
    assert IsToken(sec) by {
      assert forall i :: 0 <= i < |sec| ==> sec[i] != '/' && sec[i] != '*' && sec[i] != ' ';
    }
    CancelledQuotient("meter", sec);
  }

  /** For two different names, `a * b / b` parses with `b` cancelled and is named `a`. */
  lemma CancelledQuotient(a: string, b: string)
    requires IsToken(a) && IsToken(b) && a != b
    ensures QuotientName(ParseComponents(a + " * " + b + " / " + b)) == a
  {
    var num := a + " * " + b;
    ParseProductOfTokens(a, b);
    ProductTextChars(a, b);
    SpacedSlash(num, b);
    NoSlashPadded(num, b);
    ParseQuotient(num + " ", " " + b);
    assert num[0] == a[0] && num[|num| - 1] == b[|b| - 1];
    StripPadded(num);
    StripPadded(b);
    ParseToken(b);
    CancelSecond(a, b);
  }

  /** Padding with a space adds no slash. */
  lemma NoSlashPadded(x: string, y: string)
    requires '/' !in x && '/' !in y
    ensures '/' !in x + " " && '/' !in " " + y
  {
    assert '/' !in " ";
  }

  /** A ` / ` between two texts is a `/` between the texts padded with a space. */
  lemma SpacedSlash(x: string, y: string)
    ensures x + " / " + y == (x + " ") + "/" + (" " + y)
  {
    assert " / " == " " + "/" + " ";
  }

  /** `a * b / b` keeps `b` with power zero, and the quotient's name is `a` alone. */
  lemma CancelSecond(a: string, b: string)
    requires a != b
    ensures Combine([(a, 1), (b, 1)], [(b, 1)], -1) == [(a, 1), (b, 0)]
    ensures QuotientName([(a, 1), (b, 0)]) == a
  {
    var c := [(a, 1), (b, 1)];
    var e: Components := [];
    assert c[1..] == [(b, 1)] && c[1..][1..] == e;
    assert Get(c, b, 0) == 1;
    assert Put(c[1..], b, 0) == [(b, 0)];
    assert Put(c, b, 0) == [(a, 1), (b, 0)];
    assert Combine(c, [(b, 1)], -1) == Combine(Put(c, b, 0), [], -1);
    var d := [(a, 1), (b, 0)];
    assert d[..1] == [(a, 1)] && d[..1][..0] == e;
    assert NumeratorPiece(d[0]) == [a] && NumeratorPiece(d[1]) == [];
    assert DenominatorPiece(d[0]) == [] && DenominatorPiece(d[1]) == [];
    assert PartsOf(d[..1], NumeratorPiece) == PartsOf(e, NumeratorPiece) + [a];
    assert PartsOf(d[..1], DenominatorPiece) == PartsOf(e, DenominatorPiece) + [];
    assert NumeratorParts(d) == [a];
    assert DenominatorParts(d) == [];
  }

  // --------------------------------------------------------- edit distance

  /** The cost of substituting `y` for `x`: nothing when they are the same character. */
  function Substitution(x: char, y: char): nat {
    if x == y then 0 else 1
  }

  /** Python's `min` of three numbers. */
  function Min3(a: nat, b: nat, c: nat): nat {
    if a <= b && a <= c then a else if b <= c then b else c
  }

  /** The smallest of three is below each and is one of them. */
  lemma Min3Is(a: nat, b: nat, c: nat)
    ensures Min3(a, b, c) <= a && Min3(a, b, c) <= b && Min3(a, b, c) <= c
    ensures Min3(a, b, c) == a || Min3(a, b, c) == b || Min3(a, b, c) == c
  {
  }

  /** The smallest of three does not depend on the order of the first two. */
  lemma Min3Swap(a: nat, b: nat, c: nat)
    ensures Min3(a, b, c) == Min3(b, a, c)
  {
  }

  function Max(a: nat, b: nat): nat {
    if a >= b then a else b
  }

  /**
   * The Levenshtein table: the fewest single-character insertions,
   * deletions and substitutions turning the first `i` characters of `a`
   * into the first `j` characters of `b`.
   */
  function Cell(a: string, b: string, i: nat, j: nat): nat
    requires i <= |a| && j <= |b|
    decreases i + j
  {
    if i == 0 then j
    else if j == 0 then i
    else Step(Cell(a, b, i - 1, j), Cell(a, b, i, j - 1), Cell(a, b, i - 1, j - 1), a[i - 1], b[j - 1])
  }

  /** One inner cell from its upper, left and diagonal neighbours: the cheapest of a deletion, an insertion and a substitution. */
  function Step(up: nat, left: nat, diagonal: nat, x: char, y: char): nat {
    Min3(up + 1, left + 1, diagonal + Substitution(x, y))
  }

  /** Swapping the two texts swaps the upper and left neighbours. */
  lemma StepSwap(up: nat, left: nat, diagonal: nat, x: char, y: char)
    ensures Step(up, left, diagonal, x, y) == Step(left, up, diagonal, y, x)
  {
    Min3Swap(up + 1, left + 1, diagonal + Substitution(x, y));
  }

  /** The Levenshtein distance between two whole texts. */
  function EditDistance(a: string, b: string): nat {
    Cell(a, b, |a|, |b|)
  }

  /** A cell is at most the longer prefix length: substitute all along, then insert or delete the rest. */
  lemma {:induction false} CellUpper(a: string, b: string, i: nat, j: nat)
    requires i <= |a| && j <= |b|
    ensures Cell(a, b, i, j) <= Max(i, j)
    decreases i + j
  {
    if i > 0 && j > 0 {
      CellUpper(a, b, i - 1, j - 1);
      var cost := Substitution(a[i - 1], b[j - 1]);
      Min3Is(Cell(a, b, i - 1, j) + 1, Cell(a, b, i, j - 1) + 1, Cell(a, b, i - 1, j - 1) + cost);
    }
  }

  /** A cell is at least the difference of the prefix lengths: each edit changes the length by at most one. */
  lemma {:induction false} CellLower(a: string, b: string, i: nat, j: nat)
    requires i <= |a| && j <= |b|
    ensures Cell(a, b, i, j) >= i - j && Cell(a, b, i, j) >= j - i
    decreases i + j
  {
    if i > 0 && j > 0 {
      CellLower(a, b, i - 1, j);
      CellLower(a, b, i, j - 1);
      CellLower(a, b, i - 1, j - 1);
      var cost := Substitution(a[i - 1], b[j - 1]);
      Min3Is(Cell(a, b, i - 1, j) + 1, Cell(a, b, i, j - 1) + 1, Cell(a, b, i - 1, j - 1) + cost);
    }
  }

  /** Filling the table with the texts swapped gives its transpose. */
  lemma {:induction false} CellSymmetric(a: string, b: string, i: nat, j: nat)
    requires i <= |a| && j <= |b|
    ensures Cell(a, b, i, j) == Cell(b, a, j, i)
    decreases i + j
  {
    if i > 0 && j > 0 {
      CellSymmetric(a, b, i - 1, j);
      var up := Cell(a, b, i - 1, j);
      assert up == Cell(b, a, j, i - 1);
      CellSymmetric(a, b, i, j - 1);
      var left := Cell(a, b, i, j - 1);
      assert left == Cell(b, a, j - 1, i);
      CellSymmetric(a, b, i - 1, j - 1);
      var diagonal := Cell(a, b, i - 1, j - 1);
      assert diagonal == Cell(b, a, j - 1, i - 1);
      CellSymmetricStep(a, b, i, j);
    }
  }

  /** An inner cell is symmetric once its three neighbours are. */
  lemma CellSymmetricStep(a: string, b: string, i: nat, j: nat)
    requires 0 < i <= |a| && 0 < j <= |b|
    requires Cell(a, b, i - 1, j) == Cell(b, a, j, i - 1)
    requires Cell(a, b, i, j - 1) == Cell(b, a, j - 1, i)
    requires Cell(a, b, i - 1, j - 1) == Cell(b, a, j - 1, i - 1)
    ensures Cell(a, b, i, j) == Cell(b, a, j, i)
  {
    var up, left, diagonal := Cell(a, b, i - 1, j), Cell(a, b, i, j - 1), Cell(a, b, i - 1, j - 1);
    assert Cell(a, b, i, j) == Step(up, left, diagonal, a[i - 1], b[j - 1]);
    assert Cell(b, a, j, i) == Step(left, up, diagonal, b[j - 1], a[i - 1]);
    StepSwap(up, left, diagonal, a[i - 1], b[j - 1]);
  }

  /** A cell is zero exactly when the two prefixes are the same text. */
  lemma {:induction false} CellZero(a: string, b: string, i: nat, j: nat)
    requires i <= |a| && j <= |b|
    ensures Cell(a, b, i, j) == 0 <==> a[..i] == b[..j]
    decreases i + j
  {
    if i > 0 && j > 0 {
      CellZero(a, b, i - 1, j - 1);
      assert a[..i] == a[..i - 1] + [a[i - 1]] && b[..j] == b[..j - 1] + [b[j - 1]];
      if a[..i] == b[..j] {
        assert a[..i - 1] == a[..i][..i - 1] == b[..j][..j - 1] == b[..j - 1];
        assert a[i - 1] == a[..i][i - 1] == b[..j][j - 1] == b[j - 1];
      }
    } else if i > 0 {
      assert |a[..i]| != |b[..j]|;
    } else if j > 0 {
      assert |a[..i]| != |b[..j]|;
    }
  }

  /**
   * The distance between two texts: at least the difference of their
   * lengths, at most the longer length, the same either way round, and
   * zero exactly between equal texts.
   */
  lemma EditDistanceProperties(a: string, b: string)
    ensures EditDistance(a, b) >= |a| - |b| && EditDistance(a, b) >= |b| - |a|
    ensures EditDistance(a, b) <= Max(|a|, |b|)
    ensures EditDistance(a, b) == EditDistance(b, a)
    ensures EditDistance(a, b) == 0 <==> a == b
  {
    CellUpper(a, b, |a|, |b|);
    CellLower(a, b, |a|, |b|);
    CellSymmetric(a, b, |a|, |b|);
    CellZero(a, b, |a|, |b|);
    assert a[..|a|] == a && b[..|b|] == b;
  }

  /**
   * `_levenshtein_distance`: the longer text drives the outer loop (the
   * arguments are swapped when the first is shorter), an empty second
   * text gives the first one's length, and each row of the table is built
   * from the one before.
   */
  method LevenshteinDistance(s1: string, s2: string) returns (d: nat)
    ensures d == EditDistance(s1, s2)
    decreases if |s1| < |s2| then 1 else 0
  {
    if |s1| < |s2| {
      d := LevenshteinDistance(s2, s1);
      CellSymmetric(s2, s1, |s2|, |s1|);
      return;
    }
    if |s2| == 0 {
      return |s1|;
    }
    var row := LastRow(s1, s2);
    d := row[|s2|];
  }

  /** The outer loop of `_levenshtein_distance`: the table's rows from the first to the last. */
  method LastRow(s1: string, s2: string) returns (previous: seq<nat>)
    ensures |previous| == |s2| + 1
    ensures forall j :: 0 <= j <= |s2| ==> previous[j] == Cell(s1, s2, |s1|, j)
  {
    previous := seq(|s2| + 1, j => j);
    var i := 0;
    while i < |s1|
      invariant 0 <= i <= |s1|
      invariant |previous| == |s2| + 1
      invariant forall j :: 0 <= j <= |s2| ==> previous[j] == Cell(s1, s2, i, j)
    {
      previous := NextRow(s1, s2, i, previous);
      i := i + 1;
    }
  }

  /** The inner loop of `_levenshtein_distance`: the row for `i + 1` characters of `s1` from the row for `i`. */
  method NextRow(s1: string, s2: string, i: nat, previous: seq<nat>) returns (current: seq<nat>)
    requires i < |s1| && |previous| == |s2| + 1
    requires forall j :: 0 <= j <= |s2| ==> previous[j] == Cell(s1, s2, i, j)
    ensures |current| == |s2| + 1
    ensures forall j :: 0 <= j <= |s2| ==> current[j] == Cell(s1, s2, i + 1, j)
  {
    current := [i + 1];
    var j := 0;
    while j < |s2|
      invariant 0 <= j <= |s2|
      invariant |current| == j + 1
      invariant forall k :: 0 <= k <= j ==> current[k] == Cell(s1, s2, i + 1, k)
    {
      var insertion := previous[j + 1] + 1;
      var deletion := current[j] + 1;
      var substitution := previous[j] + (if s1[i] != s2[j] then 1 else 0);
      current := current + [Min3(insertion, deletion, substitution)];
      j := j + 1;
    }
  }

  // ----------------------------------------------------------- suggestions

  /**
   * Whether `suggest_corrections` offers `key` for the lower-cased input:
   * one lower-cased text contains the other, or they are at most two
   * edits apart.
   */
  predicate Similar(lowered: string, key: string) {
    var k := Lower(key);
    IsSubstring(lowered, k) || IsSubstring(k, lowered) || EditDistance(lowered, k) <= 2
  }

  /** The keys similar to the lower-cased input, in the order they are visited. */
  function Matches(lowered: string, keys: seq<string>): (r: seq<string>)
    ensures |r| <= |keys|
    ensures forall x :: x in r <==> x in keys && Similar(lowered, x)
  {
    if |keys| == 0 then []
    else
      var last := keys[|keys| - 1];
      assert keys == keys[..|keys| - 1] + [last];
      Matches(lowered, keys[..|keys| - 1]) + (if Similar(lowered, last) then [last] else [])
  }

  lemma MatchesStep(lowered: string, keys: seq<string>, i: nat)
    requires i < |keys|
    ensures Matches(lowered, keys[..i + 1]) == Matches(lowered, keys[..i]) + (if Similar(lowered, keys[i]) then [keys[i]] else [])
  {
    assert keys[..i + 1][..i] == keys[..i] && keys[..i + 1][i] == keys[i];
  }

  /** Python's `xs[:n]`: the first `n` items, or for negative `n` all but the last `-n`. */
  function Prefix(xs: seq<string>, n: int): (r: seq<string>)
    ensures |r| <= |xs| && r == xs[..|r|]
    ensures n >= 0 ==> |r| == if n < |xs| then n else |xs|
    ensures n < 0 ==> |r| == if |xs| + n > 0 then |xs| + n else 0
  {
    if n >= 0 then (if n < |xs| then xs[..n] else xs)
    else if |xs| + n > 0 then xs[..|xs| + n] else []
  }

  /**
   * `suggest_corrections`: every key similar to the input, in the order
   * the keys are visited, cut to `maxSuggestions` with a slice. `keys` are
   * the conversion table's names in the iteration order of the set that
   * holds them.
   */
  method SuggestCorrections(input: string, keys: seq<string>, maxSuggestions: int) returns (r: seq<string>)
    ensures r == Prefix(Matches(Lower(input), keys), maxSuggestions)
  {
    var suggestions: seq<string> := [];
    var lowered := Lower(input);
    var i := 0;
    while i < |keys|
      invariant 0 <= i <= |keys|
      invariant suggestions == Matches(lowered, keys[..i])
    {
      var key := keys[i];
      var k := Lower(key);
      MatchesStep(lowered, keys, i);
      if IsSubstring(lowered, k) || IsSubstring(k, lowered) {
        suggestions := suggestions + [key];
      } else {
        var distance := LevenshteinDistance(lowered, k);
        if distance <= 2 {
          suggestions := suggestions + [key];
        }
      }
      i := i + 1;
    }
    assert keys[..|keys|] == keys;
    r := Prefix(suggestions, maxSuggestions);
  }

  /**
   * What a suggestion list holds: only similar keys, no more than asked
   * for, and, when the similar keys fit, every one of them.
   */
  lemma SuggestionsAreSimilar(input: string, keys: seq<string>, maxSuggestions: int, key: string)
    ensures var r := Prefix(Matches(Lower(input), keys), maxSuggestions);
            (key in r ==> key in keys && Similar(Lower(input), key))
            && (maxSuggestions >= 0 ==> |r| <= maxSuggestions)
            && (|Matches(Lower(input), keys)| <= maxSuggestions && key in keys && Similar(Lower(input), key) ==> key in r)
  {
    var m := Matches(Lower(input), keys);
    var r := Prefix(m, maxSuggestions);
    if key in r {
      var i :| 0 <= i < |r| && r[i] == key;
      assert m[i] == key;
    }
  }

  /** A key equal to the input up to letter case is always similar to it. */
  lemma SameNameIsSimilar(input: string, key: string)
    requires Lower(input) == Lower(key)
    ensures Similar(Lower(input), key)
  {
    var k := Lower(key);
    assert StartsWith(k, k) by {
      assert k[..|k|] == k;
    }
  }

  /** `suggest_unit`: the corrections with the default limit of five. */
  method SuggestUnit(input: string, keys: seq<string>) returns (r: seq<string>)
    ensures r == Prefix(Matches(Lower(input), keys), 5) && |r| <= 5
  {
    r := SuggestCorrections(input, keys, 5);
  }
}
