/**
 * The unit algebra of `Unit`: parsing a unit string into a component
 * dictionary, the dimension and conversion factor such a dictionary stands
 * for, the product, quotient and power of units with their rendered names,
 * equality, and the conversion to base units.
 *
 * Everything here is a value computation. The class-level parse cache and
 * the lazily built alias map live in module UnitState, which is proved to
 * produce exactly the units described here.
 */
module Units {
  import opened Wrappers
  import opened Text
  import opened RealMath
  import opened Dimensions
  import opened Components
  import opened UnitTables

  /** A unit: its display name, its component dictionary and its scale. */
  datatype Unit = Unit(name: string, components: Components, scale: real)

  // ---------------------------------------------------------------- parsing

  /** `[p.strip() for p in parts if p.strip()]`. */
  function Pieces(parts: seq<string>): (r: seq<string>)
    ensures forall i :: 0 <= i < |r| ==> |r[i]| > 0
  {
    if |parts| == 0 then []
    else
      var p := Strip(parts[0]);
      (if |p| > 0 then [p] else []) + Pieces(parts[1..])
  }

  lemma {:induction false} PiecesShorter(parts: seq<string>, n: nat)
    requires forall i :: 0 <= i < |parts| ==> |parts[i]| < n
    ensures forall i :: 0 <= i < |Pieces(parts)| ==> |Pieces(parts)[i]| < n
  {
    if |parts| > 0 {
      PiecesShorter(parts[1..], n);
    }
  }

  /**
   * The component dictionary `_parse_unit` builds for `s`:
   *  - with a `/`, the first piece's dictionary minus the second piece's;
   *  - otherwise, with a `*` (or else a space), the sum of the
   *    dictionaries of the non-blank pieces;
   *  - otherwise the stripped text itself with power 1, so `^` is never
   *    read as an exponent.
   * Every piece goes through `Unit(piece)`, which parses it the same way.
   */
  function ParseComponents(s: string): (c: Components)
    ensures UniqueKeys(c)
    decreases |s|, 2, 0
  {
    if '/' in s then ParseQuotientText(s)
    else if '*' in s || ' ' in s then ParseProductText(s)
    else [(Strip(s), 1)]
  }

  /** A text with a `/`: numerator minus denominator; pieces after the second `/` are ignored. */
  function ParseQuotientText(s: string): (c: Components)
    requires '/' in s
    ensures UniqueKeys(c)
    decreases |s|, 1, 0
  {
    var parts := Split(s, '/');
    var num := ParseComponents(Strip(parts[0]));
    var den := ParseComponents(Strip(parts[1]));
    CombineUnique(num, den, -1);
    Combine(num, den, -1)
  }

  /** A text with a `*` (else a space) and no `/`: the sum of its non-blank pieces. */
  function ParseProductText(s: string): (c: Components)
    requires '*' in s || ' ' in s
    ensures UniqueKeys(c)
    decreases |s|, 1, 0
  {
    var sep := if '*' in s then '*' else ' ';
    PiecesShorter(Split(s, sep), |s|);
    SumParsed(Pieces(Split(s, sep)), |s|)
  }

  /**
   * The dictionaries of several pieces added up, first to last, each
   * piece parsed as a unit of its own (`bound` exceeds every piece's length).
   */
  function SumParsed(parts: seq<string>, bound: nat): (c: Components)
    requires forall i :: 0 <= i < |parts| ==> |parts[i]| < bound
    ensures UniqueKeys(c)
    decreases bound, 0, |parts|
  {
    if |parts| == 0 then []
    else
      var init := SumParsed(parts[..|parts| - 1], bound);
      CombineUnique(init, ParseComponents(parts[|parts| - 1]), 1);
      Combine(init, ParseComponents(parts[|parts| - 1]), 1)
  }

  /** The name `_parse_unit` records: the text itself for a compound unit, else the stripped text. */
  function ParseName(s: string): string {
    if '/' in s || '*' in s || ' ' in s then s else Strip(s)
  }

  /** `Unit(s, scale)`: the unit a string denotes. It is defined for every string. */
  function FromString(s: string, scale: real): (u: Unit)
    ensures u.scale == scale && UniqueKeys(u.components)
  {
    Unit(ParseName(s), ParseComponents(s), scale)
  }

  /** A piece of text that parses as a single atomic unit name. */
  predicate IsToken(t: string) {
    |t| > 0 && '/' !in t && '*' !in t && ' ' !in t && !IsSpace(t[0]) && !IsSpace(t[|t| - 1])
  }

  /** An atomic token, whatever it contains (including `^`), is one component with power 1. */
  lemma ParseToken(t: string)
    requires IsToken(t)
    ensures ParseComponents(t) == [(t, 1)] && ParseName(t) == t
  {
    StripTrimmed(t);
  }

  /** Only the first two `/`-separated pieces are read: `a/b/c` parses like `a/b`. */
  lemma ParseIgnoresThirdPart(a: string, b: string, c: string)
    requires '/' !in a && '/' !in b
    ensures ParseComponents(a + "/" + b + "/" + c) == ParseComponents(a + "/" + b)
  {
    var s := a + "/" + b + "/" + c;
    var s' := a + "/" + b;
    assert s == a + ['/'] + (b + "/" + c);
    assert s' == a + ['/'] + b;
    SplitAfter(a, '/', b + "/" + c);
    SplitAfter(b, '/', c);
    assert b + "/" + c == b + ['/'] + c;
    SplitAfter(a, '/', b);
    assert '/' in s && '/' in s' by {
      assert s[|a|] == '/' && s'[|a|] == '/';
    }
  }

  /** A quotient string `a/b` parses as the numerator's dictionary combined with the denominator's, subtracting. */
  lemma ParseQuotient(a: string, b: string)
    requires '/' !in a && '/' !in b
    ensures ParseComponents(a + "/" + b) == Combine(ParseComponents(Strip(a)), ParseComponents(Strip(b)), -1)
  {
    var s := a + "/" + b;
    assert s == a + ['/'] + b;
    SplitAfter(a, '/', b);
    assert s[|a|] == '/';
  }

  /** A quotient string's powers are the numerator's minus the denominator's, name by name. */
  lemma ParseQuotientPowers(a: string, b: string, k: string)
    requires '/' !in a && '/' !in b
    ensures Get(ParseComponents(a + "/" + b), k, 0)
         == Get(ParseComponents(Strip(a)), k, 0) - Get(ParseComponents(Strip(b)), k, 0)
  {
    ParseQuotient(a, b);
    CombineGet(ParseComponents(Strip(a)), ParseComponents(Strip(b)), -1, k);
  }

  /** Repeated tokens add up: `t * t` is `t` with power 2, and `a * b` has both with power 1. */
  lemma ParseProductOfTokens(a: string, b: string)
    requires IsToken(a) && IsToken(b)
    ensures ParseComponents(a + " * " + b) == if a == b then [(a, 2)] else [(a, 1), (b, 1)]
  {
    ProductTextChars(a, b);
    ProductOfTwoTokens(a, b);
    SumOfTwoTokens(a, b);
  }

  /** The pieces of `a * b` are parsed one by one and added up. */
  lemma ProductOfTwoTokens(a: string, b: string)
    requires IsToken(a) && IsToken(b)
    ensures ParseProductText(a + " * " + b) == Combine([(a, 1)], [(b, 1)], 1)
  {
    var s := a + " * " + b;
    ProductTextSum(a, b);
    SumOfTwoParts(a, b, |s|);
    ParseToken(a);
    ParseToken(b);
    assert Combine([], [(a, 1)], 1) == Combine(Put([], a, 1), [], 1);
  }

  lemma ProductTextSum(a: string, b: string)
    requires IsToken(a) && IsToken(b)
    ensures var s := a + " * " + b;
            '*' in s && ParseProductText(s) == SumParsed([a, b], |s|)
  {
    ProductTextPieces(a, b);
  }

  lemma SumOfTwoParts(x: string, y: string, bound: nat)
    requires |x| < bound && |y| < bound
    ensures SumParsed([x, y], bound) == Combine(Combine([], ParseComponents(x), 1), ParseComponents(y), 1)
  {
    var parts := [x, y];
    assert parts[..|parts| - 1] == [x] && parts[|parts| - 1] == y;
    assert SumParsed(parts, bound) == Combine(SumParsed([x], bound), ParseComponents(y), 1);
    var one := [x];
    assert one[..|one| - 1] == [] && one[|one| - 1] == x;
    assert SumParsed(one, bound) == Combine(SumParsed([], bound), ParseComponents(x), 1);
  }

  /** The text `a * b` holds a `*` and no `/`, and its non-blank `*`-pieces are `a` and `b`. */
  lemma ProductTextPieces(a: string, b: string)
    requires IsToken(a) && IsToken(b)
    ensures var s := a + " * " + b;
            '/' !in s && '*' in s && Pieces(Split(s, '*')) == [a, b]
  {
    ProductTextChars(a, b);
    SplitAfter(a + " ", '*', " " + b);
    PaddedPieces(a, b);
  }

  /** Stripping `a ` and ` b` gives back the tokens. */
  lemma PaddedPieces(a: string, b: string)
    requires IsToken(a) && IsToken(b)
    ensures Pieces([a + " ", " " + b]) == [a, b]
  {
    StripPadded(a);
    StripPadded(b);
    var ps := [a + " ", " " + b];
    assert ps[1..] == [" " + b] && ps[1..][1..] == [];
    assert Pieces(ps[1..]) == [b];
  }

  lemma ProductTextChars(a: string, b: string)
    requires IsToken(a) && IsToken(b)
    ensures var s := a + " * " + b;
            s == (a + " ") + ['*'] + (" " + b) && '*' in s && '/' !in s
            && '*' !in a + " " && '*' !in " " + b
  {
    var s := a + " * " + b;
    assert s[|a| + 1] == '*';
    forall i | 0 <= i < |s|
      ensures s[i] != '/'
    {
      if i < |a| {
        assert s[i] == a[i];
      } else if i >= |a| + 3 {
        assert s[i] == b[i - |a| - 3];
      }
    }
    forall i | 0 <= i < |" " + b|
      ensures (" " + b)[i] != '*'
    {
      if i > 0 {
        assert (" " + b)[i] == b[i - 1];
      }
    }
    forall i | 0 <= i < |a + " "|
      ensures (a + " ")[i] != '*'
    {
      if i < |a| {
        assert (a + " ")[i] == a[i];
      }
    }
  }

  /** Adding `b` with power 1 to `a` with power 1. */
  lemma SumOfTwoTokens(a: string, b: string)
    ensures Combine([(a, 1)], [(b, 1)], 1) == if a == b then [(a, 2)] else [(a, 1), (b, 1)]
  {
    assert Combine([(a, 1)], [(b, 1)], 1) == Put([(a, 1)], b, Get([(a, 1)], b, 0) + 1);
  }

  /** A token holding a `^` is one name listed nowhere, so it has no dimension. */
  lemma CaretToken(t: string)
    requires IsToken(t) && '^' in t
    ensures ParseComponents(t) == [(t, 1)]
    ensures DimOf(ParseComponents(t)) == Zero
  {
    ParseToken(t);
    CaretUnlisted(t);
    UnlistedName(t);
    SingleNameDim(t);
  }

  /** The source's own example of an unparsed exponent: `second^2` is one unknown name with no dimension. */
  lemma CaretIsNotAnExponent()
    ensures ParseComponents("second^2") == [("second^2", 1)]
    ensures DimOf(ParseComponents("second^2")) == Zero
  {
    SecondSquaredIsToken();
    CaretToken("second^2");
  }

  lemma SecondSquaredIsToken()
    ensures IsToken("second^2") && '^' in "second^2"
  {
    var s := "second^2";
    assert s[6] == '^';
    assert forall i :: 0 <= i < |s| ==> s[i] != '/' && s[i] != '*' && s[i] != ' ';
  }

  // -------------------------------------------------------------- dimension

  /**
   * The dimension of a component dictionary when each name `k` stands for
   * `base(k)`: the sum of power times base dimension over its names.
   */
  function DimWith(c: Components, base: string -> Dimension): Dimension {
    if |c| == 0 then Zero else Add(Scale(base(c[0].0), c[0].1), DimWith(c[1..], base))
  }

  /** The base dimension of each name as computed with the alias map `toBase` and the base-unit list `bases`. */
  function BaseDimUnder(toBase: map<string, string>, bases: seq<(string, Dimension)>): string -> Dimension {
    name => BaseDimIn(bases, if name in toBase then toBase[name] else name)
  }

  /** The dimension `bases` lists for a base unit; a name it does not list has none. */
  function BaseDimIn(bases: seq<(string, Dimension)>, base: string): Dimension {
    match LookupBase(bases, base)
    case Some(d) => d
    case None => Zero
  }

  /** Two dimension assignments that agree on every name give every dictionary the same dimension. */
  lemma {:induction false} DimWithSame(c: Components, f: string -> Dimension, g: string -> Dimension)
    requires forall n :: f(n) == g(n)
    ensures DimWith(c, f) == DimWith(c, g)
  {
    if |c| > 0 {
      DimWithSame(c[1..], f, g);
    }
  }

  /** `dimensionality`: each name counts with the dimension of the base unit it resolves to. */
  function DimOf(c: Components): Dimension {
    DimWith(c, BaseDim)
  }

  /** Assigning `d[k] = v` replaces the contribution of `k`'s old power by that of `v`. */
  lemma {:induction false} DimPut(d: Components, k: string, v: int, base: string -> Dimension)
    ensures DimWith(Put(d, k, v), base) == Add(Sub(DimWith(d, base), Scale(base(k), Get(d, k, 0))), Scale(base(k), v))
  {
    var r := Put(d, k, v);
    if |d| == 0 {
      assert r[1..] == [];
    } else if d[0].0 == k {
      assert r[1..] == d[1..];
    } else {
      DimPut(d[1..], k, v, base);
      assert r[1..] == Put(d[1..], k, v);
    }
  }

  /** Combining dictionaries adds (or, with sign -1, subtracts) their dimensions. */
  lemma {:induction false} DimCombine(acc: Components, other: Components, sign: int, base: string -> Dimension)
    ensures DimWith(Combine(acc, other, sign), base) == Add(DimWith(acc, base), Scale(DimWith(other, base), sign))
    decreases |other|
  {
    if |other| > 0 {
      var k := other[0].0;
      var p := other[0].1;
      var g := Get(acc, k, 0);
      var acc' := Put(acc, k, g + sign * p);
      var x := Scale(base(k), g);
      var y := Scale(base(k), sign * p);
      var rest := Scale(DimWith(other[1..], base), sign);
      assert Combine(acc, other, sign) == Combine(acc', other[1..], sign);
      DimCombine(acc', other[1..], sign, base);
      DimPut(acc, k, g + sign * p, base);
      ScaleAdd(base(k), g, sign * p);
      assert DimWith(acc', base) == Add(Sub(DimWith(acc, base), x), Add(x, y));
      assert p * sign == sign * p;
      ScaleMul(base(k), p, sign);
      assert Scale(Scale(base(k), p), sign) == y;
      ScaleDistributes(Scale(base(k), p), DimWith(other[1..], base), sign);
      assert DimWith(other, base) == Add(Scale(base(k), p), DimWith(other[1..], base));
      assert Scale(DimWith(other, base), sign) == Add(y, rest);
      AddSubCancel(DimWith(acc, base), x, y, rest);
    }
  }

  /** Adding one more name at the end adds its contribution, as the `dimensionality` loop does. */
  lemma {:induction false} DimWithAppend(c: Components, x: (string, int), base: string -> Dimension)
    ensures DimWith(c + [x], base) == Add(DimWith(c, base), Scale(base(x.0), x.1))
  {
    if |c| == 0 {
      assert [x][1..] == [];
    } else {
      assert (c + [x])[1..] == c[1..] + [x];
      DimWithAppend(c[1..], x, base);
    }
  }

  /** The sum of the dimensions of several pieces, each parsed as a unit. */
  function PartsDim(parts: seq<string>): Dimension {
    if |parts| == 0 then Zero else Add(PartsDim(parts[..|parts| - 1]), DimOf(ParseComponents(parts[|parts| - 1])))
  }

  /** The dimension of a product text is the sum of the dimensions of its pieces. */
  lemma {:induction false} DimSumParsed(parts: seq<string>, bound: nat)
    requires forall i :: 0 <= i < |parts| ==> |parts[i]| < bound
    ensures DimOf(SumParsed(parts, bound)) == PartsDim(parts)
  {
    if |parts| > 0 {
      DimSumParsed(parts[..|parts| - 1], bound);
      DimCombine(SumParsed(parts[..|parts| - 1], bound), ParseComponents(parts[|parts| - 1]), 1, BaseDim);
      ScaleOne(DimOf(ParseComponents(parts[|parts| - 1])));
    }
  }

  /** A single name with power 1 has the dimension of the base unit it resolves to. */
  lemma SingleNameDim(n: string)
    ensures DimOf([(n, 1)]) == BaseDim(n)
  {
    assert [(n, 1)][1..] == [];
    assert DimOf([(n, 1)]) == Add(Scale(BaseDim(n), 1), DimWith([], BaseDim));
  }

  /** The dimension of `a/b` is the dimension of `a` minus that of `b`. */
  lemma ParseQuotientDim(a: string, b: string)
    requires '/' !in a && '/' !in b
    ensures DimOf(ParseComponents(a + "/" + b))
         == Sub(DimOf(ParseComponents(Strip(a))), DimOf(ParseComponents(Strip(b))))
  {
    var num, den := ParseComponents(Strip(a)), ParseComponents(Strip(b));
    ParseQuotient(a, b);
    DimCombine(num, den, -1, BaseDim);
    AddNegated(DimOf(num), DimOf(den));
  }

  /** Two units are compatible when their dimensions agree. */
  predicate Compatible(a: Unit, b: Unit) {
    DimOf(a.components) == DimOf(b.components)
  }

  predicate IsDimensionless(u: Unit) {
    DimOf(u.components) == Zero
  }

  // ----------------------------------------------------- conversion factor

  /** `table.get(name, 1.0)`: the factor of a name; unknown names count 1. */
  function TableFactor(table: map<string, Positive>, name: string): (f: real)
    ensures f > 0.0
  {
    if name in table then table[name] else 1.0
  }

  /**
   * The product of factor to the power over a dictionary's names,
   * multiplied in from first to last, with the factors of `table`.
   */
  function FactorOver(c: Components, table: map<string, Positive>): (f: real)
    ensures f > 0.0
  {
    if |c| == 0 then 1.0
    else
      var last := c[|c| - 1];
      var init := FactorOver(c[..|c| - 1], table);
      var power := IntPow(TableFactor(table, last.0), last.1);
      IntPowPositive(TableFactor(table, last.0), last.1);
      MulPositive(init, power);
      init * power
  }

  /** The factor product of a dictionary under `_CONVERSIONS`. */
  function FactorOf(c: Components): (f: real)
    ensures f > 0.0
  {
    FactorOver(c, Conversions())
  }

  /**
   * `a.conversion_factor_to(b)`: ValueError for incompatible units,
   * ZeroDivisionError for a target of scale 0, and otherwise the ratio of
   * the two factor products times the ratio of the scales.
   */
  function ConversionFactor(a: Unit, b: Unit): (r: Result<real>)
    ensures r.Ok? <==> Compatible(a, b) && b.scale != 0.0
    ensures r.Err? ==> r.error == (if Compatible(a, b) then ZeroDivisionError else ValueError)
    ensures r.Ok? && a.scale > 0.0 && b.scale > 0.0 ==> r.value > 0.0
  {
    if !Compatible(a, b) then Err(ValueError)
    else if b.scale == 0.0 then Err(ZeroDivisionError)
    else
      var fa, fb := FactorOf(a.components), FactorOf(b.components);
      RatioPositive(fa, fb, a.scale, b.scale);
      Ok(Ratio(fa, fb, a.scale, b.scale))
  }

  /** A unit converts to itself with factor 1 unless its scale is 0. */
  lemma ConversionFactorSelf(u: Unit)
    requires u.scale != 0.0
    ensures ConversionFactor(u, u) == Ok(1.0)
  {
    RatioSelf(FactorOf(u.components), u.scale);
  }

  /** Converting there and back multiplies to 1. */
  lemma ConversionFactorInverse(a: Unit, b: Unit)
    requires Compatible(a, b) && a.scale != 0.0 && b.scale != 0.0
    ensures ConversionFactor(a, b).Ok? && ConversionFactor(b, a).Ok?
    ensures Inverses(ConversionFactor(a, b).value, ConversionFactor(b, a).value)
  {
    RatioPairInverse(ConversionFactor(a, b), ConversionFactor(b, a),
                     FactorOf(a.components), FactorOf(b.components), a.scale, b.scale);
  }

  /** `r` and `r'` are the two conversion ratios between the same pair of non-zero factors and scales. */
  predicate RatioPair(r: Result<real>, r': Result<real>, fa: real, fb: real, sa: real, sb: real) {
    fa != 0.0 && fb != 0.0 && sa != 0.0 && sb != 0.0 &&
    r == Ok(Ratio(fa, fb, sa, sb)) && r' == Ok(Ratio(fb, fa, sb, sa))
  }

  lemma RatioPairInverse(r: Result<real>, r': Result<real>, fa: real, fb: real, sa: real, sb: real)
    requires RatioPair(r, r', fa, fb, sa, sb)
    ensures r.Ok? && r'.Ok? && Inverses(r.value, r'.value)
  {
    RatioInverse(fa, fb, sa, sb);
  }

  lemma ConversionFactorValue(a: Unit, b: Unit)
    requires Compatible(a, b) && b.scale != 0.0
    ensures ConversionFactor(a, b) == Ok(Ratio(FactorOf(a.components), FactorOf(b.components), a.scale, b.scale))
  {
  }

  // ------------------------------------------------------- rendered names

  /** `unit` for power 1, else `unit^p` with the power written as a float. */
  function PowerText(name: string, p: int): string {
    if p == 1 then name else name + "^" + WholeFloatText(p)
  }

  /** The pieces the components contribute, one component after the other. */
  function PartsOf(c: Components, piece: ((string, int)) -> seq<string>): seq<string> {
    if |c| == 0 then [] else PartsOf(c[..|c| - 1], piece) + piece(c[|c| - 1])
  }

  /** The pieces of one more component are the pieces so far and that component's. */
  lemma PartsOfStep(c: Components, i: nat, piece: ((string, int)) -> seq<string>)
    requires i < |c|
    ensures PartsOf(c[..i + 1], piece) == PartsOf(c[..i], piece) + piece(c[i])
  {
    assert c[..i + 1][..i] == c[..i];
  }

  /** The pieces are empty exactly when no component contributes one. */
  lemma {:induction false} PartsOfEmpty(c: Components, piece: ((string, int)) -> seq<string>)
    ensures |PartsOf(c, piece)| == 0 <==> forall i :: 0 <= i < |c| ==> piece(c[i]) == []
  {
    if |c| > 0 {
      var init := c[..|c| - 1];
      PartsOfEmpty(init, piece);
      assert forall i :: 0 <= i < |init| ==> init[i] == c[i];
    }
  }

  /** At most one piece per component gives at most one piece per component in all, and exactly one gives exactly one. */
  lemma {:induction false} PartsOfLength(c: Components, piece: ((string, int)) -> seq<string>)
    ensures (forall x :: |piece(x)| <= 1) ==> |PartsOf(c, piece)| <= |c|
    ensures (forall x :: |piece(x)| == 1) ==> |PartsOf(c, piece)| == |c|
  {
    if |c| > 0 {
      PartsOfLength(c[..|c| - 1], piece);
    }
  }

  /** A name with a non-zero power is rendered in a product. */
  function ProductPiece(x: (string, int)): seq<string> {
    if x.1 != 0 then [PowerText(x.0, x.1)] else []
  }

  /** The rendered pieces of `__mul__`: every name with a non-zero power. */
  function ProductParts(c: Components): (parts: seq<string>)
    ensures |parts| <= |c|
    ensures |parts| == 0 <==> forall i :: 0 <= i < |c| ==> c[i].1 == 0
  {
    PartsOfEmpty(c, ProductPiece);
    PartsOfLength(c, ProductPiece);
    PartsOf(c, ProductPiece)
  }

  function ProductName(c: Components): string {
    var parts := ProductParts(c);
    if |parts| > 0 then Join(" * ", parts) else "dimensionless"
  }

  /** A name with a positive power goes to the numerator, as `unit` or `unit^p`. */
  function NumeratorPiece(x: (string, int)): seq<string> {
    if x.1 > 0 then [PowerText(x.0, x.1)] else []
  }

  /** A name with a negative power goes to the denominator, written with its magnitude. */
  function DenominatorPiece(x: (string, int)): seq<string> {
    if x.1 < 0 then [PowerText(x.0, -x.1)] else []
  }

  /** The numerator pieces of a quotient: the names with a positive power. */
  function NumeratorParts(c: Components): (parts: seq<string>)
    ensures |parts| == 0 <==> forall i :: 0 <= i < |c| ==> c[i].1 <= 0
  {
    PartsOfEmpty(c, NumeratorPiece);
    PartsOf(c, NumeratorPiece)
  }

  /** The denominator pieces of a quotient: the names with a negative power. */
  function DenominatorParts(c: Components): (parts: seq<string>)
    ensures |parts| == 0 <==> forall i :: 0 <= i < |c| ==> c[i].1 >= 0
  {
    PartsOfEmpty(c, DenominatorPiece);
    PartsOf(c, DenominatorPiece)
  }

  /** The name of a quotient: `num`, `1 / den`, `num / den`, or `dimensionless` when every power is 0. */
  function QuotientName(c: Components): string {
    var num := NumeratorParts(c);
    var den := DenominatorParts(c);
    if |num| == 0 && |den| == 0 then "dimensionless"
    else if |den| == 0 then Join(" * ", num)
    else if |num| == 0 then "1 / " + Join(" * ", den)
    else Join(" * ", num) + " / " + Join(" * ", den)
  }

  /** Every name is rendered in a power, whatever its power. */
  function PowerPiece(x: (string, int)): seq<string> {
    [PowerText(x.0, x.1)]
  }

  /** The rendered pieces of `__pow__`: every name, whatever its power. */
  function PowerParts(c: Components): (parts: seq<string>)
    ensures |parts| == |c|
  {
    PartsOfLength(c, PowerPiece);
    PartsOf(c, PowerPiece)
  }

  function PowerName(c: Components): string {
    if |c| == 0 then "dimensionless" else Join(" * ", PowerParts(c))
  }

  /** A product or quotient whose powers all cancel is named `dimensionless`. */
  lemma CancelledNames(c: Components)
    requires forall i :: 0 <= i < |c| ==> c[i].1 == 0
    ensures ProductName(c) == "dimensionless" && QuotientName(c) == "dimensionless"
  {
  }

  // ------------------------------------------------------------- algebra

  /** `a * b`: powers added name by name, scales multiplied. */
  function Product(a: Unit, b: Unit): Unit {
    var c := Combine(a.components, b.components, 1);
    Unit(ProductName(c), c, a.scale * b.scale)
  }

  /**
   * `a / b`: powers subtracted name by name, scales divided
   * (ZeroDivisionError for a zero scale).
   */
  function Quotient(a: Unit, b: Unit): (r: Result<Unit>)
    ensures r.Ok? <==> b.scale != 0.0
    ensures r.Err? ==> r.error == ZeroDivisionError
  {
    var c := Combine(a.components, b.components, -1);
    if b.scale == 0.0 then Err(ZeroDivisionError)
    else Ok(Unit(QuotientName(c), c, a.scale / b.scale))
  }

  /** dim(a * b) = dim(a) + dim(b). */
  lemma ProductDim(a: Unit, b: Unit)
    ensures DimOf(Product(a, b).components) == Add(DimOf(a.components), DimOf(b.components))
  {
    DimCombine(a.components, b.components, 1, BaseDim);
  }

  /** dim(a / b) = dim(a) - dim(b), whenever the quotient exists. */
  lemma QuotientDim(a: Unit, b: Unit)
    requires b.scale != 0.0
    ensures DimOf(Quotient(a, b).value.components) == Sub(DimOf(a.components), DimOf(b.components))
  {
    DimCombine(a.components, b.components, -1, BaseDim);
    AddNegated(DimOf(a.components), DimOf(b.components));
  }

  /** Every power multiplied by `e`, order kept. */
  function Scaled(c: Components, e: int): (r: Components)
    ensures |r| == |c|
    ensures forall i :: 0 <= i < |c| ==> r[i] == (c[i].0, c[i].1 * e)
  {
    seq(|c|, i requires 0 <= i < |c| => (c[i].0, c[i].1 * e))
  }

  /**
   * `u ** e` for a whole exponent: powers and scale raised
   * (ZeroDivisionError for `0.0 ** -n`).
   */
  function Power(u: Unit, e: int): (r: Result<Unit>)
    ensures r.Ok? <==> u.scale != 0.0 || e >= 0
    ensures r.Err? ==> r.error == ZeroDivisionError
  {
    var c := Scaled(u.components, e);
    if u.scale == 0.0 && e < 0 then Err(ZeroDivisionError)
    else Ok(Unit(PowerName(c), c, IntPow(u.scale, e)))
  }

  /** Unit equality: the component dictionaries are equal as dicts (order ignored, zero powers kept). */
  predicate Equal(a: Unit, b: Unit) {
    ToMap(a.components) == ToMap(b.components)
  }

  /** `a == other` where `other` may not be a Unit (None): a non-Unit is never equal. */
  predicate EqualTo(a: Unit, other: Option<Unit>) {
    other.Some? && Equal(a, other.value)
  }

  /**
   * Units are equal exactly when they hold the same names with the same
   * powers, in whatever order; nothing that is not a unit equals one.
   */
  lemma EqualMeansSamePowers(a: Unit, b: Unit)
    ensures Equal(a, b) <==> forall k :: Get(a.components, k, 0) == Get(b.components, k, 0)
                                        && (HasKey(a.components, k) <==> HasKey(b.components, k))
    ensures EqualTo(a, Some(b)) == Equal(a, b) && !EqualTo(a, None)
  {
    ToMapEqual(a.components, b.components);
  }

  /** The product holds every name of either operand, with the powers added. */
  lemma ProductContents(a: Unit, b: Unit, k: string)
    requires UniqueKeys(b.components)
    ensures Get(Product(a, b).components, k, 0) == Get(a.components, k, 0) + Get(b.components, k, 0)
    ensures HasKey(Product(a, b).components, k) <==> HasKey(a.components, k) || HasKey(b.components, k)
  {
    assert Product(a, b).components == Combine(a.components, b.components, 1);
    CombineGet(a.components, b.components, 1, k);
    CombineKeys(a.components, b.components, 1, k);
  }

  /** The quotient holds every name of either operand with the powers subtracted. */
  lemma QuotientContents(a: Unit, b: Unit, k: string)
    requires UniqueKeys(b.components) && b.scale != 0.0
    ensures Quotient(a, b).Ok?
    ensures Get(Quotient(a, b).value.components, k, 0) == Get(a.components, k, 0) - Get(b.components, k, 0)
    ensures HasKey(Quotient(a, b).value.components, k) <==> HasKey(a.components, k) || HasKey(b.components, k)
    ensures Quotient(a, b).value.scale * b.scale == a.scale
  {
    CombineGet(a.components, b.components, -1, k);
    CombineKeys(a.components, b.components, -1, k);
  }

  lemma {:induction false} DimScaled(c: Components, e: int, base: string -> Dimension)
    ensures DimWith(Scaled(c, e), base) == Scale(DimWith(c, base), e)
  {
    if |c| > 0 {
      DimScaled(c[1..], e, base);
      assert Scaled(c, e)[1..] == Scaled(c[1..], e);
      ScaleMul(base(c[0].0), c[0].1, e);
      ScaleDistributes(Scale(base(c[0].0), c[0].1), DimWith(c[1..], base), e);
    }
  }

  /** Every power of `u ** e` is `e` times the power in `u`, and the scale is raised to `e`. */
  lemma PowerContents(u: Unit, e: int, k: string)
    requires u.scale != 0.0 || e >= 0
    ensures Power(u, e).Ok?
    ensures Get(Power(u, e).value.components, k, 0) == e * Get(u.components, k, 0)
    ensures HasKey(Power(u, e).value.components, k) <==> HasKey(u.components, k)
    ensures Power(u, e).value.scale == IntPow(u.scale, e)
    ensures DimOf(Power(u, e).value.components) == Scale(DimOf(u.components), e)
  {
    ScaledGet(u.components, e, k);
    DimScaled(u.components, e, BaseDim);
  }

  lemma {:induction false} ScaledGet(c: Components, e: int, k: string)
    ensures Get(Scaled(c, e), k, 0) == e * Get(c, k, 0)
  {
    if |c| > 0 {
      assert Scaled(c, e)[1..] == Scaled(c[1..], e);
      ScaledGet(c[1..], e, k);
    }
  }

  /** Compatibility is kept by multiplying both sides by the same unit. */
  lemma ProductKeepsCompatibility(a: Unit, b: Unit, c: Unit)
    requires Compatible(a, b)
    ensures Compatible(Product(a, c), Product(b, c))
  {
    ProductDim(a, c);
    ProductDim(b, c);
  }

  /**
   * A unit divided by itself is dimensionless, yet it is not equal to a
   * unit with no components: its names stay in the dictionary with power 0.
   */
  lemma SelfQuotientKeepsZeroPowers(u: Unit, empty: Unit)
    requires u.scale != 0.0 && |u.components| > 0 && UniqueKeys(u.components) && empty.components == []
    ensures IsDimensionless(Quotient(u, u).value)
    ensures !Equal(Quotient(u, u).value, empty)
  {
    QuotientDim(u, u);
    var k := u.components[0].0;
    assert HasKey(u.components, k);
    CombineKeys(u.components, u.components, -1, k);
    assert k in ToMap(Quotient(u, u).value.components);
  }

  // ------------------------------------------------------- to_base_units

  /**
   * `base[unit_to_base.get(u, u)] += p` over the components, first to
   * last, where `resolve` plays `unit_to_base.get(u, u)`.
   */
  function BaseComponents(acc: Components, c: Components, resolve: string -> string): Components
    decreases |c|
  {
    if |c| == 0 then acc
    else
      var b := resolve(c[0].0);
      BaseComponents(Put(acc, b, Get(acc, b, 0) + c[0].1), c[1..], resolve)
  }

  /** `unit_to_base.get(name, name)` for the alias map `toBase`. */
  function ResolveUnder(toBase: map<string, string>): string -> string {
    name => if name in toBase then toBase[name] else name
  }

  /** The registered alias map resolves every name as the alias lists do. */
  lemma ResolveRegistered()
    ensures forall n :: ResolveUnder(RegisterGroups(AliasGroups))(n) == Resolve(n)
  {
    forall n
      ensures ResolveUnder(RegisterGroups(AliasGroups))(n) == Resolve(n)
    {
      RegisterGroupsResolves(AliasGroups, n);
    }
  }

  /** With the registered alias map and the base-unit list, every name gets its base dimension. */
  lemma BaseDimRegistered()
    ensures forall n :: BaseDimUnder(RegisterGroups(AliasGroups), BaseUnits)(n) == BaseDim(n)
  {
    ResolveRegistered();
  }

  /** Two resolvers that agree on every name move the powers to the same places. */
  lemma {:induction false} BaseComponentsSame(acc: Components, c: Components, f: string -> string, g: string -> string)
    requires forall n :: f(n) == g(n)
    ensures BaseComponents(acc, c, f) == BaseComponents(acc, c, g)
    decreases |c|
  {
    if |c| > 0 {
      var b := f(c[0].0);
      var next := Put(acc, b, Get(acc, b, 0) + c[0].1);
      BaseComponentsSame(next, c[1..], f, g);
      BaseComponentsSameStep(acc, c, f, g);
    }
  }

  /** One step of the base-dictionary loop: resolvers that agree on the first name and afterwards agree throughout. */
  lemma BaseComponentsSameStep(acc: Components, c: Components, f: string -> string, g: string -> string)
    requires |c| > 0 && f(c[0].0) == g(c[0].0)
    requires BaseComponents(Put(acc, f(c[0].0), Get(acc, f(c[0].0), 0) + c[0].1), c[1..], f)
          == BaseComponents(Put(acc, f(c[0].0), Get(acc, f(c[0].0), 0) + c[0].1), c[1..], g)
    ensures BaseComponents(acc, c, f) == BaseComponents(acc, c, g)
  {
    var b := f(c[0].0);
    var next := Put(acc, b, Get(acc, b, 0) + c[0].1);
    assert BaseComponents(acc, c, f) == BaseComponents(next, c[1..], f);
    assert BaseComponents(acc, c, g) == BaseComponents(next, c[1..], g);
  }

  /** `to_base_units` as written: it renders the base dictionary and parses the text again. */
  function ToBaseUnitsAsWritten(u: Unit): (r: Unit)
    ensures r.scale == 1.0
  {
    FromString(QuotientName(BaseComponents([], u.components, Resolve)), 1.0)
  }

  /** `to_base_units` as intended: the base dictionary itself, with the same rendered name. */
  function ToBaseUnits(u: Unit): (r: Unit)
    ensures r.scale == 1.0
  {
    var c := BaseComponents([], u.components, Resolve);
    Unit(QuotientName(c), c, 1.0)
  }

  /** A name and the base unit it resolves to have the same dimension. */
  lemma BaseDimResolve(k: string)
    ensures BaseDim(Resolve(k)) == BaseDim(k)
  {
    var b := Resolve(k);
    ResolveResult(k);
    if LookupBase(BaseUnits, b).Some? {
      ResolveBaseName(b);
    }
  }

  /** Moving powers onto names of the same dimension adds the dimensions. */
  lemma {:induction false} DimBaseComponents(acc: Components, c: Components, resolve: string -> string, base: string -> Dimension)
    requires forall k :: base(resolve(k)) == base(k)
    ensures DimWith(BaseComponents(acc, c, resolve), base) == Add(DimWith(acc, base), DimWith(c, base))
    decreases |c|
  {
    if |c| > 0 {
      var b := resolve(c[0].0);
      var g := Get(acc, b, 0);
      var x := Scale(base(b), g);
      var y := Scale(base(b), c[0].1);
      var acc' := Put(acc, b, g + c[0].1);
      assert BaseComponents(acc, c, resolve) == BaseComponents(acc', c[1..], resolve);
      DimBaseComponents(acc', c[1..], resolve, base);
      DimPut(acc, b, g + c[0].1, base);
      ScaleAdd(base(b), g, c[0].1);
      assert base(b) == base(c[0].0);
      assert DimWith(c, base) == Add(y, DimWith(c[1..], base));
      AddSubCancel(DimWith(acc, base), x, y, DimWith(c[1..], base));
    }
  }

  /** The intended conversion to base units keeps the dimension. */
  lemma ToBaseUnitsKeepsDimension(u: Unit)
    ensures DimOf(ToBaseUnits(u).components) == DimOf(u.components)
    ensures Compatible(ToBaseUnits(u), u)
  {
    forall k
      ensures BaseDim(Resolve(k)) == BaseDim(k)
    {
      BaseDimResolve(k);
    }
    DimBaseComponents([], u.components, Resolve, BaseDim);
  }

  /**
   * As written, `Unit('meter') * Unit('meter')` converts to the text
   * `meter^2.0`, which parses back as one unknown name: the dimension
   * (length squared) is lost.
   */
  lemma ToBaseUnitsAsWrittenLosesDimension()
    ensures var m := FromString("meter", 1.0);
            var sq := Product(m, m);
            DimOf(sq.components) == Scale(Length, 2)
            && DimOf(ToBaseUnitsAsWritten(sq).components) == Zero
  {
    var sq := Product(FromString("meter", 1.0), FromString("meter", 1.0));
    MeterSquared();
    MeterIsLength();
    assert DimOf(sq.components) == Scale(Length, 2);
    assert BaseComponents([], sq.components, Resolve) == [("meter", 2)];
    MeterSquaredName();
    assert ToBaseUnitsAsWritten(sq) == FromString("meter^2.0", 1.0);
    MeterSquaredText();
  }

  /** The text `meter^2.0` parses as one name, listed nowhere, so of no dimension. */
  lemma MeterSquaredText()
    ensures FromString("meter^2.0", 1.0).components == [("meter^2.0", 1)]
    ensures DimOf([("meter^2.0", 1)]) == Zero
  {
    MeterSquaredIsToken();
    CaretToken("meter^2.0");
  }

  lemma MeterSquaredIsToken()
    ensures IsToken("meter^2.0") && '^' in "meter^2.0"
  {
    var s := "meter^2.0";
    assert s[5] == '^';
    assert forall i :: 0 <= i < |s| ==> s[i] != '/' && s[i] != '*' && s[i] != ' ';
  }

  /** `meter * meter` has the single component `meter` with power 2. */
  lemma MeterSquared()
    ensures var m := FromString("meter", 1.0);
            Product(m, m).components == [("meter", 2)]
  {
    MeterIsToken();
    ParseToken("meter");
    var c := [("meter", 1)];
    assert Combine(c, c, 1) == Combine(Put(c, "meter", 2), [], 1);
  }

  /** The name `meter` is the base unit of length: it resolves to itself, and `meter^2` in base units is itself. */
  lemma MeterIsLength()
    ensures Resolve("meter") == "meter" && BaseDim("meter") == Length
    ensures DimOf([("meter", 2)]) == Scale(Length, 2)
    ensures BaseComponents([], [("meter", 2)], Resolve) == [("meter", 2)]
  {
    LookupBaseUnits("meter");
    ResolveAgrees("meter");
    ResolvesMeter();
    assert DimOf([("meter", 2)]) == Add(Scale(Length, 2), Zero);
    assert BaseComponents([], [("meter", 2)], Resolve) == BaseComponents([("meter", 2)], [], Resolve);
  }

  /** `Unit("dimensionless")`: the single component `dimensionless`, of dimension zero. */
  function DimensionlessUnit(): (u: Unit)
    ensures u.scale == 1.0 && u.components == [("dimensionless", 1)]
    ensures DimOf(u.components) == Zero && IsDimensionless(u)
  {
    DimensionlessParses();
    DimensionlessIsZero();
    FromString("dimensionless", 1.0)
  }

  lemma DimensionlessParses()
    ensures FromString("dimensionless", 1.0).components == [("dimensionless", 1)]
  {
    var s := "dimensionless";
    assert forall i :: 0 <= i < |s| ==> s[i] != '/' && s[i] != '*' && s[i] != ' ';
    ParseToken(s);
  }

  lemma DimensionlessIsZero()
    ensures BaseDim("dimensionless") == Zero && DimOf([("dimensionless", 1)]) == Zero
  {
    LookupBaseUnits("dimensionless");
    ResolveAgrees("dimensionless");
    ResolvesDimensionless();
    assert DimOf([("dimensionless", 1)]) == Add(Scale(Zero, 1), Zero);
  }

  lemma MeterIsToken()
    ensures IsToken("meter")
  {
    var s := "meter";
    assert forall i :: 0 <= i < |s| ==> s[i] != '/' && s[i] != '*' && s[i] != ' ';
  }

  lemma MeterSquaredName()
    ensures QuotientName([("meter", 2)]) == "meter^2.0"
  {
    var c := [("meter", 2)];
    assert c[..0] == [];
    assert Digit(2) == '2';
    assert WholeFloatText(2) == "2.0";
    assert PowerText("meter", 2) == "meter^2.0";
    assert NumeratorParts(c) == NumeratorParts([]) + ["meter^2.0"];
    assert DenominatorParts(c) == DenominatorParts([]);
  }
}
