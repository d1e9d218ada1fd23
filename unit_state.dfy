/**
 * The class-level state of `Unit` and the loops of its methods: the parse
 * cache (`_unit_cache`, at most 1000 entries, never evicted or
 * overwritten), the lazily built alias map (`_UNIT_TO_BASE`), and the
 * accumulating loops of parsing, `dimensionality`, `conversion_factor_to`,
 * `to_base_units`, `*`, `/` and `**`. Each is proved to compute exactly the
 * value the functions of module Units describe.
 */
module UnitState {
  import opened Wrappers
  import opened Text
  import opened RealMath
  import opened Dimensions
  import opened Components
  import opened UnitTables
  import opened Units

  /** The cache stops accepting entries once it holds this many. */
  const CacheLimit := 1000

  /** Every entry of `before` is still in `after`, unchanged. */
  predicate Extends(before: map<(string, real), Unit>, after: map<(string, real), Unit>) {
    forall key | key in before :: key in after && after[key] == before[key]
  }

  /** The entries of `after` not in `before` are keyed by texts shorter than `n`. */
  predicate NewKeysShorter(before: map<(string, real), Unit>, after: map<(string, real), Unit>, n: int) {
    forall key | key in after && key !in before :: |key.0| < n
  }

  /**
   * The class attributes of `Unit` that its methods update: the parse cache,
   * keyed by the unit text and the scale, and the alias map, absent until
   * first needed.
   */
  class UnitClass {
    var cache: map<(string, real), Unit>
    var unitToBase: Option<map<string, string>>

    /** The cache is bounded and holds only what parsing would produce; the alias map, once built, is the registered one. */
    ghost predicate Valid()
      reads this
    {
      |cache| <= CacheLimit
      && (forall key | key in cache :: cache[key] == FromString(key.0, key.1))
      && (unitToBase.Some? ==> unitToBase.value == RegisterGroups(AliasGroups))
    }

    constructor()
      ensures Valid() && cache == map[] && unitToBase == None
    {
      cache := map[];
      unitToBase := None;
    }

    /**
     * `Unit(s, scale)`: a cache hit returns the cached unit; otherwise the
     * text is parsed and the unit stored while the cache has room. After
     * the call the unit is cached, or the cache is full.
     */
    method Construct(s: string, scale: real) returns (u: Unit)
      requires Valid()
      modifies this
      ensures Valid() && u == FromString(s, scale)
      ensures unitToBase == old(unitToBase)
      ensures Extends(old(cache), cache)
      ensures NewKeysShorter(old(cache), cache, |s| + 1)
      ensures (s, scale) in old(cache) ==> cache == old(cache)
      ensures (s, scale) in cache || |cache| == CacheLimit
      decreases |s|, 2
    {
      var key := (s, scale);
      if key in cache {
        u := cache[key];
        return;
      }
      var name, components := Parse(s);
      u := Unit(name, components, scale);
      assert key !in cache;
      if |cache| < CacheLimit {
        cache := cache[key := u];
      }
    }

    /**
     * `_parse_unit`: the name and component dictionary of `s`, each piece
     * built through `Unit(piece)` and so through the cache.
     */
    method Parse(s: string) returns (name: string, components: Components)
      requires Valid()
      modifies this
      ensures Valid() && name == ParseName(s) && components == ParseComponents(s)
      ensures unitToBase == old(unitToBase)
      ensures Extends(old(cache), cache)
      ensures NewKeysShorter(old(cache), cache, |s|)
      decreases |s|, 1
    {
      if '/' in s {
        var parts := Split(s, '/');
        var num := Construct(Strip(parts[0]), 1.0);
        var den := Construct(Strip(parts[1]), 1.0);
        components := CombineInto(num.components, den.components, -1);
        name := s;
      } else if '*' in s || ' ' in s {
        var sep := if '*' in s then '*' else ' ';
        var parts := Pieces(Split(s, sep));
        PiecesShorter(Split(s, sep), |s|);
        components := SumPieces(parts, |s|);
        name := s;
      } else {
        name := Strip(s);
        components := [(name, 1)];
      }
    }

    /** The loop of `_parse_unit` over the pieces of a product, each built through `Unit(piece)`. */
    method SumPieces(parts: seq<string>, bound: nat) returns (components: Components)
      requires Valid()
      requires forall i :: 0 <= i < |parts| ==> |parts[i]| < bound
      modifies this
      ensures Valid() && components == SumParsed(parts, bound)
      ensures unitToBase == old(unitToBase)
      ensures Extends(old(cache), cache)
      ensures NewKeysShorter(old(cache), cache, bound)
      decreases bound, 0
    {
      components := [];
      var i := 0;
      while i < |parts|
        invariant 0 <= i <= |parts|
        invariant components == SumParsed(parts[..i], bound)
        invariant Valid() && unitToBase == old(unitToBase)
        invariant Extends(old(cache), cache) && NewKeysShorter(old(cache), cache, bound)
      {
        var part := Construct(parts[i], 1.0);
        var acc := CombineInto(components, part.components, 1);
        assert parts[..i + 1][..i] == parts[..i];
        components := acc;
        i := i + 1;
      }
      WholeSlice(parts);
    }

    /** `_build_unit_to_base_map`: built on first use by registering the alias lists in order, then kept. */
    method BuildUnitToBaseMap() returns (mapping: map<string, string>)
      requires Valid()
      modifies this
      ensures Valid() && mapping == RegisterGroups(AliasGroups) && unitToBase == Some(mapping)
      ensures cache == old(cache)
    {
      if unitToBase.Some? {
        return unitToBase.value;
      }
      mapping := RegisterAll(AliasGroups);
      unitToBase := Some(mapping);
    }

    /** `dimensionality`: the sum over the components of power times the dimension of the base unit each resolves to. */
    method Dimensionality(u: Unit) returns (dim: Dimension)
      requires Valid()
      modifies this
      ensures Valid() && dim == DimOf(u.components)
      ensures cache == old(cache)
    {
      var toBase := BuildUnitToBaseMap();
      dim := DimensionUnder(u.components, toBase, BaseUnits);
      BaseDimRegistered();
      DimWithSame(u.components, BaseDimUnder(toBase, BaseUnits), BaseDim);
    }

    /** `is_compatible_with`: the two dimensionalities are equal. */
    method IsCompatibleWith(a: Unit, b: Unit) returns (r: bool)
      requires Valid()
      modifies this
      ensures Valid() && r == Compatible(a, b)
      ensures cache == old(cache)
    {
      var da := Dimensionality(a);
      var db := Dimensionality(b);
      r := da == db;
    }

    /** `is_dimensionless`: the dimensionality is the zero dimension. */
    method IsDimensionlessUnit(u: Unit) returns (r: bool)
      requires Valid()
      modifies this
      ensures Valid() && r == IsDimensionless(u)
      ensures cache == old(cache)
    {
      var d := Dimensionality(u);
      r := d == Zero;
    }

    /**
     * `conversion_factor_to`: ValueError for incompatible units; otherwise
     * the two factor products, accumulated name by name, and the scales.
     */
    method ConversionFactorTo(a: Unit, b: Unit) returns (r: Result<real>)
      requires Valid()
      modifies this
      ensures Valid() && r == ConversionFactor(a, b)
      ensures cache == old(cache)
    {
      var compatible := IsCompatibleWith(a, b);
      if !compatible {
        return Err(ValueError);
      }
      r := FactorRatio(a, b, Conversions());
      if b.scale != 0.0 {
        ConversionFactorValue(a, b);
      }
    }

    /**
     * `to_base_units`: every power moved onto the base unit its name
     * resolves to, the result rendered as text and parsed again by `Unit(text)`.
     */
    method ToBaseUnits(u: Unit) returns (r: Unit)
      requires Valid()
      modifies this
      ensures Valid() && r == ToBaseUnitsAsWritten(u)
      ensures unitToBase.Some? && Extends(old(cache), cache)
    {
      var toBase := BuildUnitToBaseMap();
      var baseComponents := BaseComponentsOf(u.components, toBase);
      ResolveRegistered();
      BaseComponentsSame([], u.components, ResolveUnder(toBase), Resolve);
      var text := QuotientText(baseComponents);
      r := Construct(text, 1.0);
    }
  }

  /**
   * The rest of `conversion_factor_to` once the units are known compatible:
   * the two factor products, then the scales; ZeroDivisionError for a
   * target of scale 0.
   */
  method FactorRatio(a: Unit, b: Unit, table: map<string, Positive>) returns (r: Result<real>)
    ensures b.scale == 0.0 ==> r == Err(ZeroDivisionError)
    ensures b.scale != 0.0 ==> r == Ok(Ratio(FactorOver(a.components, table), FactorOver(b.components, table), a.scale, b.scale))
  {
    var selfFactor := ProductOfFactors(a.components, table);
    var otherFactor := ProductOfFactors(b.components, table);
    if b.scale == 0.0 {
      return Err(ZeroDivisionError);
    }
    r := Ok(selfFactor / otherFactor * a.scale / b.scale);
    assert r.value == Ratio(selfFactor, otherFactor, a.scale, b.scale);
  }

  /** The factor loop of `conversion_factor_to`: `f *= table.get(u, 1.0) ** p`. */
  method ProductOfFactors(c: Components, table: map<string, Positive>) returns (f: real)
    ensures f == FactorOver(c, table)
  {
    f := 1.0;
    var i := 0;
    while i < |c|
      invariant 0 <= i <= |c|
      invariant f == FactorOver(c[..i], table)
    {
      var (name, power) := c[i];
      var factor := if name in table then table[name] else 1.0;
      assert c[..i + 1][..i] == c[..i];
      f := f * IntPow(factor, power);
      i := i + 1;
    }
    WholeSlice(c);
  }

  /** The first loop of `to_base_units`: `base[unit_to_base.get(u, u)] += p`. */
  method BaseComponentsOf(c: Components, toBase: map<string, string>) returns (base: Components)
    ensures base == BaseComponents([], c, ResolveUnder(toBase))
  {
    base := [];
    var i := 0;
    while i < |c|
      invariant 0 <= i <= |c|
      invariant BaseComponents(base, c[i..], ResolveUnder(toBase)) == BaseComponents([], c, ResolveUnder(toBase))
    {
      var (name, power) := c[i];
      var b := if name in toBase then toBase[name] else name;
      assert c[i..][1..] == c[i + 1..];
      base := Put(base, b, Get(base, b, 0) + power);
      i := i + 1;
    }
  }

  /** `_build_unit_to_base_map`'s loops: each name of each list mapped to the list's base unit, in order. */
  method RegisterAll(groups: seq<(seq<string>, string)>) returns (mapping: map<string, string>)
    ensures mapping == RegisterGroups(groups)
  {
    mapping := map[];
    var g := 0;
    while g < |groups|
      invariant 0 <= g <= |groups|
      invariant mapping == RegisterGroups(groups[..g])
    {
      var (names, base) := groups[g];
      var i := 0;
      while i < |names|
        invariant 0 <= i <= |names|
        invariant mapping == RegisterGroups(groups[..g]) + map u | u in names[..i] :: base
      {
        RegisterOneMore(RegisterGroups(groups[..g]), names, i, base);
        mapping := mapping[names[i] := base];
        i := i + 1;
      }
      RegisterPrefix(groups, g);
      WholeSlice(names);
      g := g + 1;
    }
    WholeSlice(groups);
  }

  /** The loop of `dimensionality`: for each name, its power times the dimension of the base unit it resolves to. */
  method DimensionUnder(c: Components, toBase: map<string, string>, bases: seq<(string, Dimension)>) returns (dim: Dimension)
    ensures dim == DimWith(c, BaseDimUnder(toBase, bases))
  {
    dim := Zero;
    var i := 0;
    while i < |c|
      invariant 0 <= i <= |c|
      invariant dim == DimWith(c[..i], BaseDimUnder(toBase, bases))
    {
      var (name, power) := c[i];
      var base := if name in toBase then toBase[name] else name;
      assert BaseDimUnder(toBase, bases)(name) == BaseDimIn(bases, base);
      match LookupBase(bases, base) {
        case Some(baseDim) =>
          dim := Add(dim, Scale(baseDim, power));
        case None =>
          assert Scale(BaseDimIn(bases, base), power) == Zero;
      }
      DimWithAppend(c[..i], c[i], BaseDimUnder(toBase, bases));
      assert c[..i + 1] == c[..i] + [c[i]];
      i := i + 1;
    }
    WholeSlice(c);
  }

  /**
   * The rendering loop shared by `__truediv__` and `to_base_units`: names
   * with a positive power go to the numerator, names with a negative power
   * (written with its magnitude) to the denominator, zero powers are dropped.
   */
  method QuotientText(c: Components) returns (text: string)
    ensures text == QuotientName(c)
  {
    var numerator: seq<string> := [];
    var denominator: seq<string> := [];
    var i := 0;
    while i < |c|
      invariant 0 <= i <= |c|
      invariant numerator == NumeratorParts(c[..i]) && denominator == DenominatorParts(c[..i])
    {
      var (name, power) := c[i];
      assert c[..i + 1][..i] == c[..i];
      if power > 0 {
        if power == 1 {
          numerator := numerator + [name];
        } else {
          numerator := numerator + [name + "^" + WholeFloatText(power)];
        }
      } else if power < 0 {
        if power == -1 {
          denominator := denominator + [name];
        } else {
          denominator := denominator + [name + "^" + WholeFloatText(-power)];
        }
      }
      i := i + 1;
    }
    WholeSlice(c);
    if |numerator| == 0 && |denominator| == 0 {
      text := "dimensionless";
    } else if |denominator| == 0 {
      text := Join(" * ", numerator);
    } else if |numerator| == 0 {
      text := "1 / " + Join(" * ", denominator);
    } else {
      text := Join(" * ", numerator) + " / " + Join(" * ", denominator);
    }
  }

  /** The accumulation loop of `*` (sign 1) and `/` (sign -1) over the other operand's components. */
  method CombineInto(acc: Components, other: Components, sign: int) returns (c: Components)
    ensures c == Combine(acc, other, sign)
  {
    c := acc;
    var i := 0;
    while i < |other|
      invariant 0 <= i <= |other|
      invariant Combine(c, other[i..], sign) == Combine(acc, other, sign)
    {
      var (name, power) := other[i];
      assert other[i..][1..] == other[i + 1..];
      c := Put(c, name, Get(c, name, 0) + sign * power);
      i := i + 1;
    }
  }

  /** `a * b`: the components added, named by the non-zero powers, the scales multiplied. */
  method Multiply(a: Unit, b: Unit) returns (r: Unit)
    ensures r == Product(a, b)
  {
    var c := CombineInto(a.components, b.components, 1);
    var name := RenderProduct(c);
    r := Unit(name, c, a.scale * b.scale);
  }

  /** The naming loop of `__mul__`: every component with a power other than zero, joined by ` * `. */
  method RenderProduct(c: Components) returns (name: string)
    ensures name == ProductName(c)
  {
    var parts: seq<string> := [];
    var i := 0;
    while i < |c|
      invariant 0 <= i <= |c|
      invariant parts == ProductParts(c[..i])
    {
      var (unit, power) := c[i];
      PartsOfStep(c, i, ProductPiece);
      if power != 0 {
        parts := parts + [PowerText(unit, power)];
      }
      i := i + 1;
    }
    WholeSlice(c);
    name := if |parts| > 0 then Join(" * ", parts) else "dimensionless";
  }

  /** `a / b`: the components subtracted, rendered as a fraction; ZeroDivisionError for a divisor of scale 0. */
  method Divide(a: Unit, b: Unit) returns (r: Result<Unit>)
    ensures r == Quotient(a, b)
  {
    var c := CombineInto(a.components, b.components, -1);
    var name := QuotientText(c);
    if b.scale == 0.0 {
      return Err(ZeroDivisionError);
    }
    r := Ok(Unit(name, c, a.scale / b.scale));
  }

  /** `u ** e`: every power multiplied by `e`, every name rendered; ZeroDivisionError for `0.0 ** -n`. */
  method Raise(u: Unit, e: int) returns (r: Result<Unit>)
    ensures r == Power(u, e)
  {
    var c := Scaled(u.components, e);
    var name := RenderPower(c);
    if u.scale == 0.0 && e < 0 {
      return Err(ZeroDivisionError);
    }
    r := Ok(Unit(name, c, IntPow(u.scale, e)));
  }

  /** The naming loop of `__pow__`: every component, whatever its power, joined by ` * `. */
  method RenderPower(c: Components) returns (name: string)
    ensures name == PowerName(c)
  {
    var parts: seq<string> := [];
    var i := 0;
    while i < |c|
      invariant 0 <= i <= |c|
      invariant parts == PowerParts(c[..i])
    {
      var (unit, power) := c[i];
      PartsOfStep(c, i, PowerPiece);
      parts := parts + [PowerText(unit, power)];
      i := i + 1;
    }
    WholeSlice(c);
    name := if |parts| > 0 then Join(" * ", parts) else "dimensionless";
  }

  /** Registering one more name of a group extends the comprehension by that name. */
  lemma RegisterOneMore(m: map<string, string>, names: seq<string>, i: int, base: string)
    requires 0 <= i < |names|
    ensures (m + map u | u in names[..i] :: base)[names[i] := base] == m + map u {:trigger u in names[..i + 1]} | u in names[..i + 1] :: base
  {
    assert names[..i + 1] == names[..i] + [names[i]];
  }

  /** The registered map of one more group. */
  lemma RegisterPrefix(groups: seq<(seq<string>, string)>, g: int)
    requires 0 <= g < |groups|
    ensures RegisterGroups(groups[..g + 1]) == RegisterGroups(groups[..g]) + map u | u in groups[g].0 :: groups[g].1
  {
    assert groups[..g + 1][..g] == groups[..g];
  }
}
