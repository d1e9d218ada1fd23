/**
 * Metric and binary prefixes: the SI decimal prefix table (SI Brochure,
 * 9th edition, section 3.1) and the binary prefix table (IEC 80000-13:2008,
 * clause 4), the first-match stripping of a prefix from a unit name, and
 * the generation of prefixed unit names in a unit registry.
 */
module Prefixes {
  import opened Wrappers
  import opened Text

  /**
   * One row of a prefix table: the prefix name, its symbol, its factor,
   * and the factor as Python writes it when it is formatted into a
   * definition (`repr` of the float, or the integer for binary prefixes).
   */
  datatype Prefix = Prefix(name: string, symbol: string, factor: real, factorText: string)

  /**
   * The symbol of `micro` as the table stores it: the two characters
   * U+00CE U+00BC (the UTF-8 bytes of U+03BC read as Latin-1), not U+03BC.
   */
  const MicroSymbol: string := "\U{00CE}\U{00BC}"

  /** `SI_PREFIXES`, in its insertion order, from yotta down to yocto. */
  const SI: seq<Prefix> := [
    Prefix("yotta", "Y", 1_000_000_000_000_000_000_000_000.0, "1e+24"),
    Prefix("zetta", "Z", 1_000_000_000_000_000_000_000.0, "1e+21"),
    Prefix("exa", "E", 1_000_000_000_000_000_000.0, "1e+18"),
    Prefix("peta", "P", 1_000_000_000_000_000.0, "1000000000000000.0"),
    Prefix("tera", "T", 1_000_000_000_000.0, "1000000000000.0"),
    Prefix("giga", "G", 1_000_000_000.0, "1000000000.0"),
    Prefix("mega", "M", 1_000_000.0, "1000000.0"),
    Prefix("kilo", "k", 1_000.0, "1000.0"),
    Prefix("hecto", "h", 100.0, "100.0"),
    Prefix("deca", "da", 10.0, "10.0"),
    Prefix("deci", "d", 0.1, "0.1"),
    Prefix("centi", "c", 0.01, "0.01"),
    Prefix("milli", "m", 0.001, "0.001"),
    Prefix("micro", MicroSymbol, 0.000_001, "1e-06"),
    Prefix("nano", "n", 0.000_000_001, "1e-09"),
    Prefix("pico", "p", 0.000_000_000_001, "1e-12"),
    Prefix("femto", "f", 0.000_000_000_000_001, "1e-15"),
    Prefix("atto", "a", 0.000_000_000_000_000_001, "1e-18"),
    Prefix("zepto", "z", 0.000_000_000_000_000_000_001, "1e-21"),
    Prefix("yocto", "y", 0.000_000_000_000_000_000_000_001, "1e-24")
  ]

  /** `BINARY_PREFIXES`: powers of 1024, written as integers. */
  const Binary: seq<Prefix> := [
    Prefix("kibi", "Ki", 1024.0, "1024"),
    Prefix("mebi", "Mi", 1_048_576.0, "1048576"),
    Prefix("gibi", "Gi", 1_073_741_824.0, "1073741824"),
    Prefix("tebi", "Ti", 1_099_511_627_776.0, "1099511627776"),
    Prefix("pebi", "Pi", 1_125_899_906_842_624.0, "1125899906842624"),
    Prefix("exbi", "Ei", 1_152_921_504_606_846_976.0, "1152921504606846976")
  ]

  /** Each binary factor is 1024 times the one before, starting at 1024. */
  lemma BinaryFactorsArePowers()
    ensures Binary[0].factor == 1024.0
    ensures forall k :: 0 < k < |Binary| ==> Binary[k].factor == Binary[k - 1].factor * 1024.0
  {
  }

  /** The SI factors strictly decrease from yotta down to yocto; kilo is 1000 and milli 0.001. */
  lemma SIFactorsDecrease()
    ensures forall k :: 0 < k < |SI| ==> SI[k].factor < SI[k - 1].factor
    ensures SI[7].factor == 1000.0 && SI[12].factor == 0.001
  {
  }

  // ------------------------------------------------------ prefix stripping

  function Key(p: Prefix, bySymbol: bool): string {
    if bySymbol then p.symbol else p.name
  }

  /**
   * The first row of `table`, from index `i` on, whose name (or symbol)
   * the text starts with: the loop with an early return.
   */
  function FirstMatch(s: string, table: seq<Prefix>, bySymbol: bool, i: nat): (r: Option<nat>)
    requires i <= |table|
    ensures r.Some? ==> i <= r.value < |table| && StartsWith(s, Key(table[r.value], bySymbol))
    ensures r.Some? ==> forall k :: i <= k < r.value ==> !StartsWith(s, Key(table[k], bySymbol))
    ensures r.None? <==> forall k :: i <= k < |table| ==> !StartsWith(s, Key(table[k], bySymbol))
    decreases |table| - i
  {
    if i == |table| then None
    else if StartsWith(s, Key(table[i], bySymbol)) then Some(i)
    else FirstMatch(s, table, bySymbol, i + 1)
  }

  /**
   * `parse_prefixed_unit`: the rest of the text and the factor of the
   * first SI prefix name it starts with; failing that, of the first SI
   * symbol; failing that, the text itself with factor 1.0. Whatever is
   * found, the prefix followed by the rest is the text.
   */
  function ParsePrefixedUnit(s: string): (r: (string, real))
    ensures r == (s, 1.0)
         || exists k :: 0 <= k < |SI| && r.1 == SI[k].factor && (SI[k].name + r.0 == s || SI[k].symbol + r.0 == s)
  {
    match FirstMatch(s, SI, false, 0)
    case Some(k) =>
      assert SI[k].name + s[|SI[k].name|..] == s;
      (s[|SI[k].name|..], SI[k].factor)
    case None =>
      match FirstMatch(s, SI, true, 0)
      case Some(k) =>
        assert SI[k].symbol + s[|SI[k].symbol|..] == s;
        (s[|SI[k].symbol|..], SI[k].factor)
      case None => (s, 1.0)
  }

  /** The first full prefix name the text starts with decides the result. */
  lemma ParseByName(s: string, k: nat)
    requires k < |SI| && StartsWith(s, SI[k].name)
    requires forall j :: 0 <= j < k ==> !StartsWith(s, SI[j].name)
    ensures ParsePrefixedUnit(s) == (s[|SI[k].name|..], SI[k].factor)
  {
    assert StartsWith(s, Key(SI[k], false));
    forall j | 0 <= j < k
      ensures !StartsWith(s, Key(SI[j], false))
    {
    }
  }

  /** Symbols are tried only when no name matches, and then the first symbol in table order decides. */
  lemma ParseBySymbol(s: string, k: nat)
    requires forall j :: 0 <= j < |SI| ==> !StartsWith(s, SI[j].name)
    requires k < |SI| && StartsWith(s, SI[k].symbol)
    requires forall j :: 0 <= j < k ==> !StartsWith(s, SI[j].symbol)
    ensures ParsePrefixedUnit(s) == (s[|SI[k].symbol|..], SI[k].factor)
  {
    var n := FirstMatch(s, SI, false, 0);
    assert n.None? by {
      forall j | 0 <= j < |SI|
        ensures !StartsWith(s, Key(SI[j], false))
      {
      }
    }
    assert StartsWith(s, Key(SI[k], true));
    forall j | 0 <= j < k
      ensures !StartsWith(s, Key(SI[j], true))
    {
    }
  }

  /** Without any prefix name or symbol at its start, the text comes back with factor 1.0. */
  lemma ParseNoPrefix(s: string)
    requires forall j :: 0 <= j < |SI| ==> !StartsWith(s, SI[j].name) && !StartsWith(s, SI[j].symbol)
    ensures ParsePrefixedUnit(s) == (s, 1.0)
  {
    forall j | 0 <= j < |SI|
      ensures !StartsWith(s, Key(SI[j], false)) && !StartsWith(s, Key(SI[j], true))
    {
    }
  }

  /** A text does not start with `p` when the two differ at a position both have. */
  lemma DiffersAt(s: string, p: string, j: nat)
    requires j < |s| && j < |p| && s[j] != p[j]
    ensures !StartsWith(s, p)
  {
    if |p| <= |s| {
      assert s[..|p|][j] == s[j];
    }
  }

  /** `kilometer` is a kilo-`meter`: factor 1000.0. */
  lemma KilometerExample()
    ensures ParsePrefixedUnit("kilo" + "meter") == ("meter", 1000.0)
  {
    var s := "kilo" + "meter";
    assert s[0] == 'k';
    forall j | 0 <= j < 7
      ensures !StartsWith(s, SI[j].name)
    {
      DiffersAt(s, SI[j].name, 0);
    }
    StartsWithConcat("kilo", "meter");
    ParseByName(s, 7);
  }

  /** `millisecond` is a milli-`second`: factor 0.001 (`mega` fails at its second letter). */
  lemma MillisecondExample()
    ensures ParsePrefixedUnit("milli" + "second") == ("second", 0.001)
  {
    var s := "milli" + "second";
    assert s[0] == 'm' && s[1] == 'i';
    forall j | 0 <= j < 12 && j != 6
      ensures !StartsWith(s, SI[j].name)
    {
      DiffersAt(s, SI[j].name, 0);
    }
    DiffersAt(s, SI[6].name, 1);
    StartsWithConcat("milli", "second");
    ParseByName(s, 12);
  }

  /**
   * `meter` has no prefix name at its start, so the symbol pass strips its
   * `m` as milli: the result is `eter` with factor 0.001.
   */
  lemma MeterIsMilliEter()
    ensures ParsePrefixedUnit("m" + "eter") == ("eter", 0.001)
  {
    var s := "m" + "eter";
    assert s[0] == 'm' && s[1] == 'e' && s[2] == 't';
    forall j | 0 <= j < |SI| && j != 6 && j != 12 && j != 13
      ensures !StartsWith(s, SI[j].name)
    {
      DiffersAt(s, SI[j].name, 0);
    }
    DiffersAt(s, SI[6].name, 2);
    DiffersAt(s, SI[12].name, 1);
    DiffersAt(s, SI[13].name, 1);
    forall j | 0 <= j < 12
      ensures !StartsWith(s, SI[j].symbol)
    {
      DiffersAt(s, SI[j].symbol, 0);
    }
    StartsWithConcat("m", "eter");
    ParseBySymbol(s, 12);
  }

  // ----------------------------------------------------- prefixed names
  //
  // The registry helpers are stated over any prefix table; the library
  // uses them with `SI` and `Binary`.

  /** The units whose prefixed names also get a symbol alias, and their symbols. */
  function BaseSymbol(base: string): (r: Option<string>)
    ensures r.Some? <==> base in ["meter", "gram", "second", "liter"]
  {
    if base == "meter" then Some("m")
    else if base == "gram" then Some("g")
    else if base == "second" then Some("s")
    else if base == "liter" then Some("L")
    else None
  }

  /** The row of `table` with the given prefix name, as `SI_PREFIXES[name]` finds it. */
  function Lookup(table: seq<Prefix>, name: string): (r: Option<Prefix>)
    ensures r.Some? <==> exists k :: 0 <= k < |table| && table[k].name == name
    ensures r.Some? ==> r.value in table && r.value.name == name
  {
    LookupFrom(table, name, 0)
  }

  function LookupFrom(table: seq<Prefix>, name: string, i: nat): (r: Option<Prefix>)
    requires i <= |table|
    ensures r.Some? <==> exists k :: i <= k < |table| && table[k].name == name
    ensures r.Some? ==> r.value in table && r.value.name == name
    decreases |table| - i
  {
    if i == |table| then None
    else if table[i].name == name then Some(table[i])
    else LookupFrom(table, name, i + 1)
  }

  /** The first row with a given name is found, whatever comes after it. */
  lemma LookupFirst(table: seq<Prefix>, name: string, k: nat)
    requires k < |table| && table[k].name == name
    requires forall j :: 0 <= j < k ==> table[j].name != name
    ensures Lookup(table, name) == Some(table[k])
  {
    var i := k;
    while i > 0
      invariant 0 <= i <= k
      invariant LookupFrom(table, name, i) == Some(table[k])
    {
      i := i - 1;
    }
  }

  /** The prefix names of a table, in order: the default list of names to visit. */
  function Names(table: seq<Prefix>): (names: seq<string>)
    ensures |names| == |table| && forall k :: 0 <= k < |table| ==> names[k] == table[k].name
  {
    seq(|table|, k requires 0 <= k < |table| => table[k].name)
  }

  /** `[p for p in prefixes if p not in exclude_prefixes]`. */
  function Without(names: seq<string>, exclude: seq<string>): (r: seq<string>)
    ensures forall p :: p in r <==> p in names && p !in exclude
    ensures |r| <= |names|
  {
    if |names| == 0 then []
    else
      var last := names[|names| - 1];
      assert names == names[..|names| - 1] + [last];
      Without(names[..|names| - 1], exclude) + (if last in exclude then [] else [last])
  }

  /**
   * The prefix names `add_prefixes_to_unit` visits: the given list (every
   * name of the table when none is given), minus the excluded ones.
   */
  function Requested(table: seq<Prefix>, prefixes: Option<seq<string>>, exclude: seq<string>): (r: seq<string>)
    ensures forall p :: p in r <==> p in (if prefixes.None? then Names(table) else prefixes.value) && p !in exclude
  {
    var names := if prefixes.None? then Names(table) else prefixes.value;
    if |exclude| > 0 then Without(names, exclude) else names
  }

  /** The row of a name, as a list of zero or one rows. */
  function Found(table: seq<Prefix>, name: string): seq<Prefix> {
    if Lookup(table, name).Some? then [Lookup(table, name).value] else []
  }

  /** The rows of the visited names, in order; names that are not in the table are skipped. */
  function Known(table: seq<Prefix>, names: seq<string>): seq<Prefix> {
    if |names| == 0 then []
    else Known(table, names[..|names| - 1]) + Found(table, names[|names| - 1])
  }

  /** Every row `Known` gives is the row of a visited name, and every visited name in the table gives its row. */
  lemma {:induction false} KnownMeaning(table: seq<Prefix>, names: seq<string>)
    ensures forall q :: q in Known(table, names) ==> q in table && q.name in names
    ensures forall n :: n in names && Lookup(table, n).Some? ==> Lookup(table, n).value in Known(table, names)
  {
    if |names| > 0 {
      var init := names[..|names| - 1];
      KnownMeaning(table, init);
      assert names == init + [names[|names| - 1]];
    }
  }

  /** `registry.define` for each row: the prefixed name, defined as the factor followed by the base definition. */
  function Definitions(rows: seq<Prefix>, base: string, definition: string): seq<(string, string)> {
    seq(|rows|, k requires 0 <= k < |rows| => (rows[k].name + base, rows[k].factorText + " " + definition))
  }

  /** `registry.alias` for each row: the prefix symbol followed by `suffix`, standing for the prefixed name. */
  function Aliases(rows: seq<Prefix>, suffix: string, base: string): seq<(string, string)> {
    seq(|rows|, k requires 0 <= k < |rows| => (rows[k].symbol + suffix, rows[k].name + base))
  }

  /** The aliases `add_prefixes_to_unit` adds: none unless the base unit has a symbol. */
  function SymbolAliases(rows: seq<Prefix>, base: string): seq<(string, string)> {
    match BaseSymbol(base)
    case None => []
    case Some(sym) => Aliases(rows, sym, base)
  }

  /**
   * The unit registry as the prefix helpers use it: the `define` calls and
   * the `alias` calls made on it, in order.
   */
  class Registry {
    var definitions: seq<(string, string)>
    var aliases: seq<(string, string)>

    constructor()
      ensures definitions == [] && aliases == []
    {
      definitions := [];
      aliases := [];
    }

    method Define(name: string, definition: string)
      modifies this
      ensures definitions == old(definitions) + [(name, definition)] && aliases == old(aliases)
    {
      definitions := definitions + [(name, definition)];
    }

    method Alias(alias: string, name: string)
      modifies this
      ensures aliases == old(aliases) + [(alias, name)] && definitions == old(definitions)
    {
      aliases := aliases + [(alias, name)];
    }
  }

  lemma AppendAssoc<T>(a: seq<T>, b: seq<T>, c: seq<T>)
    ensures a + b + c == a + (b + c)
  {
  }

  lemma DefinitionsAppend(rows: seq<Prefix>, more: seq<Prefix>, base: string, definition: string)
    ensures Definitions(rows + more, base, definition) == Definitions(rows, base, definition) + Definitions(more, base, definition)
  {
  }

  lemma SymbolAliasesAppend(rows: seq<Prefix>, more: seq<Prefix>, base: string)
    ensures SymbolAliases(rows + more, base) == SymbolAliases(rows, base) + SymbolAliases(more, base)
  {
  }

  lemma KnownStep(table: seq<Prefix>, names: seq<string>, i: nat, base: string, definition: string)
    requires i < |names|
    ensures Definitions(Known(table, names[..i + 1]), base, definition)
         == Definitions(Known(table, names[..i]), base, definition) + Definitions(Found(table, names[i]), base, definition)
    ensures SymbolAliases(Known(table, names[..i + 1]), base)
         == SymbolAliases(Known(table, names[..i]), base) + SymbolAliases(Found(table, names[i]), base)
  {
    assert names[..i + 1][..i] == names[..i];
    DefinitionsAppend(Known(table, names[..i]), Found(table, names[i]), base, definition);
    SymbolAliasesAppend(Known(table, names[..i]), Found(table, names[i]), base);
  }

  /** One step of `add_prefixes_to_unit`: the definition and alias of one visited name, if the table has it. */
  method AddPrefix(registry: Registry, table: seq<Prefix>, prefixName: string, baseUnit: string, baseDefinition: string)
    modifies registry
    ensures registry.definitions == old(registry.definitions) + Definitions(Found(table, prefixName), baseUnit, baseDefinition)
    ensures registry.aliases == old(registry.aliases) + SymbolAliases(Found(table, prefixName), baseUnit)
  {
    var entry := Lookup(table, prefixName);
    if entry.Some? {
      var p := entry.value;
      registry.Define(prefixName + baseUnit, p.factorText + " " + baseDefinition);
      var sym := BaseSymbol(baseUnit);
      if sym.Some? {
        registry.Alias(p.symbol + sym.value, prefixName + baseUnit);
      }
    }
  }

  /** The loop of `add_prefixes_to_unit` over the visited names. */
  method AddPrefixes(registry: Registry, table: seq<Prefix>, names: seq<string>, baseUnit: string, baseDefinition: string)
    modifies registry
    ensures registry.definitions == old(registry.definitions) + Definitions(Known(table, names), baseUnit, baseDefinition)
    ensures registry.aliases == old(registry.aliases) + SymbolAliases(Known(table, names), baseUnit)
  {
    ghost var defs0, aliases0 := registry.definitions, registry.aliases;
    var i := 0;
    while i < |names|
      invariant 0 <= i <= |names|
      invariant registry.definitions == defs0 + Definitions(Known(table, names[..i]), baseUnit, baseDefinition)
      invariant registry.aliases == aliases0 + SymbolAliases(Known(table, names[..i]), baseUnit)
    {
      KnownStep(table, names, i, baseUnit, baseDefinition);
      AddPrefix(registry, table, names[i], baseUnit, baseDefinition);
      AppendAssoc(defs0, Definitions(Known(table, names[..i]), baseUnit, baseDefinition), Definitions(Found(table, names[i]), baseUnit, baseDefinition));
      AppendAssoc(aliases0, SymbolAliases(Known(table, names[..i]), baseUnit), SymbolAliases(Found(table, names[i]), baseUnit));
      i := i + 1;
    }
    assert names[..|names|] == names;
  }

  /**
   * `add_prefixes_to_unit`: for each visited name that is an SI prefix,
   * define the prefixed unit and, for meter, gram, second and liter, alias
   * the prefixed symbol to it.
   */
  method AddPrefixesToUnit(registry: Registry, baseUnit: string, baseDefinition: string,
                           prefixes: Option<seq<string>>, excludePrefixes: seq<string>)
    modifies registry
    ensures registry.definitions
         == old(registry.definitions) + Definitions(Known(SI, Requested(SI, prefixes, excludePrefixes)), baseUnit, baseDefinition)
    ensures registry.aliases
         == old(registry.aliases) + SymbolAliases(Known(SI, Requested(SI, prefixes, excludePrefixes)), baseUnit)
  {
    var names := if prefixes.None? then Names(SI) else prefixes.value;
    if |excludePrefixes| > 0 {
      names := Without(names, excludePrefixes);
    }
    AddPrefixes(registry, SI, names, baseUnit, baseDefinition);
  }

  /**
   * `add_binary_prefixes_to_unit`: every binary prefix defines a prefixed
   * unit; for byte, the symbol followed by `B` is aliased to it.
   */
  method AddBinaryPrefixesToUnit(registry: Registry, baseUnit: string, baseDefinition: string)
    modifies registry
    ensures registry.definitions == old(registry.definitions) + Definitions(Binary, baseUnit, baseDefinition)
    ensures registry.aliases == old(registry.aliases) + (if baseUnit == "byte" then Aliases(Binary, "B", baseUnit) else [])
  {
    AddTable(registry, Binary, baseUnit, baseDefinition);
  }

  /** The loop of `add_binary_prefixes_to_unit` over a table. */
  method AddTable(registry: Registry, table: seq<Prefix>, baseUnit: string, baseDefinition: string)
    modifies registry
    ensures registry.definitions == old(registry.definitions) + Definitions(table, baseUnit, baseDefinition)
    ensures registry.aliases == old(registry.aliases) + (if baseUnit == "byte" then Aliases(table, "B", baseUnit) else [])
  {
    var i := 0;
    while i < |table|
      invariant 0 <= i <= |table|
      invariant registry.definitions == old(registry.definitions) + Definitions(table[..i], baseUnit, baseDefinition)
      invariant registry.aliases == old(registry.aliases) + (if baseUnit == "byte" then Aliases(table[..i], "B", baseUnit) else [])
    {
      var p := table[i];
      registry.Define(p.name + baseUnit, p.factorText + " " + baseDefinition);
      if baseUnit == "byte" {
        registry.Alias(p.symbol + "B", p.name + baseUnit);
      }
      i := i + 1;
    }
    assert table[..|table|] == table;
  }

  /** The prefix lists `generate_common_prefixed_units` passes for meter, gram, second and liter. */
  const LengthPrefixes: seq<string> := ["kilo", "centi", "milli", "micro", "nano", "pico"]
  const MassPrefixes: seq<string> := ["kilo", "milli", "micro"]
  const TimePrefixes: seq<string> := ["milli", "micro", "nano", "pico", "femto"]
  const VolumePrefixes: seq<string> := ["milli", "micro"]

  /** The rows `add_prefixes_to_unit` visits for a prefix list and no exclusions. */
  function Visited(prefixes: seq<string>): seq<Prefix> {
    Known(SI, Requested(SI, Some(prefixes), []))
  }

  /** The definitions of the five calls of `generate_common_prefixed_units`, in call order. */
  function CommonDefinitions(): seq<(string, string)> {
    Definitions(Visited(LengthPrefixes), "meter", "1 meter")
    + Definitions(Visited(MassPrefixes), "gram", "0.001 kilogram")
    + Definitions(Visited(TimePrefixes), "second", "1 second")
    + Definitions(Visited(VolumePrefixes), "liter", "0.001 meter^3")
    + Definitions(Binary, "byte", "8 bit")
  }

  /** The aliases of the five calls, in call order. */
  function CommonAliases(): seq<(string, string)> {
    SymbolAliases(Visited(LengthPrefixes), "meter")
    + SymbolAliases(Visited(MassPrefixes), "gram")
    + SymbolAliases(Visited(TimePrefixes), "second")
    + SymbolAliases(Visited(VolumePrefixes), "liter")
    + Aliases(Binary, "B", "byte")
  }

  /**
   * `generate_common_prefixed_units`: prefixed lengths, masses, times and
   * volumes, then the binary multiples of byte.
   */
  method GenerateCommonPrefixedUnits(registry: Registry)
    modifies registry
    ensures registry.definitions == old(registry.definitions) + CommonDefinitions()
    ensures registry.aliases == old(registry.aliases) + CommonAliases()
  {
    AddPrefixesToUnit(registry, "meter", "1 meter", Some(LengthPrefixes), []);
    AddPrefixesToUnit(registry, "gram", "0.001 kilogram", Some(MassPrefixes), []);
    AddPrefixesToUnit(registry, "second", "1 second", Some(TimePrefixes), []);
    AddPrefixesToUnit(registry, "liter", "0.001 meter^3", Some(VolumePrefixes), []);
    AddBinaryPrefixesToUnit(registry, "byte", "8 bit");
    AppendFive(old(registry.definitions), Definitions(Visited(LengthPrefixes), "meter", "1 meter"),
               Definitions(Visited(MassPrefixes), "gram", "0.001 kilogram"),
               Definitions(Visited(TimePrefixes), "second", "1 second"),
               Definitions(Visited(VolumePrefixes), "liter", "0.001 meter^3"),
               Definitions(Binary, "byte", "8 bit"));
    AppendFive(old(registry.aliases), SymbolAliases(Visited(LengthPrefixes), "meter"),
               SymbolAliases(Visited(MassPrefixes), "gram"),
               SymbolAliases(Visited(TimePrefixes), "second"),
               SymbolAliases(Visited(VolumePrefixes), "liter"),
               Aliases(Binary, "B", "byte"));
  }

  lemma AppendFive<T>(s: seq<T>, a: seq<T>, b: seq<T>, c: seq<T>, d: seq<T>, e: seq<T>)
    ensures s + a + b + c + d + e == s + (a + b + c + d + e)
  {
  }

  /** Each SI prefix name names its own row. */
  lemma LookupSI(k: nat)
    requires k < |SI|
    ensures Lookup(SI, SI[k].name) == Some(SI[k])
  {
    LookupFirst(SI, SI[k].name, k);
  }

  /** Looking up the name of any row of the table finds that row: no name is used twice. */
  predicate NamesOwnRows(table: seq<Prefix>) {
    forall k :: 0 <= k < |table| ==> Lookup(table, table[k].name) == Some(table[k])
  }

  lemma SINamesOwnRows()
    ensures NamesOwnRows(SI)
  {
    forall k | 0 <= k < |SI|
      ensures Lookup(SI, SI[k].name) == Some(SI[k])
    {
      LookupSI(k);
    }
  }

  /** Visiting the names of rows `idx` of a table with no repeated name gives exactly those rows, in order. */
  lemma {:induction false} KnownRows(table: seq<Prefix>, names: seq<string>, idx: seq<nat>)
    requires NamesOwnRows(table)
    requires |names| == |idx| && forall i :: 0 <= i < |idx| ==> idx[i] < |table| && names[i] == table[idx[i]].name
    ensures Known(table, names) == seq(|idx|, i requires 0 <= i < |idx| => table[idx[i]])
  {
    if |names| > 0 {
      var n := |names| - 1;
      KnownRows(table, names[..n], idx[..n]);
      assert Found(table, names[n]) == [table[idx[n]]];
    }
  }

  lemma KnownSIRows(names: seq<string>, idx: seq<nat>)
    requires |names| == |idx| && forall i :: 0 <= i < |idx| ==> idx[i] < |SI| && names[i] == SI[idx[i]].name
    ensures |Visited(names)| == |idx| && forall i :: 0 <= i < |idx| ==> Visited(names)[i] == SI[idx[i]]
  {
    SINamesOwnRows();
    KnownRows(SI, names, idx);
  }

  /** The rows each call of `generate_common_prefixed_units` visits, in the order given. */
  lemma LengthRows()
    ensures Visited(LengthPrefixes) == [SI[7], SI[11], SI[12], SI[13], SI[14], SI[15]]
  {
    var idx := [7, 11, 12, 13, 14, 15];
    assert forall i :: 0 <= i < |idx| ==> idx[i] < |SI| && LengthPrefixes[i] == SI[idx[i]].name;
    KnownSIRows(LengthPrefixes, idx);
  }

  lemma MassRows()
    ensures Visited(MassPrefixes) == [SI[7], SI[12], SI[13]]
  {
    var idx := [7, 12, 13];
    assert forall i :: 0 <= i < |idx| ==> idx[i] < |SI| && MassPrefixes[i] == SI[idx[i]].name;
    KnownSIRows(MassPrefixes, idx);
  }

  lemma TimeRows()
    ensures Visited(TimePrefixes) == [SI[12], SI[13], SI[14], SI[15], SI[16]]
  {
    var idx := [12, 13, 14, 15, 16];
    assert forall i :: 0 <= i < |idx| ==> idx[i] < |SI| && TimePrefixes[i] == SI[idx[i]].name;
    KnownSIRows(TimePrefixes, idx);
  }

  lemma VolumeRows()
    ensures Visited(VolumePrefixes) == [SI[12], SI[13]]
  {
    var idx := [12, 13];
    assert forall i :: 0 <= i < |idx| ==> idx[i] < |SI| && VolumePrefixes[i] == SI[idx[i]].name;
    KnownSIRows(VolumePrefixes, idx);
  }

  /**
   * The registry after `generate_common_prefixed_units`: 16 SI-prefixed
   * units, each aliased by its prefix symbol and the base symbol (`km`
   * for kilometer, `mg` for milligram, ...), then the six binary
   * multiples of byte, each aliased by its symbol and `B`.
   */
  lemma CommonPrefixedUnits()
    ensures CommonDefinitions()
         == Definitions([SI[7], SI[11], SI[12], SI[13], SI[14], SI[15]], "meter", "1 meter")
          + Definitions([SI[7], SI[12], SI[13]], "gram", "0.001 kilogram")
          + Definitions([SI[12], SI[13], SI[14], SI[15], SI[16]], "second", "1 second")
          + Definitions([SI[12], SI[13]], "liter", "0.001 meter^3")
          + Definitions(Binary, "byte", "8 bit")
    ensures CommonAliases()
         == Aliases([SI[7], SI[11], SI[12], SI[13], SI[14], SI[15]], "m", "meter")
          + Aliases([SI[7], SI[12], SI[13]], "g", "gram")
          + Aliases([SI[12], SI[13], SI[14], SI[15], SI[16]], "s", "second")
          + Aliases([SI[12], SI[13]], "L", "liter")
          + Aliases(Binary, "B", "byte")
    ensures |CommonDefinitions()| == |CommonAliases()| == 22
  {
    LengthRows();
    MassRows();
    TimeRows();
    VolumeRows();
  }

  // ------------------------------------------------------------- properties

  /**
   * What `add_prefixes_to_unit` defines: every visited name found in the
   * table is defined, followed by the base unit, with its factor in front
   * of the base definition; and every definition is of that form.
   */
  lemma DefinedExactlyRequested(table: seq<Prefix>, prefixes: Option<seq<string>>, exclude: seq<string>,
                                base: string, definition: string, p: string)
    requires Lookup(table, p).Some?
    ensures var defs := Definitions(Known(table, Requested(table, prefixes, exclude)), base, definition);
            var requested := p in (if prefixes.None? then Names(table) else prefixes.value) && p !in exclude;
            (requested ==> (p + base, Lookup(table, p).value.factorText + " " + definition) in defs)
            && (forall k :: 0 <= k < |defs| ==>
                  exists q :: q in table && q.name in Requested(table, prefixes, exclude)
                              && defs[k] == (q.name + base, q.factorText + " " + definition))
  {
    var rows := Known(table, Requested(table, prefixes, exclude));
    KnownMeaning(table, Requested(table, prefixes, exclude));
    var defs := Definitions(rows, base, definition);
    if p in (if prefixes.None? then Names(table) else prefixes.value) && p !in exclude {
      var k :| 0 <= k < |rows| && rows[k] == Lookup(table, p).value;
      assert defs[k] == (p + base, Lookup(table, p).value.factorText + " " + definition);
    }
    forall k | 0 <= k < |defs|
      ensures exists q :: q in table && q.name in Requested(table, prefixes, exclude)
                          && defs[k] == (q.name + base, q.factorText + " " + definition)
    {
      assert rows[k] in rows;
    }
  }

  /** Only meter, gram, second and liter get symbol aliases; for them every definition gets one, naming it. */
  lemma AliasesFollowDefinitions(rows: seq<Prefix>, base: string, definition: string)
    ensures BaseSymbol(base).None? ==> SymbolAliases(rows, base) == []
    ensures BaseSymbol(base).Some? ==>
      var aliases, defs := SymbolAliases(rows, base), Definitions(rows, base, definition);
      |aliases| == |defs|
      && forall k :: 0 <= k < |defs| ==> aliases[k].1 == defs[k].0 && aliases[k].0 == rows[k].symbol + BaseSymbol(base).value
  {
  }

  /** With no list given, every name of the table is visited; an empty exclusion list removes nothing. */
  lemma DefaultIsAllPrefixes(table: seq<Prefix>)
    ensures Requested(table, None, []) == Names(table)
  {
  }

  /** Adding `kilo` to `parsec` defines `kiloparsec` as 1000.0 times the parsec's definition, with no alias. */
  lemma KiloparsecExample(definition: string)
    ensures Definitions(Known(SI, Requested(SI, Some(["kilo"]), [])), "parsec", definition)
         == [("kilo" + "parsec", "1000.0 " + definition)]
    ensures SymbolAliases(Known(SI, Requested(SI, Some(["kilo"]), [])), "parsec") == []
  {
    var names: seq<string> := ["kilo"];
    assert names[..0] == [];
    assert Requested(SI, Some(names), []) == names;
    LookupKilo();
    assert Known(SI, names) == Known(SI, names[..0]) + Found(SI, "kilo");
    var kilo := SI[7];
    assert Known(SI, names) == [kilo];
    assert kilo.name == "kilo" && kilo.factorText + " " == "1000.0 ";
    assert Definitions([kilo], "parsec", definition) == [(kilo.name + "parsec", kilo.factorText + " " + definition)];
  }

  lemma LookupKilo()
    ensures Lookup(SI, "kilo") == Some(SI[7])
  {
    forall j | 0 <= j < 7
      ensures SI[j].name != "kilo"
    {
      assert SI[j].name[0] != 'k';
    }
    LookupFirst(SI, "kilo", 7);
  }
}
