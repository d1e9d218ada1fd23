# unifyt — a verified model of the unit engine

`unifyt` is a Python library for physical quantities. It has the following parts:

- A `Unit` is parsed from text such as `meter/second` or `kilogram * meter`. It holds an insertion-ordered dictionary from unit names to powers, plus a scale. Its dimensionality is computed by resolving each name to one of the seven SI base units.
- A `Quantity` is a value (a number or a one-dimensional array) with a unit. It can be converted, added, multiplied, raised to a power, compared and indexed.
- An `UncertainQuantity` carries an uncertainty alongside the value and propagates it.
- `UnitValidator` checks, compares, simplifies and corrects unit names.
- `QuantityFormatter` renders a quantity in LaTeX, Unicode or HTML.
- `BatchConverter` converts, sums and averages lists of quantities, and picks their minimum and maximum.
- The prefix helpers define SI- and binary-prefixed units in a registry.
- Three converter scripts (temperature, speed and pressure) turn one value into several display units and label it with a real-world context.

The Dafny project models these parts module by module:

| file | models |
|---|---|
| `dimensions.dfy` | the seven-exponent dimension and its arithmetic |
| `components.dfy` | the insertion-ordered component dictionary: `get`, assignment, and the accumulation loop of `*` and `/` |
| `unit_tables.dfy` | `_BASE_UNITS`, `_CONVERSIONS` and `_TEMPERATURE_OFFSETS`, with the alias lists `_build_unit_to_base_map` registers |
| `units.dfy` | `Unit` parsing, dimensionality, conversion factors, `*`, `/`, `**`, `==`, naming and `to_base_units`, as functions |
| `unit_state.dfy` | the `Unit` class with its two class-level fields (the parse cache and the lazily built alias map) and the loops of its methods, as imperative methods proved against the functions |
| `arrays.dfy` | the numpy values the quantities hold: a scalar or a 1-d array, element-wise operations with broadcasting, and `allclose` |
| `quantity.dfy` | `Quantity`: `to` (linear and temperature paths), arithmetic, comparisons, indexing, and in-place `__setitem__` on an array |
| `uncertainty.dfy` | `UncertainQuantity`: construction, relative uncertainty, `to`, and the propagation rules of `+ - * / **` |
| `validator.dfy` | `UnitValidator`: validation, dimensionality check, compound parsing, simplification, the Levenshtein distance (row by row) and suggestions |
| `formatter.dfy` | `QuantityFormatter`: the style dispatch and the LaTeX, Unicode and HTML rewriting of unit text |
| `batch.dfy` | `BatchConverter` and the module-level `convert_batch` and `sum_batch` |
| `prefixes.dfy` | the SI and binary prefix tables, the registry helpers and `parse_prefixed_unit` |
| `ladders.dfy` | the three `get_*_context` threshold ladders |
| `converters.dfy` | `convert_temperature`, `convert_speed` and `convert_pressure` |
| `text.dfy`, `real_math.dfy`, `wrappers.dfy` | string helpers (`split`, `strip`, `lower`, `join`), real arithmetic helpers, and `Option` and `Result` |

## How Python maps to Dafny

- Python exceptions become `Result` values: `ValueError`, `TypeError`, `ZeroDivisionError` and `IndexError`.
- Component powers are whole numbers. Parsing, `*`, `/` and integer `**` only ever produce whole powers. Python stores them as floats, and the model renders them the way Python prints a whole float (`meter^2.0`), with two exceptions listed under "## Left out": a negative zero (`-0.0`) that `**` can produce, and the exponent form from 10^16 on.
- A unit name that resolves to no base unit adds nothing to the dimension. Its factor counts as 1. This is the source's `get(..., default)` behaviour.
- `Unit._is_temperature_unit` is called by `Quantity.to` (unifyt/quantity.py:74) but is not defined in `unifyt/unit.py`. It is modelled as "a single component whose name is in the temperature list". As written, the call raises AttributeError, so every `Quantity.to` between compatible units raises, and so does everything that calls it: `+` and `-` of two quantities, `==` and the orderings of compatible quantities, `__setitem__` with a quantity, `UncertainQuantity.to`, `+` and `-`, the batch functions and all three converter scripts. The members that model these (`Quantities.To` and, built on it, `Quantities.Additive`, `Add`, `Sub`, `AddConverts`, `AddTemperature`, `InBaseUnits`, `InBaseUnitsAsWritten`, `Eq`, `Lt`, `Le`, `Gt`, `Ge`, `SetItemResult`, `QuantityArray.SetItem`, `Uncertainties.To`, `Additive`, `Add`, `Sub`, the `Batch` members and `Converters.EngineTo` with `Converters.Convert`) describe the behaviour the code intends once the helper exists, not the AttributeError. `unifyt/dimensions.py` is not part of this model. `Dimension` is modelled as seven integer exponents with component-wise addition and scaling.

What the proofs show about the converter scripts:

- **`convert_speed` never succeeds.** `knot` is not in any unit list, so `Unit("knot")` is dimensionless, while `mile/hour` is length over time. One of the conversions to the display units therefore raises for every input name (`Converters.SpeedNeverSucceeds`).
- **The pressure aliases confuse milli and mega.** The pressure script lower-cases its input before the alias lookup, so `mPa` is read as megapascal (`Converters.MillipascalReadAsMegapascal`).
- **A test disagrees with the code.** The multiplication test in `tests/test_v0_3_0_features.py` expects 0.559 for 10 ± 0.1 times 5 ± 0.05. The propagation formula in `uncertainty.py` gives √0.5 ≈ 0.707, which lies outside the test's tolerance (`Uncertainties.MultiplicationExample`).
- **Every text is a valid unit.** `Unit(s)` never raises for a string, so `is_valid` and `validate_unit` accept every text (`Validator.EveryTextIsValid`). The test expecting `validate_unit('invalid_unit')` to be false does not match the code.
- **Exponents in unit text are not parsed.** `_parse_unit` treats a `^` as part of the name, so `second^2` is one unknown unit with no dimension (`Units.CaretIsNotAnExponent`).

## Model

| member | source | states |
|---|---|---|
| Dimensions.ScaleAdd | unifyt/unit.py:286-297 | scaling a dimension by p + q is scaling by p plus scaling by q, which makes the power bookkeeping of `dimensionality` additive |
| Dimensions.ScaleMul | unifyt/unit.py:414-430 | scaling by p, then by q, is scaling by p * q (powers of powers) |
| Dimensions.ScaleDistributes | unifyt/unit.py:356-376 | scaling distributes over a sum of dimensions |
| Components.Get | unifyt/unit.py:358-360 | `d.get(k, dflt)`: the stored power, or the default when the name is absent |
| Components.Put | unifyt/unit.py:358-360 | `d[k] = v` keeps an existing key's position and length; a new key is appended at the end |
| Components.ToMap | unifyt/unit.py:432-436 | the dictionary as Python's dict equality sees it: the same key set |
| Components.GetPut | unifyt/unit.py:358-360 | after `d[k] = v`, reading `k` gives `v` and every other name reads as before |
| Components.PutUnique | unifyt/unit.py:358-360 | assignment never creates a duplicate name |
| Components.CombineGet | unifyt/unit.py:358-360 | the accumulation loop of `*` (sign 1) and `/` (sign -1) adds or subtracts the other dictionary's power name by name |
| Components.CombineKeys | unifyt/unit.py:358-360 | the names of a combination are exactly the names of both operands |
| Components.CombineUnique | unifyt/unit.py:358-360 | a combination of dictionaries keeps names unique |
| Components.ToMapEqual | unifyt/unit.py:432-436 | two dictionaries are equal as dicts exactly when every name reads the same and the key sets agree |
| UnitTables.FactorInMerged | unifyt/unit.py:31-150 | the merged `_CONVERSIONS` literal gives each name the factor of the last table listing it, and 1.0 when none does |
| UnitTables.RegisterGroupsResolves | unifyt/unit.py:169-227 | the registered alias map holds exactly the listed names and sends each to the base unit of the last list naming it |
| UnitTables.ResolveAgrees | unifyt/unit.py:169-227 | the written-out alias search agrees with the registered map |
| UnitTables.Factor | unifyt/unit.py:303-317 | `_CONVERSIONS.get(name, 1.0)`: a positive factor, 1.0 for an unknown name |
| UnitTables.LookupBaseUnits | unifyt/unit.py:19-28 | the base-unit table: the seven SI base units with their dimensions, and `dimensionless` with none |
| UnitTables.ResolveBaseName | unifyt/unit.py:19-28 | every base unit's name resolves to itself |
| UnitTables.ResolveResult | unifyt/unit.py:169-227 | a name resolves to itself or to one of the base units |
| UnitTables.UnlistedName | unifyt/unit.py:286-297 | a name in no alias list resolves to itself and contributes no dimension |
| UnitTables.CaretUnlisted | unifyt/unit.py:169-227 | no alias contains `^`, so a name with a `^` is in no list |
| Units.Pieces | unifyt/unit.py:271-272 | the stripped, non-blank pieces of a split |
| Units.ParseComponents | unifyt/unit.py:254-283 | the component dictionary `_parse_unit` builds never repeats a name |
| Units.FromString | unifyt/unit.py:230-252 | `Unit(s, scale)` is defined for every text, keeps the scale and has unique names |
| Units.ParseToken | unifyt/unit.py:280-283 | an atomic token (which may contain `^`) is one name with power 1, named by itself |
| Units.ParseIgnoresThirdPart | unifyt/unit.py:257-260 | only the first two `/`-separated pieces are read: `a/b/c` parses as `a/b` |
| Units.ParseQuotient | unifyt/unit.py:257-268 | `a/b` parses as the numerator's dictionary with the denominator's subtracted |
| Units.ParseQuotientPowers | unifyt/unit.py:257-268 | each power of `a/b` is the numerator's power minus the denominator's |
| Units.ParseProductOfTokens | unifyt/unit.py:269-279 | `t * t` is `t` with power 2; `a * b` is both names with power 1, in order |
| Units.CaretToken | unifyt/unit.py:280-283 | a token containing `^` is one unknown name of zero dimension |
| Units.CaretIsNotAnExponent | unifyt/unit.py:280-283 | `second^2` parses as the single name `second^2`, of no dimension |
| Units.DimWithSame | unifyt/unit.py:286-297 | two dimension assignments that agree on every name give every dictionary the same dimension |
| Units.DimPut | unifyt/unit.py:286-297 | assigning `d[k] = v` replaces `k`'s contribution to the dimension |
| Units.DimCombine | unifyt/unit.py:286-297 | the dimension of a combination is the sum (or difference) of the operands' dimensions |
| Units.DimWithAppend | unifyt/unit.py:291-296 | one more loop iteration of `dimensionality` adds power times base dimension |
| Units.DimSumParsed | unifyt/unit.py:269-279 | the dimension of a product text is the sum of the dimensions of its pieces |
| Units.SingleNameDim | unifyt/unit.py:286-297 | a single name with power 1 has the dimension of its base unit |
| Units.DimOf | unifyt/unit.py:286-297 | `dimensionality`, the sum of each power times the dimension of the name's base unit; no contract of its own: DimWithAppend, DimPut, DimCombine and SingleNameDim state how it adds up |
| Units.Compatible | unifyt/unit.py:299-301 | `is_compatible_with`: equal dimensionalities; no contract of its own (ProductKeepsCompatibility and ToBaseUnitsKeepsDimension are about it) |
| Units.IsDimensionless | unifyt/unit.py:352-354 | `is_dimensionless`: the zero dimension; no contract of its own (UnlistedName, CaretToken and DimensionlessUnit are about it) |
| Units.ParseQuotientDim | unifyt/unit.py:257-268 | dim(`a/b`) = dim(`a`) - dim(`b`) |
| Units.TableFactor | unifyt/unit.py:303-317 | `table.get(name, 1.0)` is positive |
| Units.FactorOver | unifyt/unit.py:309-315 | the factor product over a dictionary is positive |
| Units.ConversionFactor | unifyt/unit.py:303-317 | succeeds exactly for compatible units and a non-zero target scale; ValueError for incompatible units, ZeroDivisionError for a zero scale; positive for positive scales |
| Units.ConversionFactorSelf | unifyt/unit.py:303-317 | a unit converts to itself with factor 1 |
| Units.ConversionFactorInverse | unifyt/unit.py:303-317 | the factors there and back multiply to 1 |
| Units.ConversionFactorValue | unifyt/unit.py:303-317 | the factor is the ratio of the factor products times the ratio of the scales |
| Units.PartsOfEmpty | unifyt/unit.py:363-371 | the rendered pieces are empty exactly when no component contributes one |
| Units.PartsOfLength | unifyt/unit.py:363-371 | at most one piece per component gives at most one piece per component in all |
| Units.ProductParts | unifyt/unit.py:363-371 | `__mul__` renders at most one piece per name, and none exactly when every power is zero |
| Units.NumeratorParts | unifyt/unit.py:385-406 | the numerator is empty exactly when no power is positive |
| Units.DenominatorParts | unifyt/unit.py:385-406 | the denominator is empty exactly when no power is negative |
| Units.PowerParts | unifyt/unit.py:418-425 | `__pow__` renders every name, whatever its power |
| Units.CancelledNames | unifyt/unit.py:356-412 | a product or quotient whose powers all cancel is named `dimensionless` |
| Units.Scaled | unifyt/unit.py:414-430 | every power is multiplied by the exponent, and the order is kept |
| Units.Product | unifyt/unit.py:356-376 | `__mul__`, which never raises; no contract of its own: ProductContents gives its powers and names, ProductDim its dimension, ProductParts its name |
| Units.Quotient | unifyt/unit.py:378-412 | `__truediv__` succeeds exactly when the divisor's scale is non-zero, with ZeroDivisionError otherwise; QuotientContents and QuotientDim give its powers, scale and dimension |
| Units.Power | unifyt/unit.py:414-430 | `__pow__` for a whole exponent succeeds unless a unit of scale 0 is raised to a negative power, with ZeroDivisionError then; PowerContents gives its powers, scale and dimension |
| Units.Equal | unifyt/unit.py:432-436 | `__eq__` between units: the dictionaries compared as dicts; no contract of its own (EqualMeansSamePowers) |
| Units.EqualTo | unifyt/unit.py:432-436 | `__eq__` against any object; no contract of its own (EqualMeansSamePowers) |
| Units.EqualMeansSamePowers | unifyt/unit.py:432-436 | two units are equal exactly when every name has the same power in both and the same names are present, in whatever order; a non-unit is never equal |
| Units.ProductContents | unifyt/unit.py:356-376 | `a * b` holds every name of either operand, each with the sum of its two powers (an absent name counts 0) |
| Units.QuotientContents | unifyt/unit.py:378-412 | `a / b` holds every name of either operand with the powers subtracted, and the scales divided |
| Units.ProductDim | unifyt/unit.py:356-376 | dim(a * b) = dim(a) + dim(b) |
| Units.QuotientDim | unifyt/unit.py:378-412 | dim(a / b) = dim(a) - dim(b) |
| Units.DimScaled | unifyt/unit.py:414-430 | scaling every power by e scales the dimension by e |
| Units.PowerContents | unifyt/unit.py:414-430 | `u ** e` succeeds unless `0.0 ** -n`; it keeps exactly the names of u, multiplies each power by e, raises the scale to e, and dim(u ** e) = e * dim(u) |
| Units.ProductKeepsCompatibility | unifyt/unit.py:299-301 | multiplying both sides by the same unit keeps compatibility |
| Units.SelfQuotientKeepsZeroPowers | unifyt/unit.py:378-436 | `u / u` is dimensionless, yet it is not equal to a unit with no components, because its names stay with power 0 |
| Units.ResolveRegistered | unifyt/unit.py:169-227 | the map `_build_unit_to_base_map` builds resolves every name as the alias lists do |
| Units.BaseDimRegistered | unifyt/unit.py:286-297 | with the registered map, every name gets its base dimension |
| Units.BaseComponentsSame | unifyt/unit.py:323-326 | two resolvers that agree on every name move the powers to the same places |
| Units.ToBaseUnitsAsWritten | unifyt/unit.py:319-350 | `to_base_units` as written gives a unit of scale 1.0 |
| Units.ToBaseUnits | unifyt/unit.py:319-350 | `to_base_units` as intended gives a unit of scale 1.0 |
| Units.BaseDimResolve | unifyt/unit.py:286-297 | a name and the base unit it resolves to have the same dimension |
| Units.DimBaseComponents | unifyt/unit.py:323-326 | moving powers onto names of the same dimension adds the dimensions |
| Units.ToBaseUnitsKeepsDimension | unifyt/unit.py:319-350 | the intended conversion to base units keeps the dimension and the unit stays compatible |
| Units.ToBaseUnitsAsWrittenLosesDimension | unifyt/unit.py:319-350 | as written, `meter * meter` in base units re-parses `meter^2.0` as one unknown name, so length squared becomes dimensionless |
| Units.MeterIsLength | unifyt/unit.py:19-28 | `meter` resolves to itself, is length, and `meter^2` in base units is itself |
| Units.DimensionlessUnit | unifyt/unit.py:352-354 | `Unit("dimensionless")` has one component, of zero dimension, with scale 1 |
| UnitState.UnitClass.constructor | unifyt/unit.py:153-166 | the class starts with an empty cache and no alias map |
| UnitState.UnitClass.Construct | unifyt/unit.py:230-252 | returns the parsed unit; a cache hit leaves the cache unchanged; old entries are kept; afterwards the unit is cached unless the cache holds 1000 entries |
| UnitState.UnitClass.Parse | unifyt/unit.py:254-283 | `_parse_unit` through the cache yields the name and components of the specification functions, keeping the cache invariant |
| UnitState.UnitClass.SumPieces | unifyt/unit.py:269-279 | the loop over product pieces sums their dictionaries |
| UnitState.UnitClass.BuildUnitToBaseMap | unifyt/unit.py:169-227 | the map is built once from the alias lists in order and then kept; the cache is unchanged |
| UnitState.UnitClass.Dimensionality | unifyt/unit.py:286-297 | the loop computes `DimOf` |
| UnitState.UnitClass.IsCompatibleWith | unifyt/unit.py:299-301 | equal dimensionalities |
| UnitState.UnitClass.IsDimensionlessUnit | unifyt/unit.py:352-354 | zero dimensionality |
| UnitState.UnitClass.ConversionFactorTo | unifyt/unit.py:303-317 | the loops compute `ConversionFactor`, errors included |
| UnitState.UnitClass.ToBaseUnits | unifyt/unit.py:319-350 | the loops compute the as-written `to_base_units`, and the alias map is built |
| UnitState.FactorRatio | unifyt/unit.py:309-317 | ZeroDivisionError for a target of scale 0, otherwise the ratio of the factor products and scales |
| UnitState.ProductOfFactors | unifyt/unit.py:309-315 | the loop `f *= table.get(u, 1.0) ** p` computes `FactorOver` |
| UnitState.BaseComponentsOf | unifyt/unit.py:323-326 | the loop `base[unit_to_base.get(u, u)] += p` |
| UnitState.RegisterAll | unifyt/unit.py:169-227 | the registration loops build `RegisterGroups` |
| UnitState.DimensionUnder | unifyt/unit.py:291-296 | the dimensionality loop computes `DimWith` |
| UnitState.QuotientText | unifyt/unit.py:385-406 | the fraction-rendering loop computes `QuotientName` |
| UnitState.CombineInto | unifyt/unit.py:358-360 | the accumulation loop computes `Combine` |
| UnitState.Multiply | unifyt/unit.py:356-376 | `a * b` is `Product(a, b)` |
| UnitState.RenderProduct | unifyt/unit.py:363-371 | the naming loop computes `ProductName` |
| UnitState.Divide | unifyt/unit.py:378-412 | `a / b` is `Quotient(a, b)`, ZeroDivisionError included |
| UnitState.Raise | unifyt/unit.py:414-430 | `u ** e` is `Power(u, e)` |
| UnitState.RenderPower | unifyt/unit.py:418-425 | the naming loop computes `PowerName` |
| Arrays.Map | unifyt/quantity.py:177-183 | an element-wise map keeps the shape and applies the function to each element |
| Arrays.MapInverse | unifyt/quantity.py:52-80 | mapping with f and then with its inverse gives back the array |
| Arrays.Zip | unifyt/quantity.py:109-149 | an element-wise binary operation succeeds exactly when the shapes broadcast (ValueError otherwise); each element is f of the broadcast elements |
| Arrays.ZipUndo | unifyt/quantity.py:109-131 | undoing an element-wise operation elementwise gives back the left operand |
| Arrays.All | unifyt/quantity.py:194-201 | `np.all` of a comparison fails exactly when the shapes do not broadcast |
| Arrays.ScaleRoundTrip | unifyt/quantity.py:78-79 | scaling by f and then by g with f * g = 1 gives back the array |
| Arrays.AllCloseReflexive | unifyt/quantity.py:185-192 | `np.allclose(a, a)` holds |
| Quantities.ToKelvin | unifyt/quantity.py:82-103 | a Celsius value is 273.15 below its kelvin value, a Fahrenheit value follows `K = (F - 32) * 5/9 + 273.15`, and any other temperature name counts as kelvin |
| Quantities.FromKelvin | unifyt/quantity.py:82-103 | the inverse formulas: Celsius is kelvin minus 273.15, Fahrenheit is `(K - 273.15) * 9/5 + 32`, otherwise kelvin |
| Quantities.KelvinRoundTrip | unifyt/quantity.py:82-103 | converting to kelvin and back (either way round) gives back the value |
| Quantities.TemperatureFixedPoints | unifyt/quantity.py:82-103 | 0 °C is 273.15 K and 32 °F; 100 °C is 212 °F; -40 °F is -40 °C |
| Quantities.ConvertTemperature | unifyt/quantity.py:82-103 | the result is in the target unit, the shape is kept, and each element goes through kelvin |
| Quantities.ConvertLinear | unifyt/quantity.py:77-80 | the result is in the target unit, the shape is kept, and each element is multiplied by the factor |
| Quantities.To | unifyt/quantity.py:52-80 | succeeds exactly for compatible units with a temperature path or a non-zero target scale; ValueError or ZeroDivisionError otherwise; otherwise the temperature or linear conversion |
| Quantities.ToSelf | unifyt/quantity.py:52-80 | converting into the quantity's own unit changes nothing |
| Quantities.ToRoundTrip | unifyt/quantity.py:52-80 | converting there and back gives back the quantity |
| Quantities.TemperatureToRoundTrip | unifyt/quantity.py:82-103 | the temperature path round-trips |
| Quantities.LinearToRoundTrip | unifyt/quantity.py:77-80 | the linear path round-trips |
| Quantities.InBaseUnitsAsWrittenFails | unifyt/quantity.py:105-107 | as written, `(meter * meter).to_base_units()` raises ValueError |
| Quantities.InBaseUnitsAsWritten | unifyt/quantity.py:105-107 | `to_base_units` as written: succeeds exactly when the re-parsed base unit is compatible, ValueError otherwise; the result is in that unit with the shape kept |
| Quantities.InBaseUnits | unifyt/quantity.py:105-107 | `to_base_units` as intended: every quantity converts to the base-unit dictionary, keeping its shape and its dimension |
| Quantities.Additive | unifyt/quantity.py:109-131 | `+` and `-` give a result in the left unit; ValueError for incompatible units, and for a plain number with a dimensioned quantity; element-wise for a dimensionless one; a compatible quantity is first converted with `to` into the left unit, and its converted values are combined element-wise (with ValueError when they do not broadcast) |
| Quantities.Add | unifyt/quantity.py:109-119 | `q + other` in q's unit: for a number, succeeds exactly for a dimensionless q and broadcasting values, with each element the sum; for a quantity, ValueError when incompatible, and on success each element is q's plus the other's converted by `to` |
| Quantities.Sub | unifyt/quantity.py:121-131 | `q - other`, the same with each element the difference |
| Quantities.AddTemperature | unifyt/quantity.py:109-119 | between temperature units, the added values are the other's converted through kelvin, offsets included |
| Quantities.AddConverts | unifyt/quantity.py:109-119 | adding a compatible quantity adds its values converted into the left unit |
| Quantities.AddThenSubtract | unifyt/quantity.py:109-131 | adding and then subtracting the same quantity gives back the left operand |
| Quantities.Mul | unifyt/quantity.py:133-140 | succeeds exactly when the values broadcast; the unit is the product of the units, or the left unit for a number |
| Quantities.Div | unifyt/quantity.py:142-149 | ValueError when the values do not broadcast; ZeroDivisionError for a divisor unit of scale 0; a non-finite error (numpy's `inf`/`nan`) for a zero divisor element; otherwise each element is the quotient, and the unit is the quotient of the units, or the left unit |
| Quantities.MulThenDivide | unifyt/quantity.py:133-149 | multiplying and then dividing by the same non-zero numbers gives back the quantity |
| Quantities.MulDivDimensions | unifyt/quantity.py:133-149 | the dimension of a product or quotient of quantities is the sum or difference of the dimensions |
| Quantities.Pow | unifyt/quantity.py:151-155 | fails exactly for a negative exponent with a zero element (non-finite) or a unit of scale 0 (ZeroDivisionError); the unit is the unit's power and the shape is kept |
| Quantities.PowDimension | unifyt/quantity.py:151-155 | dim(q ** n) = n * dim(q), and each element is raised to n |
| Quantities.RSub | unifyt/quantity.py:165-167 | `x - q` succeeds exactly when the values broadcast, with no dimension check; it keeps q's unit, and element i is `x_i - q_i` over the broadcast size |
| Quantities.RAdd | unifyt/quantity.py:161-163 | `x + q`: ValueError for a dimensioned q; otherwise succeeds exactly when the values broadcast, in q's unit, with each element the sum |
| Quantities.RMul | unifyt/quantity.py:169-171 | `x * q`: succeeds exactly when the values broadcast, in q's unit, with each element the product |
| Quantities.Reciprocal | unifyt/quantity.py:173-175 | `1 / unit` exists exactly for a non-zero scale; its dimension is the negated dimension and its scale is the inverse |
| Quantities.RTrueDiv | unifyt/quantity.py:173-175 | `x / q`: ValueError without broadcasting, ZeroDivisionError for a unit of scale 0, `NotFinite` exactly when some divisor element is zero; otherwise the reciprocal unit, with element i equal to `x_i / q_i` over the broadcast size |
| Quantities.RSubNegatesSub | unifyt/quantity.py:121-131 | `x - q` is the negation of `q - x` for a dimensionless q |
| Quantities.Negation | unifyt/quantity.py:177-179 | `-q` keeps the unit and negates each element |
| Quantities.Absolute | unifyt/quantity.py:181-183 | `abs(q)` keeps the unit and the shape; element i is the absolute value of element i, so every element is non-negative |
| Quantities.NegationAndAbsolute | unifyt/quantity.py:177-183 | `--q == q` and `abs(-q) == abs(q)` |
| Quantities.Eq | unifyt/quantity.py:185-192 | a non-quantity or an incompatible quantity is never equal; for a compatible one, the result is `np.allclose` of q's values against the other's values converted into q's unit (ZeroDivisionError only for a unit of scale 0) |
| Quantities.Lt | unifyt/quantity.py:194-201 | TypeError for a non-quantity, ValueError for an incompatible quantity; for a compatible one, `np.all` of element-wise `<` against the other's values converted into q's unit |
| Quantities.Le | unifyt/quantity.py:203-205 | TypeError for a non-quantity, ValueError for an incompatible one; true when `==` holds, otherwise `<` |
| Quantities.Gt | unifyt/quantity.py:207-211 | TypeError for a non-quantity; otherwise defined exactly when `<=` is, and its negation |
| Quantities.Ge | unifyt/quantity.py:213-215 | defined exactly when `<` is, and its negation |
| Quantities.EqReflexive | unifyt/quantity.py:185-192 | a quantity equals itself |
| Quantities.EqConverted | unifyt/quantity.py:185-192 | a quantity equals itself converted into any compatible unit of non-zero scale, whichever side of `==` it is on (so 1 kilometer == 1000 meter) |
| Quantities.NotLessThanConverted | unifyt/quantity.py:194-201 | a non-empty quantity converted into a compatible unit is not `<` the original, and `>=` holds |
| Quantities.NonQuantityComparisons | unifyt/quantity.py:185-215 | against a non-quantity, `==` is false and the four orderings raise TypeError |
| Quantities.IncompatibleComparisons | unifyt/quantity.py:185-215 | against an incompatible quantity, `==` is false and the four orderings raise ValueError |
| Quantities.ScalarComparisons | unifyt/quantity.py:185-215 | on scalars in one unit, `==` is closeness, `<` and `>=` are the real order, `<=` is close-or-less, and `>` is neither |
| Quantities.IndexOf | unifyt/quantity.py:231-233 | a key is in range exactly when -n <= key < n; a negative key counts from the end; IndexError otherwise |
| Quantities.GetItem | unifyt/quantity.py:231-233 | indexing a scalar raises IndexError; a key in range, negative keys counting from the end, gives the element at that position as a scalar in the same unit |
| Quantities.Len | unifyt/quantity.py:247-249 | `len` is the number of elements of an array; TypeError for a scalar |
| Quantities.LenBoundsGetItem | unifyt/quantity.py:231-249 | an integer key indexes successfully exactly when `len` is defined and `-len <= key < len` |
| Quantities.GetItemFromEnd | unifyt/quantity.py:231-233 | key and key - n index the same element |
| Quantities.Assignable | unifyt/quantity.py:235-245 | ValueError for an incompatible quantity, and for a number into a dimensioned array |
| Quantities.SetItemResult | unifyt/quantity.py:235-245 | an assignment changes exactly the indexed element, to the converted value; IndexError or ValueError otherwise |
| Quantities.SetItemSameUnit | unifyt/quantity.py:235-245 | assigning a scalar of the same unit replaces that element |
| Quantities.QuantityArray.SetItem | unifyt/quantity.py:235-245 | in place on the array: the new contents are `SetItemResult`, and on an error nothing changes |
| Uncertainties.Construct | unifyt/uncertainty.py:21-44 | the nominal quantity is kept; the uncertainty is the given one, or the relative one times `abs(value)`, or zero |
| Uncertainties.RelativeUncertainty | unifyt/uncertainty.py:52-62 | the ratio of the uncertainty to `abs(value)` (zero where the value is zero); ValueError without broadcasting |
| Uncertainties.RelativeRoundTrip | unifyt/uncertainty.py:21-62 | constructing from a relative uncertainty and reading it back gives that relative uncertainty wherever the value is non-zero |
| Uncertainties.PercentExample | unifyt/uncertainty.py:21-62 | 100 with 1 % relative uncertainty has uncertainty 1.0 and relative uncertainty 0.01 |
| Uncertainties.To | unifyt/uncertainty.py:69-80 | converts the nominal quantity as `Quantity.to` does and scales the uncertainty by the same factor; the same errors |
| Uncertainties.ToRoundTrip | unifyt/uncertainty.py:69-80 | converting there and back gives back the uncertain quantity |
| Uncertainties.ToSelf | unifyt/uncertainty.py:69-80 | converting into the own unit changes nothing |
| Uncertainties.Additive | unifyt/uncertainty.py:82-114 | the nominal result is the quantity result; a certain operand keeps the uncertainty; two uncertain operands combine in quadrature |
| Uncertainties.Add | unifyt/uncertainty.py:82-97 | the nominal sum is `Quantity.__add__`; ValueError for an incompatible uncertain operand; a certain operand keeps σ; an uncertain one gives `sqrt(σa² + σb²)` element-wise, σb converted into the left unit |
| Uncertainties.Sub | unifyt/uncertainty.py:99-114 | the same for the difference: the uncertainties still combine in quadrature |
| Uncertainties.AdditiveUncertaintyNonNegative | unifyt/uncertainty.py:82-114 | the quadrature uncertainty of a sum or difference is non-negative |
| Uncertainties.AdditionExample | unifyt/uncertainty.py:82-97 | 100 ± 1 plus 50 ± 0.5 in one unit is 150 ± √1.25 |
| Uncertainties.Mul | unifyt/uncertainty.py:116-131 | the nominal result is the quantity product; ValueError without broadcasting; with an uncertain operand σ is `|result|` times the quadrature of the relative uncertainties, element-wise; with a quantity or a number σ is `σ * |y|` element-wise |
| Uncertainties.Div | unifyt/uncertainty.py:133-148 | the nominal result is the quantity quotient; ValueError without broadcasting; with an uncertain operand σ is `|result|` times the quadrature of the relative uncertainties; with a quantity or a number σ is `σ / |y|` element-wise |
| Uncertainties.Pow | unifyt/uncertainty.py:150-159 | the nominal result is the quantity power, and it succeeds whenever that one does and σ has the value's shape; σ is `|result| * |n|` times the relative uncertainty, element-wise |
| Uncertainties.MulByNumber | unifyt/uncertainty.py:116-131 | multiplying by a number k multiplies the uncertainty by abs(k) |
| Uncertainties.DivByNumber | unifyt/uncertainty.py:133-148 | dividing by a non-zero number k divides the uncertainty by abs(k) |
| Uncertainties.PowScalar | unifyt/uncertainty.py:150-159 | on a scalar, the uncertainty of x ** n is abs(n * x ** n * sx / x) |
| Uncertainties.DocumentedScaling | unifyt/uncertainty.py:116-131 | 100 ± 0.5 times 2 is 200 ± 1 |
| Uncertainties.MulScalars | unifyt/uncertainty.py:116-131 | on scalars, the product's uncertainty is abs(xy) times the quadrature of the relative uncertainties |
| Uncertainties.MultiplicationExample | tests/test_v0_3_0_features.py:50-60 | 10 ± 0.1 times 5 ± 0.05 gives uncertainty √0.5, about 0.707 rather than the test's 0.559 |
| Uncertainties.MulUncertainElements | unifyt/uncertainty.py:116-125 | for two uncertain arrays of one shape, each element of the product is `x * y` with uncertainty `|x * y| * sqrt((σx/|x|)² + (σy/|y|)²)`, a ratio at a zero value counting 0 |
| Uncertainties.MulCertainElements | unifyt/uncertainty.py:126-131 | for a quantity or number y of the same shape, each element is `x * y` with uncertainty `σ * |y|` |
| Uncertainties.DivUncertainElements | unifyt/uncertainty.py:133-142 | for two uncertain arrays of one shape with no zero divisor, each element is `x / y` with uncertainty `|x / y| * sqrt((σx/|x|)² + (σy/|y|)²)`, a ratio at a zero value counting 0 |
| Uncertainties.DivCertainElements | unifyt/uncertainty.py:143-148 | for a quantity or number y of the same shape with no zero, each element is `x / y` with uncertainty `σ / |y|` |
| Uncertainties.PowElements | unifyt/uncertainty.py:150-159 | when the power exists, each element is `x ** n` with uncertainty `|x ** n| * |n| * σ / |x|`, which is 0 at a zero value |
| Uncertainties.PropagationNonNegative | unifyt/uncertainty.py:116-159 | with a true square root, `*`, `/` and `**` keep every uncertainty non-negative, for every operand kind and shape |
| Validator.IsValid | unifyt/validator.py:23-37 | every text is accepted, because constructing a `Unit` never raises |
| Validator.Validate | unifyt/validator.py:39-60 | the flag is `is_valid`, and there is an error message exactly when the flag is false |
| Validator.ValidateUnit | unifyt/validator.py:215-232 | the module-level check is `is_valid` |
| Validator.EveryTextIsValid | unifyt/validator.py:23-60 | every text validates with no message |
| Validator.CheckDimensionality | unifyt/validator.py:90-125 | true exactly for compatible units, with a mismatch report (names and both dimensions) exactly when false |
| Validator.CheckDimensionalitySymmetric | unifyt/validator.py:90-125 | a unit matches itself, and the check is symmetric |
| Validator.CheckDimensionalityExamples | unifyt/validator.py:90-125 | meter matches foot and does not match second |
| Validator.TokensCompatibility | unifyt/validator.py:90-125 | two atomic names match exactly when their base dimensions agree |
| Validator.ParseCompoundUnit | unifyt/validator.py:127-143 | unique names; a text without separators is one stripped name with power 1 |
| Validator.ParseCompoundExample | unifyt/validator.py:127-143 | `meter/second^2` parses as meter^1 and `second^2`^-1 |
| Validator.NonZeroPowers | unifyt/validator.py:145-190 | dropping zero powers keeps only non-zero powers |
| Validator.NonZeroParts | unifyt/validator.py:145-190 | dropping zero powers does not change the rendered numerator or denominator |
| Validator.SimplifyUnit | unifyt/validator.py:145-190 | `simplify_unit` renders the parsed dictionary as a fraction |
| Validator.RenderSimplified | unifyt/validator.py:158-190 | the rendering loop computes `QuotientName` |
| Validator.SimplifyExample | unifyt/validator.py:145-190 | `meter * second / second` simplifies to `meter` |
| Validator.CancelledQuotient | unifyt/validator.py:145-190 | for distinct names a and b, `a * b / b` simplifies to `a` |
| Validator.EditDistance | unifyt/validator.py:193-212 | the Levenshtein distance as the table recurrence; no contract of its own (EditDistanceProperties, LevenshteinDistance) |
| Validator.EditDistanceProperties | unifyt/validator.py:193-212 | the edit distance is at least the length difference and at most the longer length, symmetric, and zero exactly for equal texts |
| Validator.LevenshteinDistance | unifyt/validator.py:193-212 | the row-by-row loop computes the edit distance |
| Validator.LastRow | unifyt/validator.py:199-212 | the last row holds the edit distances of the whole first text to every prefix of the second |
| Validator.NextRow | unifyt/validator.py:203-211 | each row is computed from the previous one by the recurrence |
| Validator.Matches | unifyt/validator.py:62-88 | the suggestions are the known names similar to the lower-cased input, in table order |
| Validator.Prefix | unifyt/validator.py:86-88 | Python's slice `[:n]`, negative n included |
| Validator.SuggestCorrections | unifyt/validator.py:62-88 | the loop keeps the similar names in order, cut to `max_suggestions` |
| Validator.SuggestionsAreSimilar | unifyt/validator.py:62-88 | every suggestion is a known name similar to the input |
| Validator.SameNameIsSimilar | unifyt/validator.py:62-88 | a name equal to the input up to case is similar |
| Validator.SuggestUnit | unifyt/validator.py:235-250 | at most five suggestions |
| Formatter.RunLengthSpec | unifyt/formatter.py:176-178 | the scan after `^` stops at the first character that is not a digit, `-` or `+` (for the LaTeX braces, `.` also belongs to the run) |
| Formatter.SuperCharInverse | unifyt/formatter.py:164-168 | the superscript table is inverted by `PlainChar` |
| Formatter.Superscript | unifyt/formatter.py:164-182 | each power character is replaced by its superscript |
| Formatter.RewriteCons | unifyt/formatter.py:173-186 | a character other than `^` is kept |
| Formatter.CaretRewrite | unifyt/formatter.py:173-186 | `^` and its run are replaced by the wrapped run |
| Formatter.RunEnd | unifyt/formatter.py:176-178 | the inner loop finds the end of the power run |
| Formatter.RewritePowers | unifyt/formatter.py:171-188 | the in-string rewriting loop computes `Rewrite` |
| Formatter.UnitToUnicode | unifyt/formatter.py:161-188 | Unicode rendering replaces each `^run` by superscripts |
| Formatter.UnitToHtml | unifyt/formatter.py:190-215 | a fraction is written `num/den`; otherwise each `^run` becomes `<sup>run</sup>` |
| Formatter.UnitToLatexAsWritten | unifyt/formatter.py:143-159 | `_unit_to_latex` as written; no contract of its own (LatexAsWrittenShape, LatexAsWrittenUnbalanced, LatexMeterSquaredSecond) |
| Formatter.UnitToLatex | unifyt/formatter.py:143-159 | the corrected renderer, with each exponent run (decimal point included) braced; no contract of its own (LatexBalanced, LatexShape) |
| Formatter.FormattedText | unifyt/formatter.py:42-141 | the text `format` returns for each style; no contract of its own (FormatFallsBack, RewriteRemovesCarets, UnicodeDropsOnlyCarets, HtmlRoundTrip) |
| Formatter.Format | unifyt/formatter.py:42-141 | the dispatch on the style computes `FormattedText`; its `latex` branch is `_unit_to_latex` as written (`UnitToLatexAsWritten`) |
| Formatter.FormatFallsBack | unifyt/formatter.py:42-73 | an unknown style falls back to the default; each output starts with the value text |
| Formatter.RewriteIdentity | unifyt/formatter.py:161-215 | text without `^` is unchanged |
| Formatter.RewriteRemovesCarets | unifyt/formatter.py:161-215 | Unicode and HTML output contain no `^` |
| Formatter.UnicodeDropsOnlyCarets | unifyt/formatter.py:161-188 | reading the superscripts back gives the input with its `^` removed |
| Formatter.HtmlRoundTrip | unifyt/formatter.py:190-215 | replacing `<sup>` by `^` and dropping `</sup>` gives back the input |
| Formatter.LatexBracesBalanced | unifyt/formatter.py:143-159 | rewriting `^run` to `^{run}` balances the braces |
| Formatter.LatexBalanced | unifyt/formatter.py:143-159 | the corrected LaTeX output of brace-free text has balanced braces |
| Formatter.LatexAsWrittenShape | unifyt/formatter.py:150-159 | the LaTeX as written turns `a^d * b` into `\mathrm{a^{d} *} b}}` |
| Formatter.LatexAsWrittenUnbalanced | unifyt/formatter.py:150-159 | the output as written for `a^d * b` has 2 opening and 4 closing braces |
| Formatter.LatexShape | unifyt/formatter.py:150-159 | the corrected LaTeX turns `a^d * b` into `\mathrm{a^{d} * b}`, for a run d that may hold a decimal point |
| Formatter.LatexMeterSquaredSecond | unifyt/formatter.py:150-159 | `meter^2 * second` as written is unbalanced (2 against 4); corrected, it is `\mathrm{meter^{2} * second}` |
| Formatter.LatexMeterSquaredFloatSecond | unifyt/formatter.py:150-159 | on `meter^2.0 * second`, the text a product of units prints, the as-written output is `\mathrm{meter^{2.0} *} second}}` and the corrected one `\mathrm{meter^{2.0} * second}` |
| Formatter.LatexSinglePower | unifyt/formatter.py:150-159 | on a single power `a^d` both renderings give `\mathrm{a^{d}}` |
| Formatter.LatexQuotient | unifyt/formatter.py:146-150 | a fraction is written `\frac{num}{den}`, as written and corrected |
| Batch.QuantityToQualifies | unifyt/quantity.py:52-80 | `Quantity.to` lands in the target, keeps scalars scalar, and is the identity on a quantity's own unit |
| Batch.ConvertAll | unifyt/batch.py:23-44 | succeeds exactly when every conversion does; each element is its conversion, in order |
| Batch.ConvertAllFirstError | unifyt/batch.py:23-44 | a failure raises the error of one of the failing conversions |
| Batch.ConvertBatch | unifyt/batch.py:226-245 | the same as `convert_all` |
| Batch.ConvertDict | unifyt/batch.py:46-66 | succeeds exactly when every value converts; same keys in the same order, each value converted |
| Batch.AsMapKeys | unifyt/batch.py:46-66 | the dict's keys are the items' keys |
| Batch.ConvertDictSameKeys | unifyt/batch.py:46-66 | the converted dict has exactly the keys of the input |
| Batch.ConvertAllIntoTarget | unifyt/batch.py:23-44 | every converted element is in the target unit |
| Batch.NormalizeUnits | unifyt/batch.py:193-223 | `[]` for no input; otherwise `convert_all` to the target, or to the first element's unit |
| Batch.NormalizeKeepsFirst | unifyt/batch.py:193-223 | without a target, the first element is unchanged |
| Batch.SumQuantities | unifyt/batch.py:68-103 | ValueError for no input; without a target, the sum is in the first element's unit; its value is given by SumOfScalars for single numbers and SumOfVectors for arrays of one length |
| Batch.SumBatch | unifyt/batch.py:248-263 | ValueError for no input; the sum is in the first element's unit; it is `SumQuantities` without a target, so SumOfScalars and SumOfVectors give its value |
| Batch.SumValuesOfScalars | unifyt/batch.py:88-98 | on scalars, the fold adds up the converted numbers |
| Batch.SumOfScalars | unifyt/batch.py:68-103 | on scalars, the sum is the total of the values converted into the first unit |
| Batch.SumValuesOfVectors | unifyt/batch.py:88-98 | on arrays of one length, the fold adds element by element |
| Batch.SumOfVectors | unifyt/batch.py:68-103 | when every converted value is an array of n elements, the sum is an array of n elements in the first unit, and element k is the total of the k-th converted elements |
| Batch.SameUnitConverted | unifyt/batch.py:68-103 | quantities already in one unit convert to their own numbers |
| Batch.SumExample | unifyt/batch.py:68-103 | 100 + 50 + 25 of one unit is 175 of it |
| Batch.MeanQuantities | unifyt/batch.py:105-135 | ValueError for no input; without a target, the mean is in the first element's unit; its value is given by MeanOfScalars and MeanOfVectors |
| Batch.DivideByCount | unifyt/batch.py:124-128 | a scalar quantity divided by a positive count divides its number |
| Batch.MeanOfScalars | unifyt/batch.py:105-135 | on scalars, the mean is the total of the converted numbers over the count |
| Batch.MeanOfVectors | unifyt/batch.py:105-135 | on arrays of n elements, the mean is an array of n elements in the first unit, and element k is the total of the k-th converted elements over the count |
| Batch.MeanExample | unifyt/batch.py:105-135 | the mean of 100, 200 and 300 of one unit is 200 of it |
| Batch.ArgMin | unifyt/batch.py:137-163 | `np.argmin`: the first index holding the smallest number |
| Batch.ArgMax | unifyt/batch.py:165-191 | `np.argmax`: the first index holding the largest number |
| Batch.FlattenScalars | unifyt/batch.py:137-191 | on scalars, the flattened list is the list of the numbers |
| Batch.PickIndex | unifyt/batch.py:137-191 | an index is picked only from a regular, non-empty array |
| Batch.Extreme | unifyt/batch.py:137-191 | ValueError for no input; without a target, the result is one of the original elements |
| Batch.MinQuantity | unifyt/batch.py:137-163 | ValueError for no input; without a target, one of the original elements |
| Batch.MaxQuantity | unifyt/batch.py:165-191 | ValueError for no input; without a target, one of the original elements |
| Batch.PickOfScalars | unifyt/batch.py:137-191 | on scalars, the index picked is the first extreme |
| Batch.MinOfScalars | unifyt/batch.py:137-163 | on scalars, `min_quantity` returns the original element at the first index of the smallest converted value |
| Batch.MaxOfScalars | unifyt/batch.py:165-191 | on scalars, `max_quantity` returns the original element at the first index of the largest converted value |
| Batch.SumIntoTarget | unifyt/batch.py:68-103 | with a target, the sum is in the target unit |
| Batch.MeanIntoTarget | unifyt/batch.py:105-135 | with a target, the mean is in the target unit |
| Batch.ExtremeIntoTarget | unifyt/batch.py:137-191 | with a target, the minimum and maximum are in the target unit |
| Prefixes.BinaryFactorsArePowers | unifyt/prefixes.py:32-39 | the binary factors are 1024, 1024², … |
| Prefixes.SIFactorsDecrease | unifyt/prefixes.py:8-29 | the SI factors decrease strictly from yotta to yocto; kilo is 1000 and milli 0.001 |
| Prefixes.ParsePrefixedUnit | unifyt/prefixes.py:156-185 | either the text comes back with factor 1.0, or some SI prefix's name or symbol followed by the result's rest is the text and the factor is that prefix's |
| Prefixes.FirstMatch | unifyt/prefixes.py:166-183 | the first table row whose name (or symbol) the text starts with; none exactly when no row matches |
| Prefixes.ParseByName | unifyt/prefixes.py:156-185 | the first prefix name the text starts with decides the rest and the factor |
| Prefixes.ParseBySymbol | unifyt/prefixes.py:156-185 | when no name matches, the first matching symbol decides |
| Prefixes.ParseNoPrefix | unifyt/prefixes.py:156-185 | without a prefix, the text comes back with factor 1.0 |
| Prefixes.KilometerExample | unifyt/prefixes.py:156-185 | `kilometer` is `meter` with factor 1000 |
| Prefixes.MillisecondExample | unifyt/prefixes.py:156-185 | `millisecond` is `second` with factor 0.001 |
| Prefixes.MeterIsMilliEter | unifyt/prefixes.py:156-185 | `meter` is read as milli-`eter`, factor 0.001 |
| Prefixes.BaseSymbol | unifyt/prefixes.py:76-85 | only meter, gram, second and liter get symbol aliases |
| Prefixes.Lookup | unifyt/prefixes.py:68-75 | `SI_PREFIXES[name]` finds a row exactly when one has that name |
| Prefixes.LookupFirst | unifyt/prefixes.py:68-75 | the first row with the name is found |
| Prefixes.Without | unifyt/prefixes.py:64-66 | the excluded prefixes are removed and nothing else |
| Prefixes.Requested | unifyt/prefixes.py:60-66 | the visited names are the given list (or every prefix) minus the excluded ones |
| Prefixes.KnownMeaning | unifyt/prefixes.py:67-85 | every row defined is that of a visited name, and every visited name in the table is defined |
| Prefixes.Registry.Define | unifyt/prefixes.py:73-75 | `registry.define` appends one definition |
| Prefixes.Registry.Alias | unifyt/prefixes.py:82-85 | `registry.alias` appends one alias |
| Prefixes.AddPrefix | unifyt/prefixes.py:67-85 | one loop step defines the row of a known name and its symbol alias |
| Prefixes.AddPrefixes | unifyt/prefixes.py:67-85 | the loop appends exactly the definitions and aliases of the visited rows |
| Prefixes.AddPrefixesToUnit | unifyt/prefixes.py:42-85 | `add_prefixes_to_unit` appends the definitions and aliases of the requested rows |
| Prefixes.AddBinaryPrefixesToUnit | unifyt/prefixes.py:88-114 | every binary prefix is defined; for byte, each symbol plus `B` is aliased |
| Prefixes.AddTable | unifyt/prefixes.py:106-114 | the loop over a table appends its definitions and its byte aliases |
| Prefixes.GenerateCommonPrefixedUnits | unifyt/prefixes.py:117-153 | the whole new state: the registry's definitions are the old ones followed by meter, gram, second and liter with exactly the prefixes each call lists, then the binary multiples of byte; the aliases are the old ones followed by the symbol aliases of the four SI calls and the `KiB`-style aliases of byte, in call order |
| Prefixes.DefinedExactlyRequested | unifyt/prefixes.py:42-85 | a requested, non-excluded prefix is defined with its factor in front of the base definition |
| Prefixes.AliasesFollowDefinitions | unifyt/prefixes.py:76-85 | only the four symbol units get aliases, one per definition, naming it |
| Prefixes.DefaultIsAllPrefixes | unifyt/prefixes.py:60-66 | with no list, every SI prefix is visited |
| Prefixes.KiloparsecExample | unifyt/prefixes.py:42-85 | adding `kilo` to `parsec` defines `kiloparsec` as 1000 times its definition, with no alias |
| Ladders.BandSpec | unit-convertions-examples/temperature_converter.py:82-127 | the band of x is the number of thresholds at or below it |
| Ladders.BandIs | unit-convertions-examples/temperature_converter.py:82-127 | for increasing thresholds, the band is the k with ts[k-1] <= x < ts[k] |
| Ladders.BandMonotone | unit-convertions-examples/temperature_converter.py:82-127 | a larger value never falls in a lower band |
| Ladders.TemperatureContext | unit-convertions-examples/temperature_converter.py:82-127 | `get_temperature_context`; no contract of its own (TemperatureContextByBand, TemperatureLandmarks) |
| Ladders.SpeedContext | unit-convertions-examples/speed_converter.py:95-136 | `get_speed_context`; no contract of its own (SpeedContextByBand, SpeedLandmarks) |
| Ladders.PressureContext | unit-convertions-examples/pressure_converter.py:104-133 | `get_pressure_context`; no contract of its own (PressureContextByBand, PressureLandmarks) |
| Ladders.TemperatureThresholdValues | unit-convertions-examples/temperature_converter.py:82-127 | the 19 temperature thresholds, increasing |
| Ladders.TemperatureContextByBand | unit-convertions-examples/temperature_converter.py:82-127 | the label is that of the value's band, with exactly 0 and 100 labelled freezing and boiling point |
| Ladders.TemperatureLandmarks | unit-convertions-examples/temperature_converter.py:94-127 | 0 °C is the freezing point, 100 °C the boiling point, below -273 is impossible, and 5000 and above is plasma |
| Ladders.TemperaturePiecewiseConstant | unit-convertions-examples/temperature_converter.py:82-127 | two values in one band, other than 0 and 100, get the same label |
| Ladders.SpeedThresholdValues | unit-convertions-examples/speed_converter.py:95-136 | the 18 speed thresholds, increasing |
| Ladders.SpeedContextByBand | unit-convertions-examples/speed_converter.py:95-136 | the label is that of the band, with exactly 0 labelled stationary |
| Ladders.SpeedLandmarks | unit-convertions-examples/speed_converter.py:95-136 | 0 is stationary, a negative speed is backward, and 100000 km/h and above is extreme |
| Ladders.SpeedPiecewiseConstant | unit-convertions-examples/speed_converter.py:95-136 | two non-zero values in one band get the same label |
| Ladders.PressureThresholdValues | unit-convertions-examples/pressure_converter.py:104-133 | the 12 pressure thresholds, increasing |
| Ladders.PressureContextByBand | unit-convertions-examples/pressure_converter.py:104-133 | the label is that of the band, with exactly 101.325 kPa labelled standard |
| Ladders.PressureLandmarks | unit-convertions-examples/pressure_converter.py:104-133 | 101.325 kPa is standard atmospheric, the rest of [100, 110) is above standard, and the extremes are vacuum and industrial |
| Ladders.PressurePiecewiseConstant | unit-convertions-examples/pressure_converter.py:104-133 | two values in one band, other than 101.325, get the same label |
| Converters.Normalize | unit-convertions-examples/temperature_converter.py:43 | `unit_map.get(from_unit.lower())`; no contract of its own (NormalizeStable) |
| Converters.LowerTwice | unit-convertions-examples/temperature_converter.py:43 | lower-casing is idempotent |
| Converters.NormalizeStable | unit-convertions-examples/temperature_converter.py:36-52 | the alias lookup ignores case, and a normalised name normalises to itself |
| Converters.ConvertEach | unit-convertions-examples/temperature_converter.py:58-64 | succeeds exactly when every display conversion does; the values in display order; otherwise the error of a failing one |
| Converters.Convert | unit-convertions-examples/temperature_converter.py:24-79 | an unknown name fails with the hint; a raising conversion fails with "Failed to convert …"; success exactly when every conversion succeeds, with the values and the context of the chosen one |
| Converters.UnknownConvertsNothing | unit-convertions-examples/temperature_converter.py:43-56 | an unknown name fails before any conversion |
| Converters.TemperatureAliasesCanonical | unit-convertions-examples/temperature_converter.py:37-49 | every canonical temperature name is itself a lower-case alias of itself |
| Converters.TemperatureSpellings | unit-convertions-examples/temperature_converter.py:37-49 | the accepted spellings of °C, °F and K; `°K` is unknown |
| Converters.SpeedAliasesCanonical | unit-convertions-examples/speed_converter.py:37-44 | the same for the speed aliases |
| Converters.SpeedSpellings | unit-convertions-examples/speed_converter.py:37-44 | the accepted spellings of the five speed units |
| Converters.PressureAliasesCanonical | unit-convertions-examples/pressure_converter.py:37-56 | the same for the pressure aliases |
| Converters.PressureSpellings | unit-convertions-examples/pressure_converter.py:37-56 | the accepted spellings of psi, mmHg and inHg |
| Converters.MillipascalReadAsMegapascal | unit-convertions-examples/pressure_converter.py:37-58 | `mPa` is lower-cased to `mpa` and read as megapascal |
| Converters.EngineTo | unit-convertions-examples/temperature_converter.py:51-56 | `Quantity(value, name).to(target).magnitude`; no contract of its own (EngineMagnitude) |
| Converters.EngineMagnitude | unifyt/quantity.py:52-80 | the engine's conversion of a plain value is `Quantity.to` on scalars |
| Converters.KnotIsUnknown | unifyt/unit.py:169-227 | `knot` is in no unit list: one component, no dimension |
| Converters.MilePerHourIsSpeed | unit-convertions-examples/speed_converter.py:58 | `mile/hour` has dimension length over time |
| Converters.QuotientOfTokens | unifyt/unit.py:257-268 | the dimension of `a/b` for atomic names is base(a) - base(b) |
| Converters.EngineRefusesIncompatible | unifyt/quantity.py:67-71 | converting between incompatible names raises ValueError |
| Converters.ClashingTargetsFail | unit-convertions-examples/speed_converter.py:56-62 | if, for every name, one of two display conversions raises, the script always fails |
| Converters.SpeedNeverSucceeds | unit-convertions-examples/speed_converter.py:24-92 | `convert_speed` fails for every value and every input name |

## Left out

- Floating point is modelled with exact reals: rounding, NaN and infinities are not modelled. A zero divisor element, or a zero element under a negative power, makes `Quantities.Div`, `Quantities.Pow` and `Quantities.RTrueDiv` return the error `NotFinite` rather than numpy's `inf`/`nan` with a warning; a divisor unit of scale 0 still gives `ZeroDivisionError`, as `Unit.__truediv__` and `__pow__` raise it.
- numpy arrays of rank two or more are not modelled: values are scalars or 1-d arrays.
- Fractional exponents (`sqrt`, `** 0.5`) are not modelled, because reals have no exponentiation. `Pow` takes whole exponents only.
- The square root in uncertainty propagation is a parameter `sqrt`; the lemmas require it to be a square root (`IsSqrt`).
- Text rendering of numbers (`repr`, `%g`, `%e`, `str(e)` of exceptions) is not modelled. The formatter takes the rendered value text as a parameter, and error messages keep only the error class (the converter failure message keeps its fixed text).
- `str.lower` and `str.isdigit` are modelled on ASCII letters and digits only.
- The unit cache key is the pair (text, scale) instead of the formatted string `f"{text}:{scale}"`. A cache hit in Python shares the cached dictionary object; the model returns the same value, so aliasing between units is not modelled.
- `UnitRegistry` is not part of this model. The prefix helpers act on a `Registry` that records the `define` and `alias` calls.
- `unifyt/dimensions.py` is not part of this model. `Dimension` is seven integer exponents.
- The batch functions take the conversion as a parameter `to`, which is instantiated by `Quantities.To` (`Batch.QuantityTo`). The converter scripts do the same, instantiated by `Converters.EngineTo`.
- `c_fraction` in `convert_speed` and the `constants` module are not part of this model.
- The interactive loops, `main` functions, reference tables and printing of the converter scripts are not modelled (I/O only).
- `profiler.py` and serialization are not modelled; they sit outside the unit engine.
- Validator.SuggestCorrections: `suggest_corrections` iterates over `set(Unit._CONVERSIONS.keys())` (unifyt/validator.py:21, 82), whose order Python does not fix. The model takes the visiting order as the parameter `keys` and does not tie it to the conversion table or require it to be free of repeats; its properties hold for any list and are stated as membership, order within `keys` and length.
- `Quantity.__iter__`, `__repr__`, `__str__` and `__format__` are not modelled (iteration and text only).
- Quantities.Pow: numpy's integer dtype is not modelled. `Quantity(2, 'meter')` stores an int64 array (unifyt/quantity.py:29), and numpy raises ValueError for an integer array raised to a negative integer power (unifyt/quantity.py:153); the model's values are reals, so `Pow` returns `0.5` there. int64 wrap-around in `**` is not modelled either.
- Quantities.Mul: int64 wrap-around of integer arrays under `*` is not modelled; values are unbounded reals.
- Quantities.SetItemResult: assignment into an integer array truncates the converted value in numpy (unifyt/quantity.py:241), so `q[0] = Quantity(150, 'centimeter')` on `Quantity([1, 2, 3], 'meter')` stores 1; the model stores 1.5.
- Quantities.QuantityArray.SetItem: the same truncation into integer arrays is not modelled.
- Quantities.QuantityArray.SetItem: storage shared between quantities is not modelled. `Quantity.__init__` keeps the given ndarray without copying it (unifyt/quantity.py:28), and `.value` hands that array out (unifyt/quantity.py:32-34), so `Quantity(q.value, 'meter')` shares q's storage and `q[0] = …` changes both; the model's constructor allocates a fresh array, so a write is seen by one quantity only.
- Quantities.GetItem: only integer keys are modelled. numpy's slices, integer-array keys and boolean masks (unifyt/quantity.py:231-233), which give an array quantity in the same unit, are not.
- Quantities.SetItemResult: only integer keys are modelled; assignment through slices, integer-array keys and boolean masks (unifyt/quantity.py:235-245) is not, and neither is it in Quantities.QuantityArray.SetItem.
- Units.Power: Python multiplies float powers (`power * exponent`, unifyt/unit.py:416). The product is an IEEE negative zero when a negative power is raised to 0, or a zero power to a negative exponent, and `f"{unit}^{power}"` (unifyt/unit.py:423) prints it as `-0.0`. The model's powers are integers, which have no signed zero. So `Unit('meter/second') ** 0` is named `meter^0.0 * second^0.0` instead of `meter^0.0 * second^-0.0`, and `(Unit('meter') / Unit('meter')) ** -1` is named `meter^0.0` instead of `meter^-0.0`. The powers, the scale and the dimension are unaffected, since `-0.0 == 0.0`.
- Units.PowerParts: renders such a negative-zero power as `0.0`, for the same reason.
- UnitState.Raise: its name is `Units.Power`'s, so it has the same signed-zero limit.
- UnitState.RenderPower: the naming loop computes `PowerParts`, so it has the same signed-zero limit.
- Batch.SumQuantities: the sum's value is stated for two kinds of list: all single numbers, or all arrays of one length. A list mixing single numbers or length-1 arrays with longer arrays, which numpy broadcasts, is summed by the same fold but has no value lemma.
- Batch.MeanQuantities: the mean's value is stated for the same two kinds of list as `Batch.SumQuantities`.
- Text.WholeFloatText: renders every power as `<integer>.0`; Python's `repr` switches to exponent form (`1e+16`) from 10^16 on, which the model does not reproduce.
- Units.ToBaseUnitsAsWritten: only its scale is stated in its contract. What it loses is stated by `Units.ToBaseUnitsAsWrittenLosesDimension` on one input.

## Findings

| source | as written | input that shows it | evidently intended | confidence | as-written member | corrected member |
|---|---|---|---|---|---|---|
| unifyt/unit.py:319-350 | `to_base_units` renders the base dictionary as text (`meter^2.0`) and parses it again with `Unit(text)`; `_parse_unit` does not read `^`, so the result is one unknown name | `Unit('meter') * Unit('meter')` | the base dictionary itself, keeping the dimension | high (not executed) | Units.ToBaseUnitsAsWrittenLosesDimension | Units.ToBaseUnitsKeepsDimension |
| unifyt/quantity.py:105-107 | `Quantity.to_base_units` converts to that re-parsed unit, which is not compatible, so it raises ValueError | `Quantity(1, Unit('meter') * Unit('meter')).to_base_units()` | the conversion succeeds and keeps the dimension | high (not executed) | Quantities.InBaseUnitsAsWrittenFails | Quantities.InBaseUnits |
| unifyt/formatter.py:150-159 | `_unit_to_latex` replaces every space by `} ` once a `^{` is present, so braces are closed after every word | `meter^2.0 * second` (the way `Unit.__mul__` prints powers) gives `\mathrm{meter^{2.0} *} second}}`, with 2 `{` and 4 `}` | close the brace right after each power run, decimal point included: `\mathrm{meter^{2.0} * second}`, as `Formatter.UnitToLatex` renders it (`Formatter.LatexMeterSquaredFloatSecond`) | high (not executed) | Formatter.LatexAsWrittenUnbalanced | Formatter.LatexBalanced |
