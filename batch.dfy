/**
 * `BatchConverter` and the two module-level shortcuts: conversion of a
 * list or a dict of quantities to one unit, and the folds over a list
 * (sum, mean, minimum, maximum). Every fold works in the unit of the
 * list's first element. A string target is taken as the unit it parses
 * to, so every target here is a `Unit`.
 *
 * The operations are written over the conversion they call, a parameter
 * `to` standing for `Quantity.to`; `QuantityTo` is that conversion, and
 * `QuantityToQualifies` proves the three facts about it the lemmas here
 * rely on.
 */
module Batch {
  import opened Wrappers
  import opened Arrays
  import opened Units
  import opened Quantities

  // ------------------------------------------------------------ conversion

  /** `q.to(target)`. */
  type Conversion = (Quantity, Unit) -> Result<Quantity>

  /** A successful conversion lands in the target unit. */
  ghost predicate IntoTarget(to: Conversion) {
    forall q: Quantity, u: Unit :: to(q, u).Ok? ==> to(q, u).value.unit == u
  }

  /** A conversion keeps a single number single. */
  ghost predicate KeepsScalars(to: Conversion) {
    forall q: Quantity, u: Unit :: q.value.Scalar? && to(q, u).Ok? ==> to(q, u).value.value.Scalar?
  }

  /** Converting into a quantity's own unit (of non-zero scale) changes nothing. */
  ghost predicate FixesOwnUnit(to: Conversion) {
    forall q: Quantity :: q.unit.scale != 0.0 ==> to(q, q.unit) == Ok(q)
  }

  /** `Quantity.to`. */
  function QuantityTo(): Conversion {
    (q, u) => To(q, u)
  }

  /** `Quantity.to` has the three properties. */
  lemma QuantityToQualifies()
    ensures IntoTarget(QuantityTo()) && KeepsScalars(QuantityTo()) && FixesOwnUnit(QuantityTo())
  {
    forall q: Quantity | q.unit.scale != 0.0
      ensures To(q, q.unit) == Ok(q)
    {
      ToSelf(q);
    }
  }

  /**
   * `convert_all`: `[q.to(target) for q in quantities]`. The comprehension
   * stops at the first conversion that raises.
   */
  function ConvertAll(to: Conversion, qs: seq<Quantity>, target: Unit): (r: Result<seq<Quantity>>)
    ensures r.Ok? <==> forall i :: 0 <= i < |qs| ==> to(qs[i], target).Ok?
    ensures r.Ok? ==> |r.value| == |qs| && forall i :: 0 <= i < |qs| ==> r.value[i] == to(qs[i], target).value
  {
    if |qs| == 0 then Ok([])
    else
      match to(qs[0], target)
      case Err(e) => Err(e)
      case Ok(q) =>
        (match ConvertAll(to, qs[1..], target)
         case Err(e) => Err(e)
         case Ok(rest) => Ok([q] + rest))
  }

  /** The error a failed `convert_all` raises is the error of its first failing conversion. */
  lemma {:induction false} ConvertAllFirstError(to: Conversion, qs: seq<Quantity>, target: Unit)
    requires ConvertAll(to, qs, target).Err?
    ensures exists k :: 0 <= k < |qs| && to(qs[k], target) == Err(ConvertAll(to, qs, target).error)
                        && forall i :: 0 <= i < k ==> to(qs[i], target).Ok?
  {
    var e := ConvertAll(to, qs, target).error;
    if to(qs[0], target).Err? {
      assert to(qs[0], target) == Err(e);
    } else {
      ConvertAllFirstError(to, qs[1..], target);
      var k :| 0 <= k < |qs[1..]| && to(qs[1..][k], target) == Err(ConvertAll(to, qs[1..], target).error)
               && forall i :: 0 <= i < k ==> to(qs[1..][i], target).Ok?;
      assert to(qs[k + 1], target) == Err(e);
      forall i | 0 <= i < k + 1
        ensures to(qs[i], target).Ok?
      {
        if i > 0 {
          assert qs[i] == qs[1..][i - 1];
        }
      }
    }
  }

  /** `convert_batch`: a fresh converter's `convert_all`. */
  function ConvertBatch(to: Conversion, qs: seq<Quantity>, target: Unit): (r: Result<seq<Quantity>>)
    ensures r.Ok? <==> forall i :: 0 <= i < |qs| ==> to(qs[i], target).Ok?
    ensures r.Ok? ==> |r.value| == |qs| && forall i :: 0 <= i < |qs| ==> r.value[i] == to(qs[i], target).value
  {
    ConvertAll(to, qs, target)
  }

  /** A dict's items in insertion order. */
  type Entries = seq<(string, Quantity)>

  function Keys(entries: Entries): (ks: seq<string>)
    ensures |ks| == |entries| && forall i :: 0 <= i < |entries| ==> ks[i] == entries[i].0
  {
    seq(|entries|, i requires 0 <= i < |entries| => entries[i].0)
  }

  /** `convert_dict`: `{name: q.to(target) for name, q in quantity_dict.items()}`. */
  function ConvertDict(to: Conversion, entries: Entries, target: Unit): (r: Result<Entries>)
    ensures r.Ok? <==> forall i :: 0 <= i < |entries| ==> to(entries[i].1, target).Ok?
    ensures r.Ok? ==> Keys(r.value) == Keys(entries)
    ensures r.Ok? ==> forall i :: 0 <= i < |entries| ==> r.value[i].1 == to(entries[i].1, target).value
  {
    if |entries| == 0 then Ok([])
    else
      match to(entries[0].1, target)
      case Err(e) => Err(e)
      case Ok(q) =>
        (match ConvertDict(to, entries[1..], target)
         case Err(e) => Err(e)
         case Ok(rest) => Ok([(entries[0].0, q)] + rest))
  }

  /** The dict the items make up; a later item replaces an earlier one with the same key. */
  function AsMap(entries: Entries): map<string, Quantity> {
    if |entries| == 0 then map[]
    else AsMap(entries[..|entries| - 1])[entries[|entries| - 1].0 := entries[|entries| - 1].1]
  }

  /** The dict's keys are the items' keys. */
  lemma {:induction false} AsMapKeys(entries: Entries)
    ensures AsMap(entries).Keys == set i | 0 <= i < |entries| :: entries[i].0
  {
    if |entries| > 0 {
      var n := |entries| - 1;
      AsMapKeys(entries[..n]);
      assert forall i :: 0 <= i < n ==> entries[..n][i] == entries[i];
    }
  }

  /** `convert_dict` returns a dict with exactly the keys of its argument. */
  lemma ConvertDictSameKeys(to: Conversion, entries: Entries, target: Unit)
    requires ConvertDict(to, entries, target).Ok?
    ensures AsMap(ConvertDict(to, entries, target).value).Keys == AsMap(entries).Keys
  {
    var out := ConvertDict(to, entries, target).value;
    AsMapKeys(entries);
    AsMapKeys(out);
    assert forall i :: 0 <= i < |out| ==> out[i].0 == Keys(out)[i] == Keys(entries)[i] == entries[i].0;
  }

  /** A successful `convert_all` puts every element in the target unit. */
  lemma ConvertAllIntoTarget(to: Conversion, qs: seq<Quantity>, target: Unit)
    requires IntoTarget(to) && ConvertAll(to, qs, target).Ok?
    ensures forall i :: 0 <= i < |qs| ==> ConvertAll(to, qs, target).value[i].unit == target
  {
  }

  /** `normalize_units`: `[]` for no quantities; otherwise `convert_all` to the target, by default the first element's unit. */
  function NormalizeUnits(to: Conversion, qs: seq<Quantity>, target: Option<Unit>): (r: Result<seq<Quantity>>)
    ensures |qs| == 0 ==> r == Ok([])
    ensures r.Ok? ==> |r.value| == |qs|
    ensures |qs| > 0 ==> r == ConvertAll(to, qs, if target.Some? then target.value else qs[0].unit)
  {
    if |qs| == 0 then Ok([])
    else ConvertAll(to, qs, if target.Some? then target.value else qs[0].unit)
  }

  /** Without a target, normalising leaves the first element as it is (its unit has a non-zero scale). */
  lemma NormalizeKeepsFirst(to: Conversion, qs: seq<Quantity>)
    requires FixesOwnUnit(to)
    requires |qs| > 0 && qs[0].unit.scale != 0.0
    requires NormalizeUnits(to, qs, None).Ok?
    ensures NormalizeUnits(to, qs, None).value[0] == qs[0]
  {
  }

  // ------------------------------------------------------------------ sum

  /**
   * Python's `sum` over `q.to(reference).value for q in quantities`,
   * starting from `acc`: each element is converted and then added, so the
   * first conversion that raises, or the first addition whose shapes do
   * not broadcast, ends the fold.
   */
  function SumValues(to: Conversion, qs: seq<Quantity>, reference: Unit, acc: Array): Result<Array> {
    if |qs| == 0 then Ok(acc)
    else
      match to(qs[0], reference)
      case Err(e) => Err(e)
      case Ok(c) =>
        (match Zip(acc, c.value, Plus)
         case Err(e) => Err(e)
         case Ok(a) => SumValues(to, qs[1..], reference, a))
  }

  /**
   * `sum_quantities`: ValueError for no quantities; otherwise the values
   * summed in the first element's unit, then converted to the target
   * when one is given.
   */
  function SumQuantities(to: Conversion, qs: seq<Quantity>, target: Option<Unit>): (r: Result<Quantity>)
    ensures |qs| == 0 ==> r == Err(ValueError)
    ensures r.Ok? && target.None? ==> r.value.unit == qs[0].unit
  {
    if |qs| == 0 then Err(ValueError)
    else
      var reference := qs[0].unit;
      match SumValues(to, qs, reference, Scalar(0.0))
      case Err(e) => Err(e)
      case Ok(total) =>
        var result := Quantity(total, reference);
        if target.Some? then to(result, target.value) else Ok(result)
  }

  /** `sum_batch`: `sum_quantities` without a target. */
  function SumBatch(to: Conversion, qs: seq<Quantity>): (r: Result<Quantity>)
    ensures |qs| == 0 ==> r == Err(ValueError)
    ensures r.Ok? ==> r.value.unit == qs[0].unit
  {
    SumQuantities(to, qs, None)
  }

  /** The plain sum of some numbers. */
  function Total(xs: seq<real>): real {
    if |xs| == 0 then 0.0 else xs[0] + Total(xs[1..])
  }

  /** Every quantity holds a single number. */
  predicate AllScalar(qs: seq<Quantity>) {
    forall i :: 0 <= i < |qs| ==> qs[i].value.Scalar?
  }

  /** Every quantity converts to `reference`. */
  predicate AllConvert(to: Conversion, qs: seq<Quantity>, reference: Unit) {
    forall i :: 0 <= i < |qs| ==> to(qs[i], reference).Ok?
  }

  /** The numbers of scalar quantities converted to `reference`. */
  function Converted(to: Conversion, qs: seq<Quantity>, reference: Unit): (xs: seq<real>)
    requires KeepsScalars(to)
    requires AllScalar(qs) && AllConvert(to, qs, reference)
    ensures |xs| == |qs|
  {
    seq(|qs|, i requires 0 <= i < |qs| => to(qs[i], reference).value.value.x)
  }

  /** On scalars the fold adds up the converted numbers. */
  lemma {:induction false} SumValuesOfScalars(to: Conversion, qs: seq<Quantity>, reference: Unit, a: real)
    requires KeepsScalars(to)
    requires AllScalar(qs) && AllConvert(to, qs, reference)
    ensures SumValues(to, qs, reference, Scalar(a)) == Ok(Scalar(a + Total(Converted(to, qs, reference))))
  {
    if |qs| > 0 {
      var c := to(qs[0], reference).value;
      ZipScalars(a, c.value.x, Plus);
      var rest := qs[1..];
      assert AllScalar(rest) && AllConvert(to, rest, reference) by {
        assert forall i :: 0 <= i < |rest| ==> rest[i] == qs[i + 1];
      }
      SumValuesOfScalars(to, rest, reference, a + c.value.x);
      assert Converted(to, qs, reference) == [c.value.x] + Converted(to, rest, reference);
    }
  }

  /** On scalars, the sum is the total of the values converted into the first element's unit, in that unit. */
  lemma SumOfScalars(to: Conversion, qs: seq<Quantity>)
    requires KeepsScalars(to)
    requires |qs| > 0 && AllScalar(qs) && AllConvert(to, qs, qs[0].unit)
    ensures SumQuantities(to, qs, None) == Ok(Quantity(Scalar(Total(Converted(to, qs, qs[0].unit))), qs[0].unit))
  {
    SumValuesOfScalars(to, qs, qs[0].unit, 0.0);
  }

  /** The sum of quantities already in one unit is the sum of their numbers. */
  lemma SameUnitConverted(to: Conversion, qs: seq<Quantity>, xs: seq<real>, u: Unit)
    requires KeepsScalars(to) && FixesOwnUnit(to)
    requires |qs| == |xs| && u.scale != 0.0
    requires forall i :: 0 <= i < |qs| ==> qs[i] == Quantity(Scalar(xs[i]), u)
    ensures AllScalar(qs) && AllConvert(to, qs, u) && Converted(to, qs, u) == xs
  {
    assert forall i :: 0 <= i < |qs| ==> to(qs[i], u) == Ok(qs[i]);
  }

  /** 100 + 50 + 25 of one unit is 175 of that unit. */
  lemma SumExample(to: Conversion, u: Unit)
    requires KeepsScalars(to) && FixesOwnUnit(to) && u.scale != 0.0
    ensures SumQuantities(to, [Quantity(Scalar(100.0), u), Quantity(Scalar(50.0), u), Quantity(Scalar(25.0), u)], None)
         == Ok(Quantity(Scalar(175.0), u))
  {
    var qs := [Quantity(Scalar(100.0), u), Quantity(Scalar(50.0), u), Quantity(Scalar(25.0), u)];
    SameUnitConverted(to, qs, [100.0, 50.0, 25.0], u);
    SumOfScalars(to, qs);
  }

  /** Every quantity converts to `reference`, and every converted value is an array of `n` elements. */
  predicate AllVectorsOf(to: Conversion, qs: seq<Quantity>, reference: Unit, n: nat) {
    forall i :: 0 <= i < |qs| ==>
      to(qs[i], reference).Ok? && to(qs[i], reference).value.value.Vector?
      && |to(qs[i], reference).value.value.xs| == n
  }

  /** Element `k` of each converted value, in list order. */
  function Column(to: Conversion, qs: seq<Quantity>, reference: Unit, n: nat, k: nat): (xs: seq<real>)
    requires AllVectorsOf(to, qs, reference, n) && k < n
    ensures |xs| == |qs|
  {
    seq(|qs|, i requires 0 <= i < |qs| => to(qs[i], reference).value.value.xs[k])
  }

  /** On arrays of one length the fold adds element by element, onto the array `acc`. */
  lemma {:induction false} SumValuesOfVectors(to: Conversion, qs: seq<Quantity>, reference: Unit, n: nat, acc: seq<real>)
    requires |acc| == n && AllVectorsOf(to, qs, reference, n)
    ensures SumValues(to, qs, reference, Vector(acc)).Ok?
    ensures var t := SumValues(to, qs, reference, Vector(acc)).value;
      t.Vector? && |t.xs| == n &&
      forall k :: 0 <= k < n ==> t.xs[k] == acc[k] + Total(Column(to, qs, reference, n, k))
  {
    if |qs| > 0 {
      var c := to(qs[0], reference).value;
      var z := Zip(Vector(acc), c.value, Plus).value;
      assert z.Vector? && z.xs == Elements(z) && |z.xs| == n;
      assert forall k :: 0 <= k < n ==> z.xs[k] == acc[k] + c.value.xs[k];
      var rest := qs[1..];
      assert AllVectorsOf(to, rest, reference, n) by {
        assert forall i :: 0 <= i < |rest| ==> rest[i] == qs[i + 1];
      }
      SumValuesOfVectors(to, rest, reference, n, z.xs);
      forall k | 0 <= k < n
        ensures Total(Column(to, qs, reference, n, k)) == c.value.xs[k] + Total(Column(to, rest, reference, n, k))
      {
        assert Column(to, qs, reference, n, k)[1..] == Column(to, rest, reference, n, k);
      }
    } else {
      forall k | 0 <= k < n
        ensures Total(Column(to, qs, reference, n, k)) == 0.0
      {
        assert Column(to, qs, reference, n, k) == [];
      }
    }
  }

  /**
   * On quantities whose converted values are arrays of one length `n`,
   * the sum is an array of `n` elements in the first element's unit, and
   * element `k` is the total of the `k`-th converted elements.
   */
  lemma SumOfVectors(to: Conversion, qs: seq<Quantity>, n: nat)
    requires |qs| > 0 && AllVectorsOf(to, qs, qs[0].unit, n)
    ensures SumQuantities(to, qs, None).Ok?
    ensures var r := SumQuantities(to, qs, None).value;
      r.unit == qs[0].unit && r.value.Vector? && |r.value.xs| == n &&
      forall k :: 0 <= k < n ==> r.value.xs[k] == Total(Column(to, qs, qs[0].unit, n, k))
  {
    var reference := qs[0].unit;
    var c := to(qs[0], reference).value;
    var z := Zip(Scalar(0.0), c.value, Plus).value;
    assert z.Vector? && z.xs == Elements(z) && |z.xs| == n;
    assert forall k :: 0 <= k < n ==> z.xs[k] == c.value.xs[k];
    var rest := qs[1..];
    assert AllVectorsOf(to, rest, reference, n) by {
      assert forall i :: 0 <= i < |rest| ==> rest[i] == qs[i + 1];
    }
    SumValuesOfVectors(to, rest, reference, n, z.xs);
    forall k | 0 <= k < n
      ensures Total(Column(to, qs, reference, n, k)) == c.value.xs[k] + Total(Column(to, rest, reference, n, k))
    {
      assert Column(to, qs, reference, n, k)[1..] == Column(to, rest, reference, n, k);
    }
  }

  // ----------------------------------------------------------------- mean

  /** `mean_quantities`: ValueError for no quantities; otherwise the sum divided by the count, then the optional target. */
  function MeanQuantities(to: Conversion, qs: seq<Quantity>, target: Option<Unit>): (r: Result<Quantity>)
    ensures |qs| == 0 ==> r == Err(ValueError)
    ensures r.Ok? && target.None? ==> r.value.unit == qs[0].unit
  {
    if |qs| == 0 then Err(ValueError)
    else
      match SumQuantities(to, qs, None)
      case Err(e) => Err(e)
      case Ok(total) =>
        (match Div(total, Plain(Scalar(|qs| as real)))
         case Err(e) => Err(e)
         case Ok(result) => if target.Some? then to(result, target.value) else Ok(result))
  }

  /** A scalar quantity divided by a positive count. */
  lemma DivideByCount(t: real, u: Unit, n: nat)
    requires n > 0
    ensures Div(Quantity(Scalar(t), u), Plain(Scalar(n as real))) == Ok(Quantity(Scalar(t / n as real), u))
  {
    ZipScalars(t, n as real, Over);
    assert !ZeroDivisor(Scalar(t), Scalar(n as real));
  }

  /** On scalars the mean is the total of the converted numbers over their count, in the first element's unit. */
  lemma MeanOfScalars(to: Conversion, qs: seq<Quantity>)
    requires KeepsScalars(to)
    requires |qs| > 0 && AllScalar(qs) && AllConvert(to, qs, qs[0].unit)
    ensures MeanQuantities(to, qs, None)
         == Ok(Quantity(Scalar(Total(Converted(to, qs, qs[0].unit)) / |qs| as real), qs[0].unit))
  {
    SumOfScalars(to, qs);
    DivideByCount(Total(Converted(to, qs, qs[0].unit)), qs[0].unit, |qs|);
  }

  /** The mean of 100, 200 and 300 of one unit is 200 of that unit. */
  lemma MeanExample(to: Conversion, u: Unit)
    requires KeepsScalars(to) && FixesOwnUnit(to) && u.scale != 0.0
    ensures MeanQuantities(to, [Quantity(Scalar(100.0), u), Quantity(Scalar(200.0), u), Quantity(Scalar(300.0), u)], None)
         == Ok(Quantity(Scalar(200.0), u))
  {
    var qs := [Quantity(Scalar(100.0), u), Quantity(Scalar(200.0), u), Quantity(Scalar(300.0), u)];
    SameUnitConverted(to, qs, [100.0, 200.0, 300.0], u);
    MeanOfScalars(to, qs);
  }

  /** On arrays of one length `n`, the mean is element-wise: the total of the `k`-th converted elements over the count. */
  lemma MeanOfVectors(to: Conversion, qs: seq<Quantity>, n: nat)
    requires |qs| > 0 && AllVectorsOf(to, qs, qs[0].unit, n)
    ensures MeanQuantities(to, qs, None).Ok?
    ensures var r := MeanQuantities(to, qs, None).value;
      r.unit == qs[0].unit && r.value.Vector? && |r.value.xs| == n &&
      forall k :: 0 <= k < n ==> r.value.xs[k] == Total(Column(to, qs, qs[0].unit, n, k)) / |qs| as real
  {
    SumOfVectors(to, qs, n);
    var total := SumQuantities(to, qs, None).value;
    var count := Scalar(|qs| as real);
    assert Broadcastable(total.value, count) && Size(total.value, count) == n;
    assert !ZeroDivisor(total.value, count);
    var r := Div(total, Plain(count)).value;
    assert r.value.Vector? && r.value.xs == Elements(r.value);
  }

  // ----------------------------------------------------------- min and max

  /** `np.argmin`: the first index holding the smallest number. */
  function ArgMin(xs: seq<real>): (k: nat)
    requires |xs| > 0
    ensures k < |xs|
    ensures forall i :: 0 <= i < |xs| ==> xs[k] <= xs[i]
    ensures forall i :: 0 <= i < k ==> xs[k] < xs[i]
  {
    if |xs| == 1 then 0
    else
      var k := ArgMin(xs[..|xs| - 1]);
      if xs[|xs| - 1] < xs[k] then |xs| - 1 else k
  }

  /** `np.argmax`: the first index holding the largest number. */
  function ArgMax(xs: seq<real>): (k: nat)
    requires |xs| > 0
    ensures k < |xs|
    ensures forall i :: 0 <= i < |xs| ==> xs[i] <= xs[k]
    ensures forall i :: 0 <= i < k ==> xs[i] < xs[k]
  {
    if |xs| == 1 then 0
    else
      var k := ArgMax(xs[..|xs| - 1]);
      if xs[|xs| - 1] > xs[k] then |xs| - 1 else k
  }

  /** The values of some quantities. */
  function ValuesOf(qs: seq<Quantity>): (vs: seq<Array>)
    ensures |vs| == |qs| && forall i :: 0 <= i < |qs| ==> vs[i] == qs[i].value
  {
    seq(|qs|, i requires 0 <= i < |qs| => qs[i].value)
  }

  /** The list of values makes a regular numpy array: all scalars, or all 1-d arrays of one length. */
  predicate Regular(vs: seq<Array>) {
    (forall i :: 0 <= i < |vs| ==> vs[i].Scalar?)
    || (forall i :: 0 <= i < |vs| ==> vs[i].Vector? && vs[0].Vector? && |vs[i].xs| == |vs[0].xs|)
  }

  /** The elements of the values, row after row: the order `np.argmin` numbers them in. */
  function Flatten(vs: seq<Array>): (xs: seq<real>)
    ensures (forall i :: 0 <= i < |vs| ==> vs[i].Scalar?) ==> |xs| == |vs|
  {
    if |vs| == 0 then [] else Elements(vs[0]) + Flatten(vs[1..])
  }

  /** On scalars the flattened list is the list of the numbers. */
  lemma {:induction false} FlattenScalars(vs: seq<Array>)
    requires forall i :: 0 <= i < |vs| ==> vs[i].Scalar?
    ensures forall i :: 0 <= i < |vs| ==> Flatten(vs)[i] == vs[i].x
  {
    if |vs| > 0 {
      FlattenScalars(vs[1..]);
      forall i | 1 <= i < |vs|
        ensures Flatten(vs)[i] == vs[i].x
      {
        assert vs[i] == vs[1..][i - 1];
      }
    }
  }

  /**
   * The index `np.argmin` (or `np.argmax`) picks in the converted values:
   * ValueError when the values do not form a regular array or it is
   * empty; otherwise an index into the flattened array.
   */
  function PickIndex(vs: seq<Array>, smallest: bool): (r: Result<nat>)
    ensures r.Ok? ==> Regular(vs) && r.value < |Flatten(vs)|
  {
    if !Regular(vs) then Err(ValueError)
    else
      var xs := Flatten(vs);
      if |xs| == 0 then Err(ValueError)
      else Ok(if smallest then ArgMin(xs) else ArgMax(xs))
  }

  /**
   * `min_quantity` (`smallest`) and `max_quantity`: ValueError for no
   * quantities; the values converted into the first element's unit; the
   * ORIGINAL element at the index `np.argmin`/`np.argmax` gives (a flat
   * index, which can be past the end of the list when the values are
   * arrays); converted only when a target is given.
   */
  function Extreme(to: Conversion, qs: seq<Quantity>, target: Option<Unit>, smallest: bool): (r: Result<Quantity>)
    ensures |qs| == 0 ==> r == Err(ValueError)
    ensures r.Ok? && target.None? ==> r.value in qs
  {
    if |qs| == 0 then Err(ValueError)
    else
      match ConvertAll(to, qs, qs[0].unit)
      case Err(e) => Err(e)
      case Ok(converted) =>
        (match PickIndex(ValuesOf(converted), smallest)
         case Err(e) => Err(e)
         case Ok(k) =>
           if k >= |qs| then Err(IndexError)
           else if target.Some? then to(qs[k], target.value)
           else Ok(qs[k]))
  }

  function MinQuantity(to: Conversion, qs: seq<Quantity>, target: Option<Unit>): (r: Result<Quantity>)
    ensures |qs| == 0 ==> r == Err(ValueError)
    ensures r.Ok? && target.None? ==> r.value in qs
  {
    Extreme(to, qs, target, true)
  }

  function MaxQuantity(to: Conversion, qs: seq<Quantity>, target: Option<Unit>): (r: Result<Quantity>)
    ensures |qs| == 0 ==> r == Err(ValueError)
    ensures r.Ok? && target.None? ==> r.value in qs
  {
    Extreme(to, qs, target, false)
  }

  /** On scalars the converted values are the scalars of the converted numbers. */
  lemma ConvertedValues(to: Conversion, qs: seq<Quantity>, reference: Unit)
    requires KeepsScalars(to)
    requires AllScalar(qs) && AllConvert(to, qs, reference)
    ensures var vs := ValuesOf(ConvertAll(to, qs, reference).value);
            forall i :: 0 <= i < |qs| ==> vs[i] == Scalar(Converted(to, qs, reference)[i])
  {
  }

  /** On scalar values the index picked is the first extreme of their numbers. */
  lemma PickOfScalars(vs: seq<Array>, xs: seq<real>, smallest: bool)
    requires |vs| == |xs| > 0
    requires forall i :: 0 <= i < |vs| ==> vs[i] == Scalar(xs[i])
    ensures PickIndex(vs, smallest) == Ok(if smallest then ArgMin(xs) else ArgMax(xs))
  {
    FlattenScalars(vs);
    assert Flatten(vs) == xs;
  }

  /**
   * On scalars `min_quantity` returns the original element at the first
   * index whose value, converted into the first element's unit, is the
   * smallest.
   */
  lemma MinOfScalars(to: Conversion, qs: seq<Quantity>)
    requires KeepsScalars(to)
    requires |qs| > 0 && AllScalar(qs) && AllConvert(to, qs, qs[0].unit)
    ensures var xs := Converted(to, qs, qs[0].unit);
            MinQuantity(to, qs, None) == Ok(qs[ArgMin(xs)])
            && (forall i :: 0 <= i < |qs| ==> xs[ArgMin(xs)] <= xs[i])
            && (forall i :: 0 <= i < ArgMin(xs) ==> xs[ArgMin(xs)] < xs[i])
  {
    ConvertedValues(to, qs, qs[0].unit);
    PickOfScalars(ValuesOf(ConvertAll(to, qs, qs[0].unit).value), Converted(to, qs, qs[0].unit), true);
  }

  /** On scalars `max_quantity` returns the original element at the first index of the largest converted value. */
  lemma MaxOfScalars(to: Conversion, qs: seq<Quantity>)
    requires KeepsScalars(to)
    requires |qs| > 0 && AllScalar(qs) && AllConvert(to, qs, qs[0].unit)
    ensures var xs := Converted(to, qs, qs[0].unit);
            MaxQuantity(to, qs, None) == Ok(qs[ArgMax(xs)])
            && (forall i :: 0 <= i < |qs| ==> xs[i] <= xs[ArgMax(xs)])
            && (forall i :: 0 <= i < ArgMax(xs) ==> xs[i] < xs[ArgMax(xs)])
  {
    ConvertedValues(to, qs, qs[0].unit);
    PickOfScalars(ValuesOf(ConvertAll(to, qs, qs[0].unit).value), Converted(to, qs, qs[0].unit), false);
  }

  /** With a target, the sum is in the target unit. */
  lemma SumIntoTarget(to: Conversion, qs: seq<Quantity>, u: Unit)
    requires IntoTarget(to) && SumQuantities(to, qs, Some(u)).Ok?
    ensures SumQuantities(to, qs, Some(u)).value.unit == u
  {
  }

  /** With a target, the mean is in the target unit. */
  lemma MeanIntoTarget(to: Conversion, qs: seq<Quantity>, u: Unit)
    requires IntoTarget(to) && MeanQuantities(to, qs, Some(u)).Ok?
    ensures MeanQuantities(to, qs, Some(u)).value.unit == u
  {
  }

  /** With a target, the minimum and the maximum are in the target unit. */
  lemma ExtremeIntoTarget(to: Conversion, qs: seq<Quantity>, u: Unit, smallest: bool)
    requires IntoTarget(to) && Extreme(to, qs, Some(u), smallest).Ok?
    ensures Extreme(to, qs, Some(u), smallest).value.unit == u
  {
  }
}
