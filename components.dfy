/**
 * The component dictionary of a unit: atomic unit name -> power, kept in
 * insertion order like a Python dict (the order decides how composite
 * unit names are rendered). Powers are whole numbers.
 */
module Components {

  type Components = seq<(string, int)>

  /** Slicing a sequence up to its length gives all of it. */
  lemma WholeSlice<T>(c: seq<T>)
    ensures c[..|c|] == c
  {
  }

  /** `d.get(k, dflt)`: the power stored under `k`, or `dflt` when `k` is absent. */
  function Get(d: Components, k: string, dflt: int): int {
    if |d| == 0 then dflt
    else if d[0].0 == k then d[0].1
    else Get(d[1..], k, dflt)
  }

  function Keys(d: Components): (ks: seq<string>)
    ensures |ks| == |d|
    ensures forall i :: 0 <= i < |d| ==> ks[i] == d[i].0
  {
    if |d| == 0 then [] else [d[0].0] + Keys(d[1..])
  }

  predicate HasKey(d: Components, k: string) {
    exists i :: 0 <= i < |d| && d[i].0 == k
  }

  /** No name occurs twice, as in any Python dict. */
  predicate UniqueKeys(d: Components) {
    forall i, j :: 0 <= i < j < |d| ==> d[i].0 != d[j].0
  }

  /**
   * `d[k] = v`: an existing key keeps its position and gets the new power;
   * a new key is appended at the end.
   */
  function Put(d: Components, k: string, v: int): (r: Components)
    ensures HasKey(d, k) ==> |r| == |d|
    ensures !HasKey(d, k) ==> r == d + [(k, v)]
  {
    if |d| == 0 then [(k, v)]
    else if d[0].0 == k then [(k, v)] + d[1..]
    else
      assert HasKey(d, k) <==> HasKey(d[1..], k) by {
        if HasKey(d, k) {
          var i :| 0 <= i < |d| && d[i].0 == k;
          assert d[1..][i - 1].0 == k;
        }
        if HasKey(d[1..], k) {
          var i :| 0 <= i < |d[1..]| && d[1..][i].0 == k;
          assert d[i + 1].0 == k;
        }
      }
      [d[0]] + Put(d[1..], k, v)
  }

  /** The dictionary seen as a map, as Python's dict equality sees it (the first entry for a name wins). */
  function ToMap(d: Components): (m: map<string, int>)
    ensures forall k :: k in m <==> HasKey(d, k)
  {
    if |d| == 0 then map[]
    else
      var rest := ToMap(d[1..]);
      assert forall k :: HasKey(d, k) <==> k == d[0].0 || HasKey(d[1..], k) by {
        forall k | HasKey(d, k) && k != d[0].0
          ensures HasKey(d[1..], k)
        {
          var i :| 0 <= i < |d| && d[i].0 == k;
          assert d[1..][i - 1].0 == k;
        }
        forall k | HasKey(d[1..], k)
          ensures HasKey(d, k)
        {
          var i :| 0 <= i < |d[1..]| && d[1..][i].0 == k;
          assert d[i + 1].0 == k;
        }
      }
      rest[d[0].0 := d[0].1]
  }

  /**
   * The loop `for u, p in other.items(): acc[u] = acc.get(u, 0) + sign * p`
   * that multiplication (sign 1) and division (sign -1) of units perform.
   */
  function Combine(acc: Components, other: Components, sign: int): Components
    decreases |other|
  {
    if |other| == 0 then acc
    else
      var k := other[0].0;
      Combine(Put(acc, k, Get(acc, k, 0) + sign * other[0].1), other[1..], sign)
  }

  lemma {:induction false} GetDefault(d: Components, k: string, dflt: int)
    requires !HasKey(d, k)
    ensures Get(d, k, dflt) == dflt
  {
    if |d| > 0 {
      assert d[0].0 != k;
      assert !HasKey(d[1..], k) by {
        forall i | 0 <= i < |d[1..]|
          ensures d[1..][i].0 != k
        {
          assert d[1..][i] == d[i + 1];
        }
      }
      GetDefault(d[1..], k, dflt);
    }
  }

  /** `get` agrees with the map view of the dictionary. */
  lemma {:induction false} GetToMap(d: Components, k: string, dflt: int)
    ensures Get(d, k, dflt) == if k in ToMap(d) then ToMap(d)[k] else dflt
  {
    if |d| == 0 {
    } else if d[0].0 == k {
    } else {
      GetToMap(d[1..], k, dflt);
    }
  }

  /** After `d[k] = v`, reading `k` gives `v` and every other name reads as before. */
  lemma {:induction false} GetPut(d: Components, k: string, v: int, k': string, dflt: int)
    ensures Get(Put(d, k, v), k', dflt) == if k' == k then v else Get(d, k', dflt)
  {
    if |d| == 0 {
    } else if d[0].0 == k {
    } else {
      GetPut(d[1..], k, v, k', dflt);
    }
  }

  lemma HasKeyCons(d: Components, k: string)
    requires |d| > 0
    ensures HasKey(d, k) <==> d[0].0 == k || HasKey(d[1..], k)
  {
    if HasKey(d, k) && d[0].0 != k {
      var i :| 0 <= i < |d| && d[i].0 == k;
      assert d[1..][i - 1].0 == k;
    }
    if HasKey(d[1..], k) {
      var i :| 0 <= i < |d[1..]| && d[1..][i].0 == k;
      assert d[i + 1].0 == k;
    }
  }

  lemma {:induction false} PutKeys(d: Components, k: string, v: int, k': string)
    ensures HasKey(Put(d, k, v), k') <==> k' == k || HasKey(d, k')
  {
    var r := Put(d, k, v);
    if |d| == 0 {
      assert r[0].0 == k;
    } else if d[0].0 == k {
      assert r[0].0 == k;
      if HasKey(d, k') && k' != k {
        var i :| 0 <= i < |d| && d[i].0 == k';
        assert r[i].0 == k';
      }
      if HasKey(r, k') {
        var i :| 0 <= i < |r| && r[i].0 == k';
        assert d[i].0 == k' || i == 0;
      }
    } else {
      PutKeys(d[1..], k, v, k');
      var tail := Put(d[1..], k, v);
      assert r == [d[0]] + tail;
      HasKeyCons(d, k');
      HasKeyCons(r, k');
      assert r[1..] == tail;
    }
  }

  /** Assignment into a dictionary never creates a duplicate name. */
  lemma {:induction false} PutUnique(d: Components, k: string, v: int)
    requires UniqueKeys(d)
    ensures UniqueKeys(Put(d, k, v))
  {
    if |d| > 0 && d[0].0 != k {
      PutUnique(d[1..], k, v);
      var tail := Put(d[1..], k, v);
      assert !HasKey(d[1..], d[0].0) by {
        forall i | 0 <= i < |d[1..]|
          ensures d[1..][i].0 != d[0].0
        {
          assert d[1..][i] == d[i + 1];
        }
      }
      PutKeys(d[1..], k, v, d[0].0);
      assert !HasKey(tail, d[0].0);
    }
  }

  /** The rest of a dictionary with unique names has unique names and lacks the first one. */
  lemma UniqueTail(d: Components)
    requires UniqueKeys(d) && |d| > 0
    ensures UniqueKeys(d[1..]) && !HasKey(d[1..], d[0].0)
  {
    forall i | 0 <= i < |d[1..]|
      ensures d[1..][i].0 != d[0].0
    {
      assert d[1..][i] == d[i + 1];
    }
  }

  /** Combining adds (sign 1) or subtracts (sign -1) the other dictionary's powers name by name. */
  lemma {:induction false} CombineGet(acc: Components, other: Components, sign: int, k: string)
    requires UniqueKeys(other)
    ensures Get(Combine(acc, other, sign), k, 0) == Get(acc, k, 0) + sign * Get(other, k, 0)
    decreases |other|
  {
    if |other| > 0 {
      var k0 := other[0].0;
      var v := Get(acc, k0, 0) + sign * other[0].1;
      var acc', tail := Put(acc, k0, v), other[1..];
      assert Combine(acc, other, sign) == Combine(acc', tail, sign);
      UniqueTail(other);
      CombineGet(acc', tail, sign, k);
      GetPut(acc, k0, v, k, 0);
      if k == k0 {
        GetDefault(tail, k, 0);
        assert sign * Get(tail, k, 0) == 0;
        assert Get(other, k, 0) == other[0].1;
      } else {
        assert Get(other, k, 0) == Get(tail, k, 0);
      }
    }
  }

  /** The names of a combination are those of both operands. */
  lemma {:induction false} CombineKeys(acc: Components, other: Components, sign: int, k: string)
    ensures HasKey(Combine(acc, other, sign), k) <==> HasKey(acc, k) || HasKey(other, k)
    decreases |other|
  {
    if |other| > 0 {
      var k0 := other[0].0;
      var acc' := Put(acc, k0, Get(acc, k0, 0) + sign * other[0].1);
      CombineKeys(acc', other[1..], sign, k);
      CombineKeysStep(acc, acc', other, sign, k);
    } else {
      assert Combine(acc, other, sign) == acc;
      assert !HasKey(other, k);
    }
  }

  /** One step of `Combine`: adding the first entry of `other` keeps the name sets in step. */
  lemma CombineKeysStep(acc: Components, acc': Components, other: Components, sign: int, k: string)
    requires |other| > 0
    requires acc' == Put(acc, other[0].0, Get(acc, other[0].0, 0) + sign * other[0].1)
    requires HasKey(Combine(acc', other[1..], sign), k) <==> HasKey(acc', k) || HasKey(other[1..], k)
    ensures HasKey(Combine(acc, other, sign), k) <==> HasKey(acc, k) || HasKey(other, k)
  {
    var k0 := other[0].0;
    assert Combine(acc, other, sign) == Combine(acc', other[1..], sign);
    PutKeys(acc, k0, Get(acc, k0, 0) + sign * other[0].1, k);
    HasKeyCons(other, k);
  }

  lemma {:induction false} CombineUnique(acc: Components, other: Components, sign: int)
    requires UniqueKeys(acc)
    ensures UniqueKeys(Combine(acc, other, sign))
    decreases |other|
  {
    if |other| > 0 {
      var k0 := other[0].0;
      PutUnique(acc, k0, Get(acc, k0, 0) + sign * other[0].1);
      CombineUnique(Put(acc, k0, Get(acc, k0, 0) + sign * other[0].1), other[1..], sign);
    }
  }

  /** Two dictionaries with unique names are equal as dicts exactly when every name reads the same. */
  lemma ToMapEqual(a: Components, b: Components)
    ensures ToMap(a) == ToMap(b) <==> forall k :: Get(a, k, 0) == Get(b, k, 0) && (HasKey(a, k) <==> HasKey(b, k))
  {
    forall k
      ensures Get(a, k, 0) == (if k in ToMap(a) then ToMap(a)[k] else 0)
      ensures Get(b, k, 0) == (if k in ToMap(b) then ToMap(b)[k] else 0)
    {
      GetToMap(a, k, 0);
      GetToMap(b, k, 0);
    }
    if forall k :: Get(a, k, 0) == Get(b, k, 0) && (HasKey(a, k) <==> HasKey(b, k)) {
      assert ToMap(a).Keys == ToMap(b).Keys;
    }
  }
}
