/** Conversion between dynamic values and JS values, both taken as finite trees. */
module Dynamic {
  import opened Bytes

  datatype Dyn =
    | NullT
    | BoolT(b: bool)
    | Int64(i: int)
    | Double(d: double)
    | StringT(s: string)
    | ArrayT(elements: seq<Dyn>)
    | ObjectT(items: map<string, Dyn>)

  datatype Js =
    | Undefined
    | Null
    | Boolean(b: bool)
    | Number(d: double)
    | String(s: string)
    | Array(elements: seq<Js>)
    | Object(properties: map<string, Js>)
    | Function

  /** The conversion of an int64 to the double nearest to it, or to any other double. */
  type Cast = int -> double

  // ---------------------------------------------------------------- the two conversions

  function FromDynamic(cast: Cast, d: Dyn): Js {
    match d
    case NullT => Null
    case BoolT(b) => Boolean(b)
    case Int64(i) => Number(cast(i))
    case Double(x) => Number(x)
    case StringT(s) => String(s)
    case ArrayT(es) => Array(seq(|es|, i requires 0 <= i < |es| => FromDynamic(cast, es[i])))
    case ObjectT(items) => Object(map k | k in items :: FromDynamic(cast, items[k]))
  }

  /** Functions are not convertible, except that a property that is one becomes null; undefined properties are left
      out. */
  predicate Convertible(v: Js) {
    match v
    case Function => false
    case Array(es) => forall i | 0 <= i < |es| :: Convertible(es[i])
    case Object(ps) => forall k | k in ps && !ps[k].Function? :: Convertible(ps[k])
    case _ => true
  }

  /** None for the JSError about a function. */
  function ToDynamic(v: Js): (r: Option<Dyn>)
    ensures r.Some? <==> Convertible(v)
  {
    match v
    case Undefined => Some(NullT)
    case Null => Some(NullT)
    case Boolean(b) => Some(BoolT(b))
    case Number(x) => Some(Double(x))
    case String(s) => Some(StringT(s))
    case Function => None
    case Array(es) =>
      if forall i | 0 <= i < |es| :: ToDynamic(es[i]).Some?
      then Some(ArrayT(seq(|es|, i requires 0 <= i < |es| => ToDynamic(es[i]).value)))
      else None
    case Object(ps) =>
      if forall k | k in ps && !ps[k].Function? :: ToDynamic(ps[k]).Some?
      then Some(ObjectT(map k | k in ps && !ps[k].Undefined? ::
                          if ps[k].Function? then NullT else ToDynamic(ps[k]).value))
      else None
  }

  // ---------------------------------------------------------------- round trips

  /** The same tree with doubles for integers. */
  function Doubled(cast: Cast, d: Dyn): Dyn {
    match d
    case Int64(i) => Double(cast(i))
    case ArrayT(es) => ArrayT(seq(|es|, i requires 0 <= i < |es| => Doubled(cast, es[i])))
    case ObjectT(items) => ObjectT(map k | k in items :: Doubled(cast, items[k]))
    case _ => d
  }

  predicate NoIntegers(d: Dyn) {
    match d
    case Int64(_) => false
    case ArrayT(es) => forall i | 0 <= i < |es| :: NoIntegers(es[i])
    case ObjectT(items) => forall k | k in items :: NoIntegers(items[k])
    case _ => true
  }

  lemma NeverFunction(cast: Cast, d: Dyn)
    ensures !FromDynamic(cast, d).Function? && !FromDynamic(cast, d).Undefined?
  {
  }

  predicate Returns(cast: Cast, d: Dyn) {
    ToDynamic(FromDynamic(cast, d)) == Some(Doubled(cast, d))
  }

  lemma ArrayReturns(cast: Cast, es: seq<Dyn>)
    requires forall i | 0 <= i < |es| :: Returns(cast, es[i])
    ensures Returns(cast, ArrayT(es))
  {
    var js := FromDynamic(cast, ArrayT(es));
    assert forall i | 0 <= i < |es| :: js.elements[i] == FromDynamic(cast, es[i]);
    assert forall i | 0 <= i < |es| :: ToDynamic(js.elements[i]).Some? by {
      assert forall i | 0 <= i < |es| :: Returns(cast, es[i]);
    }
    assert ToDynamic(js).value.elements == Doubled(cast, ArrayT(es)).elements;
  }

  lemma ObjectReturns(cast: Cast, items: map<string, Dyn>)
    requires forall k | k in items :: Returns(cast, items[k])
    ensures Returns(cast, ObjectT(items))
  {
    var js := FromDynamic(cast, ObjectT(items));
    forall k | k in items
      ensures k in js.properties && js.properties[k] == FromDynamic(cast, items[k])
      ensures !js.properties[k].Function? && !js.properties[k].Undefined?
      ensures ToDynamic(js.properties[k]) == Some(Doubled(cast, items[k]))
    {
      NeverFunction(cast, items[k]);
      assert Returns(cast, items[k]);
    }
    assert ToDynamic(js).value.items == Doubled(cast, ObjectT(items)).items;
  }

  /** Out and back, a dynamic value is itself but for its integers. */
  lemma {:induction false} RoundTrip(cast: Cast, d: Dyn)
    ensures ToDynamic(FromDynamic(cast, d)) == Some(Doubled(cast, d))
    decreases d
  {
    match d
    case ArrayT(es) =>
      forall i | 0 <= i < |es| ensures Returns(cast, es[i]) {
        RoundTrip(cast, es[i]);
      }
      ArrayReturns(cast, es);
    case ObjectT(items) =>
      forall k | k in items ensures Returns(cast, items[k]) {
        RoundTrip(cast, items[k]);
      }
      ObjectReturns(cast, items);
    case _ =>
  }

  lemma {:induction false} DynamicHasNoIntegers(v: Js)
    requires Convertible(v)
    ensures NoIntegers(ToDynamic(v).value)
    decreases v
  {
    match v
    case Array(es) =>
      forall i | 0 <= i < |es| ensures NoIntegers(ToDynamic(es[i]).value) {
        DynamicHasNoIntegers(es[i]);
      }
    case Object(ps) =>
      forall k | k in ps && !ps[k].Function? ensures NoIntegers(ToDynamic(ps[k]).value) {
        DynamicHasNoIntegers(ps[k]);
      }
    case _ =>
  }

  lemma {:induction false} DoubledIsSame(cast: Cast, d: Dyn)
    ensures Doubled(cast, d) == d <==> NoIntegers(d)
    decreases d
  {
    match d
    case ArrayT(es) =>
      forall i | 0 <= i < |es| ensures Doubled(cast, es[i]) == es[i] <==> NoIntegers(es[i]) {
        DoubledIsSame(cast, es[i]);
      }
      assert forall i | 0 <= i < |es| :: Doubled(cast, d).elements[i] == Doubled(cast, es[i]);
    case ObjectT(items) =>
      forall k | k in items ensures Doubled(cast, items[k]) == items[k] <==> NoIntegers(items[k]) {
        DoubledIsSame(cast, items[k]);
      }
      assert forall k | k in items :: Doubled(cast, d).items[k] == Doubled(cast, items[k]);
    case _ =>
  }

  /** Exactly the dynamic values without integers come back unchanged. */
  lemma UnchangedIff(cast: Cast, d: Dyn)
    ensures ToDynamic(FromDynamic(cast, d)) == Some(d) <==> NoIntegers(d)
  {
    RoundTrip(cast, d);
    DoubledIsSame(cast, d);
  }

  /** Conversion settles after one pass: what a JS value has become, it stays. */
  lemma Settles(cast: Cast, v: Js)
    requires Convertible(v)
    ensures ToDynamic(FromDynamic(cast, ToDynamic(v).value)) == ToDynamic(v)
  {
    DynamicHasNoIntegers(v);
    UnchangedIff(cast, ToDynamic(v).value);
  }

  // ---------------------------------------------------------------- round trips from the other side

  /** What becomes of a JS value: undefined turns into null, or is left out where it is a property, and a property that is
      a function turns into null. */
  function Cleaned(v: Js): Js {
    match v
    case Undefined => Null
    case Array(es) => Array(seq(|es|, i requires 0 <= i < |es| => Cleaned(es[i])))
    case Object(ps) =>
      Object(map k | k in ps && !ps[k].Undefined? :: if ps[k].Function? then Null else Cleaned(ps[k]))
    case _ => v
  }

  predicate ComesBack(cast: Cast, v: Js) {
    Convertible(v) ==> FromDynamic(cast, ToDynamic(v).value) == Cleaned(v)
  }

  lemma ArrayComesBack(cast: Cast, es: seq<Js>)
    requires forall i | 0 <= i < |es| :: ComesBack(cast, es[i])
    ensures ComesBack(cast, Array(es))
  {
    if Convertible(Array(es)) {
      var ds := ToDynamic(Array(es)).value.elements;
      forall i | 0 <= i < |es| ensures FromDynamic(cast, ds[i]) == Cleaned(es[i]) {
        assert ComesBack(cast, es[i]);
      }
      assert FromDynamic(cast, ArrayT(ds)).elements == Cleaned(Array(es)).elements;
    }
  }

  lemma ObjectComesBack(cast: Cast, ps: map<string, Js>)
    requires forall k | k in ps :: ComesBack(cast, ps[k])
    ensures ComesBack(cast, Object(ps))
  {
    if Convertible(Object(ps)) {
      var ds := ToDynamic(Object(ps)).value.items;
      forall k | k in ds ensures k in ps && FromDynamic(cast, ds[k]) == if ps[k].Function? then Null else Cleaned(ps[k]) {
        assert ComesBack(cast, ps[k]);
      }
      assert FromDynamic(cast, ObjectT(ds)).properties == Cleaned(Object(ps)).properties;
    }
  }

  /** In and back, a JS value that can be converted is itself but for undefined and functions. */
  lemma {:induction false} JsRoundTrip(cast: Cast, v: Js)
    ensures Convertible(v) ==> FromDynamic(cast, ToDynamic(v).value) == Cleaned(v)
    decreases v
  {
    match v
    case Array(es) =>
      forall i | 0 <= i < |es| ensures ComesBack(cast, es[i]) {
        JsRoundTrip(cast, es[i]);
      }
      ArrayComesBack(cast, es);
    case Object(ps) =>
      forall k | k in ps ensures ComesBack(cast, ps[k]) {
        JsRoundTrip(cast, ps[k]);
      }
      ObjectComesBack(cast, ps);
    case _ =>
  }

  /** No undefined and no function anywhere. */
  predicate IsData(v: Js) {
    match v
    case Undefined => false
    case Function => false
    case Array(es) => forall i | 0 <= i < |es| :: IsData(es[i])
    case Object(ps) => forall k | k in ps :: IsData(ps[k])
    case _ => true
  }

  /** A value that can be converted comes back unchanged if and only if it holds neither. */
  lemma {:induction false} JsUnchangedIff(v: Js)
    requires Convertible(v)
    ensures Cleaned(v) == v <==> IsData(v)
    decreases v
  {
    match v
    case Array(es) =>
      var cs := Cleaned(v).elements;
      forall i | 0 <= i < |es| ensures cs[i] == es[i] <==> IsData(es[i]) {
        JsUnchangedIff(es[i]);
      }
      assert cs == es <==> forall i | 0 <= i < |es| :: cs[i] == es[i];
    case Object(ps) =>
      var cs := Cleaned(v).properties;
      forall k | k in ps ensures (k in cs && cs[k] == ps[k]) <==> IsData(ps[k]) {
        if !ps[k].Function? {
          JsUnchangedIff(ps[k]);
        }
      }
      assert cs == ps <==> forall k | k in ps :: k in cs && cs[k] == ps[k];
    case _ =>
  }

  // ---------------------------------------------------------------- the code

  method ValueFromDynamic(cast: Cast, d: Dyn) returns (v: Js)
    ensures v == FromDynamic(cast, d)
    decreases d
  {
    match d {
      case NullT => v := Null;
      case BoolT(b) => v := Boolean(b);
      case Int64(i) => v := Number(cast(i));
      case Double(x) => v := Number(x);
      case StringT(s) => v := String(s);
      case ArrayT(es) =>
        var ret := seq(|es|, _ => Undefined);
        var i := 0;
        while i < |es|
          invariant 0 <= i <= |es| && |ret| == |es|
          invariant forall j | 0 <= j < i :: ret[j] == FromDynamic(cast, es[j])
        {
          var value := ValueFromDynamic(cast, es[i]);
          ret := ret[i := value];
          i := i + 1;
        }
        assert ret == FromDynamic(cast, d).elements;
        v := Array(ret);
      case ObjectT(items) =>
        var ret: map<string, Js> := map[];
        var left := items.Keys;
        while left != {}
          invariant left <= items.Keys && ret.Keys == items.Keys - left
          invariant forall k | k in ret :: ret[k] == FromDynamic(cast, items[k])
          decreases left
        {
          var k :| k in left;
          var value := ValueFromDynamic(cast, items[k]);
          ret := ret[k := value];
          left := left - {k};
        }
        assert ret == FromDynamic(cast, d).properties;
        v := Object(ret);
    }
  }

  method DynamicFromValue(v: Js) returns (r: Option<Dyn>)
    ensures r == ToDynamic(v)
    decreases v
  {
    match v {
      case Undefined => r := Some(NullT);
      case Null => r := Some(NullT);
      case Boolean(b) => r := Some(BoolT(b));
      case Number(x) => r := Some(Double(x));
      case String(s) => r := Some(StringT(s));
      case Function => r := None;
      case Array(es) =>
        var ret: seq<Dyn> := [];
        var i := 0;
        while i < |es|
          invariant 0 <= i <= |es| && |ret| == i
          invariant forall j | 0 <= j < i :: ToDynamic(es[j]) == Some(ret[j])
        {
          var one := DynamicFromValue(es[i]);
          if one.None? {
            return None;
          }
          ret := ret + [one.value];
          i := i + 1;
        }
        assert ret == ToDynamic(v).value.elements;
        r := Some(ArrayT(ret));
      case Object(ps) =>
        r := ObjectFromValue(v);
    }
  }

  method ObjectFromValue(v: Js) returns (r: Option<Dyn>)
    requires v.Object?
    ensures r == ToDynamic(v)
    decreases v, 0
  {
    var ps := v.properties;
    var ret: map<string, Dyn> := map[];
    var left := ps.Keys;
    while left != {}
      invariant left <= ps.Keys
      invariant ret.Keys == set k | k in ps.Keys - left && !ps[k].Undefined?
      invariant forall k | k in ps.Keys - left && !ps[k].Function? :: ToDynamic(ps[k]).Some?
      invariant forall k | k in ret :: ret[k] == if ps[k].Function? then NullT else ToDynamic(ps[k]).value
      decreases left
    {
      var name :| name in left;
      var prop := ps[name];
      left := left - {name};
      if prop.Undefined? {
        continue;
      }
      if prop.Function? {
        prop := Null;
      }
      var one;
      // the conversion of null, without a call
      if prop == Null {
        one := Some(NullT);
      } else {
        one := DynamicFromValue(prop);
      }
      if one.None? {
        return None;
      }
      ret := ret[name := one.value];
    }
    assert ret == ToDynamic(v).value.items;
    r := Some(ObjectT(ret));
  }
}
