/** The fragment of JavaScript values and operators that the generator's
    record projectors rely on: ToBoolean (section 7.1.2 of ECMA-262), the
    `||` and `&&` operators (section 13.13 of ECMA-262), property reads,
    ordinary objects as ordered property lists, object-literal construction
    with spread, and `Object.values`. */
module JsValues {

  /** A JavaScript value. Numbers are kept as exact reals plus a separate NaN;
      no arithmetic is ever done on them, only truthiness and identity. An
      object is the list of its own enumerable properties in the order in
      which JavaScript enumerates them; an `Obj` whose list repeats a key
      stands for no JavaScript value. */
  datatype JsVal =
    | Undefined
    | Null
    | Bool(b: bool)
    | Num(n: real)
    | NaN
    | Str(s: string)
    | Arr(elems: seq<JsVal>)
    | Obj(props: seq<Prop>)

  datatype Prop = Prop(key: string, value: JsVal)

  /** The one error the modelled code can raise: reading a property of, or
      converting to an object, `undefined` or `null`. */
  datatype Error = TypeError

  datatype Result<T> = Ok(value: T) | Err(error: Error)

  /** ToBoolean: false exactly for undefined, null, false, +0/-0, NaN and "". */
  predicate Truthy(v: JsVal) {
    match v
    case Undefined => false
    case Null => false
    case Bool(b) => b
    case Num(n) => n != 0.0
    case NaN => false
    case Str(s) => |s| > 0
    case Arr(_) => true
    case Obj(_) => true
  }

  predicate Nullish(v: JsVal) {
    v.Undefined? || v.Null?
  }

  /** `a || b`: the left operand if it is truthy, else the right one. */
  function Or(a: JsVal, b: JsVal): (r: JsVal)
    ensures r == a || r == b
    ensures Truthy(r) <==> Truthy(a) || Truthy(b)
    ensures Truthy(a) ==> r == a
    ensures !Truthy(a) ==> r == b
  {
    if Truthy(a) then a else b
  }

  /** `a && b`: the left operand if it is falsy, else the right one. */
  function And(a: JsVal, b: JsVal): (r: JsVal)
    ensures r == a || r == b
    ensures Truthy(r) <==> Truthy(a) && Truthy(b)
    ensures !Truthy(a) ==> r == a
    ensures Truthy(a) ==> r == b
  {
    if Truthy(a) then b else a
  }

  /** The keys of a property list, in order. */
  function Keys(ps: seq<Prop>): (ks: seq<string>)
    ensures |ks| == |ps|
  {
    seq(|ps|, i requires 0 <= i < |ps| => ps[i].key)
  }

  lemma KeysAppend(ps: seq<Prop>, qs: seq<Prop>)
    ensures Keys(ps + qs) == Keys(ps) + Keys(qs)
    ensures |ps| == 1 ==> Keys(ps) == [ps[0].key]
  {
  }

  /** A list whose properties carry the given keys, one by one, has those keys. */
  lemma KeysPointwise(ps: seq<Prop>, ks: seq<string>)
    requires |ps| == |ks|
    requires forall i | 0 <= i < |ps| :: ps[i].key == ks[i]
    ensures Keys(ps) == ks
  {
  }

  /** The value stored under `k` (the first property with that key), or
      undefined when `k` is not an own key. */
  function Lookup(ps: seq<Prop>, k: string): JsVal {
    if ps == [] then Undefined
    else if ps[0].key == k then ps[0].value
    else Lookup(ps[1..], k)
  }

  /** A key that is not present reads as undefined. */
  lemma {:induction false} LookupAbsent(ps: seq<Prop>, k: string)
    requires k !in Keys(ps)
    ensures Lookup(ps, k) == Undefined
  {
    if ps != [] {
      assert ps == [ps[0]] + ps[1..];
      KeysAppend([ps[0]], ps[1..]);
      LookupAbsent(ps[1..], k);
    }
  }

  /** Defining an own property (CreateDataProperty): an existing key keeps
      its position and takes the new value; a new key goes at the end. */
  function Put(ps: seq<Prop>, k: string, v: JsVal): (r: seq<Prop>)
    ensures Keys(r) == if k in Keys(ps) then Keys(ps) else Keys(ps) + [k]
    ensures k !in Keys(ps) ==> r == ps + [Prop(k, v)]
  {
    if ps == [] then [Prop(k, v)]
    else
      var head := ps[0];
      var tail := ps[1..];
      assert ps == [head] + tail;
      KeysAppend([head], tail);
      if head.key == k then
        KeysAppend([Prop(k, v)], tail);
        [Prop(k, v)] + tail
      else
        var rest := Put(tail, k, v);
        KeysAppend([head], rest);
        KeysAppend(tail, [Prop(k, v)]);
        [head] + rest
  }

  /** Copying the properties of `more`, in order, onto `ps`: the evaluation
      of an object literal's property definitions and of a spread. When no
      key repeats, the properties simply follow one another. */
  function PutAll(ps: seq<Prop>, more: seq<Prop>): (r: seq<Prop>)
    ensures Keys(ps) <= Keys(r)
    ensures Distinct(Keys(ps) + Keys(more)) ==> r == ps + more
    decreases |more|
  {
    if more == [] then
      assert ps + more == ps;
      ps
    else
      var p := more[0];
      PutAllStep(ps, more);
      PutAll(Put(ps, p.key, p.value), more[1..])
  }

  /** One step of PutAll: with distinct keys the first property is appended
      and the keys stay distinct. */
  lemma PutAllStep(ps: seq<Prop>, more: seq<Prop>)
    requires more != []
    ensures Distinct(Keys(ps) + Keys(more)) ==>
              var q := Put(ps, more[0].key, more[0].value);
              Distinct(Keys(q) + Keys(more[1..])) && q + more[1..] == ps + more
  {
    if Distinct(Keys(ps) + Keys(more)) {
      var p := more[0];
      assert more == [p] + more[1..];
      KeysAppend([p], more[1..]);
      assert p.key !in Keys(ps) by {
        DistinctHeadNew(Keys(ps), Keys(more));
      }
      KeysAppend(ps, [p]);
      assert Keys(ps + [p]) + Keys(more[1..]) == Keys(ps) + Keys(more);
      assert (ps + [p]) + more[1..] == ps + more;
    }
  }

  /** In a distinct concatenation, the first element of the second part does
      not occur in the first part. */
  lemma DistinctHeadNew<T>(xs: seq<T>, ys: seq<T>)
    requires ys != [] && Distinct(xs + ys)
    ensures ys[0] !in xs
  {
    forall i | 0 <= i < |xs| ensures xs[i] != ys[0] {
      assert (xs + ys)[i] == xs[i] && (xs + ys)[|xs|] == ys[0];
    }
  }

  /** No element occurs twice. */
  predicate Distinct<T(==)>(xs: seq<T>) {
    forall i, j | 0 <= i < j < |xs| :: xs[i] != xs[j]
  }

  /** A sequence is distinct when no element occurs among those before it. */
  lemma DistinctIfEachNew<T>(xs: seq<T>)
    requires forall j | 0 <= j < |xs| :: xs[j] !in xs[..j]
    ensures Distinct(xs)
  {
    forall i, j | 0 <= i < j < |xs| ensures xs[i] != xs[j] {
      assert xs[i] == xs[..j][i];
    }
  }

  /** The spread element `...src` of an object literal. Besides objects, only
      falsy values reach a spread in the modelled code, and a falsy value
      has no own enumerable properties. */
  function Spread(ps: seq<Prop>, src: JsVal): (r: seq<Prop>)
    requires src.Obj? || !Truthy(src)
    ensures !src.Obj? ==> r == ps
    ensures Keys(ps) <= Keys(r)
    ensures src.Obj? && Distinct(Keys(ps) + Keys(src.props)) ==> r == ps + src.props
  {
    if src.Obj? then PutAll(ps, src.props) else ps
  }

  /** The idiom `...(v && { k: v })`: the property `k` is added with value
      `v` exactly when `v` is truthy. */
  function SpreadIfTruthy(ps: seq<Prop>, k: string, v: JsVal): (r: seq<Prop>)
    requires k !in Keys(ps)
    ensures r == ps + OptionalProp(k, v)
    ensures Keys(r) == Keys(ps) + OptionalKey(k, v)
  {
    var r := Spread(ps, And(v, Obj([Prop(k, v)])));
    if Truthy(v) then
      assert r == Put(ps, k, v) by {
        var one := [Prop(k, v)];
        assert And(v, Obj(one)) == Obj(one);
        assert one[1..] == [];
        assert PutAll(ps, one) == PutAll(Put(ps, k, v), []);
      }
      r
    else
      r
  }

  /** The keys that `...(v && { k: v })` contributes. */
  function OptionalKey(k: string, v: JsVal): seq<string> {
    if Truthy(v) then [k] else []
  }

  /** The properties that `...(v && { k: v })` contributes. */
  function OptionalProp(k: string, v: JsVal): seq<Prop> {
    if Truthy(v) then [Prop(k, v)] else []
  }

  /** Reading `v.k` where `v` is known not to be nullish. None of the keys the
      generator reads is an own or inherited property of a primitive or an
      array, so such a read yields undefined. */
  function Field(v: JsVal, k: string): JsVal {
    if v.Obj? then Lookup(v.props, k) else Undefined
  }

  /** What a read gives: undefined for a key that is not an own key (or a
      value that is not an object), and otherwise the value of the first
      property carrying the key. */
  lemma FieldReadsFirst(v: JsVal, k: string)
    ensures !v.Obj? || k !in Keys(v.props) ==> Field(v, k) == Undefined
    ensures v.Obj? && k in Keys(v.props) ==>
              exists i | 0 <= i < |v.props| ::
                && v.props[i].key == k && Field(v, k) == v.props[i].value
                && forall j | 0 <= j < i :: v.props[j].key != k
  {
    if v.Obj? {
      if k in Keys(v.props) {
        LookupFound(v.props, k);
      } else {
        LookupAbsent(v.props, k);
      }
    }
  }

  /** A key that is present reads as the value of its first occurrence. */
  lemma {:induction false} LookupFound(ps: seq<Prop>, k: string)
    requires k in Keys(ps)
    ensures exists i | 0 <= i < |ps| ::
              && ps[i].key == k && Lookup(ps, k) == ps[i].value
              && forall j | 0 <= j < i :: ps[j].key != k
  {
    if ps[0].key == k {
      assert ps[0].key == k && Lookup(ps, k) == ps[0].value;
    } else {
      assert Keys(ps) == [ps[0].key] + Keys(ps[1..]);
      LookupFound(ps[1..], k);
      var i :| 0 <= i < |ps[1..]| && ps[1..][i].key == k && Lookup(ps[1..], k) == ps[1..][i].value
               && forall j | 0 <= j < i :: ps[1..][j].key != k;
      assert ps[i + 1].key == k && Lookup(ps, k) == ps[i + 1].value;
      assert forall j | 0 <= j < i + 1 :: ps[j].key != k by {
        forall j | 0 <= j < i + 1 ensures ps[j].key != k {
          if j > 0 {
            assert ps[j] == ps[1..][j - 1];
          }
        }
      }
    }
  }

  /** `Object.values(v)`: throws on undefined and null; an object gives its
      values in property order, an array its elements, a string its
      one-character strings, a number or boolean nothing. */
  function ValuesOf(v: JsVal): (r: Result<seq<JsVal>>)
    ensures r.Err? <==> Nullish(v)
    ensures v.Obj? ==>
              r.Ok? && |r.value| == |v.props| &&
              forall i | 0 <= i < |v.props| :: r.value[i] == v.props[i].value
    ensures v.Arr? ==> r == Ok(v.elems)
    ensures v.Str? ==>
              r.Ok? && |r.value| == |v.s| &&
              forall i | 0 <= i < |v.s| :: r.value[i] == Str([v.s[i]])
  {
    match v
    case Undefined => Err(TypeError)
    case Null => Err(TypeError)
    case Obj(ps) => Ok(seq(|ps|, i requires 0 <= i < |ps| => ps[i].value))
    case Arr(es) => Ok(es)
    case Str(s) => Ok(seq(|s|, i requires 0 <= i < |s| => Str([s[i]])))
    case _ => Ok([])
  }

  /** After a Put, the key reads as the new value and every other key reads
      as before. */
  lemma {:induction false} PutLookup(ps: seq<Prop>, k: string, v: JsVal, k': string)
    ensures Lookup(Put(ps, k, v), k) == v
    ensures k' != k ==> Lookup(Put(ps, k, v), k') == Lookup(ps, k')
  {
    if ps != [] && ps[0].key != k {
      PutLookup(ps[1..], k, v, k');
    }
  }

  /** A read of a concatenation finds the first list's value if the key is
      there, and otherwise reads the second list. */
  lemma {:induction false} LookupAppend(ps: seq<Prop>, qs: seq<Prop>, k: string)
    ensures Lookup(ps + qs, k) == if k in Keys(ps) then Lookup(ps, k) else Lookup(qs, k)
  {
    if ps == [] {
      assert ps + qs == qs;
    } else {
      assert (ps + qs)[1..] == ps[1..] + qs;
      assert Keys(ps) == [ps[0].key] + Keys(ps[1..]);
      LookupAppend(ps[1..], qs, k);
    }
  }

  /** A read finds the first property with the key: a key that no earlier
      property has reads as the value stored beside it. */
  lemma {:induction false} LookupFirst(ps: seq<Prop>, i: nat)
    requires i < |ps|
    requires forall j | 0 <= j < i :: ps[j].key != ps[i].key
    ensures Lookup(ps, ps[i].key) == ps[i].value
  {
    if i > 0 {
      LookupFirst(ps[1..], i - 1);
    }
  }

  /** In a list without repeated keys, every property is read back. */
  lemma LookupDistinct(ps: seq<Prop>, i: nat)
    requires i < |ps|
    requires Distinct(Keys(ps))
    ensures Lookup(ps, ps[i].key) == ps[i].value
  {
    forall j | 0 <= j < i ensures ps[j].key != ps[i].key {
      assert Keys(ps)[j] == ps[j].key && Keys(ps)[i] == ps[i].key;
    }
    LookupFirst(ps, i);
  }

  /** After `...(v && { k: v })`, every other key is present and reads
      exactly as before. */
  lemma OptionalOtherKey(ps: seq<Prop>, k: string, v: JsVal, k': string)
    requires k' != k
    ensures k' in Keys(ps + OptionalProp(k, v)) <==> k' in Keys(ps)
    ensures Lookup(ps + OptionalProp(k, v), k') == Lookup(ps, k')
  {
    KeysAppend(ps, OptionalProp(k, v));
    LookupAppend(ps, OptionalProp(k, v), k');
    if k' !in Keys(ps) {
      LookupAbsent(ps, k');
    }
  }

  /** After `...(v && { k: v })` with `k` new, `k` is present exactly when
      `v` is truthy, and then reads as `v`. */
  lemma OptionalOwnKey(ps: seq<Prop>, k: string, v: JsVal)
    requires k !in Keys(ps)
    ensures k in Keys(ps + OptionalProp(k, v)) <==> Truthy(v)
    ensures Lookup(ps + OptionalProp(k, v), k) == if Truthy(v) then v else Undefined
  {
    KeysAppend(ps, OptionalProp(k, v));
    LookupAppend(ps, OptionalProp(k, v), k);
    if Truthy(v) {
      assert Keys(ps + OptionalProp(k, v))[|ps|] == k;
    }
  }

  /** Appending a key that is not yet present keeps keys distinct. */
  lemma DistinctAppend(ks: seq<string>, k: string)
    requires Distinct(ks) && k !in ks
    ensures Distinct(ks + [k])
  {
  }

  /** Adding an optional key that is not yet present keeps keys distinct. */
  lemma DistinctWithOptional(ks: seq<string>, k: string, v: JsVal)
    requires Distinct(ks) && k !in ks
    ensures Distinct(ks + OptionalKey(k, v))
  {
    if Truthy(v) {
      DistinctAppend(ks, k);
    } else {
      assert ks + OptionalKey(k, v) == ks;
    }
  }

  /** Putting a property never duplicates a key. */
  lemma {:induction false} PutKeepsKeysDistinct(ps: seq<Prop>, k: string, v: JsVal)
    requires Distinct(Keys(ps))
    ensures Distinct(Keys(Put(ps, k, v)))
  {
    if k !in Keys(ps) {
      var ks := Keys(ps) + [k];
      forall i, j | 0 <= i < j < |ks| ensures ks[i] != ks[j] {
        if j < |ps| {
          assert ks[i] == Keys(ps)[i] && ks[j] == Keys(ps)[j];
        } else {
          assert ks[i] == Keys(ps)[i] && ks[j] == k;
        }
      }
    }
  }
}
