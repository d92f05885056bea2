/** Already-parsed JSON data as the extension's JavaScript sees it, with the
    parts of the language's semantics the template code relies on:
    truthiness, property reads and writes, `Array.isArray`,
    `Number.isFinite`, `String(v)` and the `SameValueZero` equality used by
    `Set`. */
module JsValue {
  import opened Text

  /** A JavaScript value. Numbers are integers (fractional numbers are not
      modelled), `NaN` and the infinities are kept apart because
      `Number.isFinite` and truthiness treat them specially. An object keeps
      its own properties in insertion order. */
  datatype Value =
    | Undefined
    | Null
    | Bool(b: bool)
    | Num(n: int)
    | NaN
    | Infinity(negative: bool)
    | Str(s: string)
    | Arr(items: seq<Value>)
    | Obj(props: seq<(string, Value)>)

  /** `Boolean(v)`: false exactly for undefined, null, false, 0, NaN and "". */
  predicate Truthy(v: Value) {
    match v
    case Undefined => false
    case Null => false
    case NaN => false
    case Bool(b) => b
    case Num(n) => n != 0
    case Str(s) => s != ""
    case _ => true
  }

  predicate IsArray(v: Value) {
    v.Arr?
  }

  /** `Number.isFinite(v)`. */
  predicate IsFinite(v: Value) {
    v.Num?
  }

  /** Property lookup in an ordered property list. */
  function Lookup(props: seq<(string, Value)>, key: string): Value
  {
    if props == [] then Undefined
    else if props[0].0 == key then props[0].1
    else Lookup(props[1..], key)
  }

  predicate HasKey(props: seq<(string, Value)>, key: string) {
    exists i :: 0 <= i < |props| && props[i].0 == key
  }

  /** The value under the first occurrence of `key`. */
  lemma {:induction false} LookupFirst(props: seq<(string, Value)>, key: string, i: nat)
    requires i < |props| && props[i].0 == key
    requires forall j :: 0 <= j < i ==> props[j].0 != key
    ensures Lookup(props, key) == props[i].1
  {
    if i > 0 {
      LookupFirst(props[1..], key, i - 1);
    }
  }

  /** `v.key` for an own data property. Reading a property of a primitive, an
      array or a missing key yields `undefined`. */
  function Get(v: Value, key: string): Value
  {
    if v.Obj? then Lookup(v.props, key) else Undefined
  }

  /** Assignment of an own property: an existing key keeps its place, a new
      key goes last. */
  function SetProp(props: seq<(string, Value)>, key: string, x: Value): (r: seq<(string, Value)>)
    ensures Lookup(r, key) == x
    ensures forall k :: k != key ==> Lookup(r, k) == Lookup(props, k)
  {
    if props == [] then [(key, x)]
    else if props[0].0 == key then [(key, x)] + props[1..]
    else [props[0]] + SetProp(props[1..], key, x)
  }

  /** The keys keep their places: an existing key is overwritten where it
      stands, a new one is appended. */
  lemma {:induction false} SetPropShape(props: seq<(string, Value)>, key: string, x: Value)
    ensures var r := SetProp(props, key, x);
            |r| >= |props| &&
            (forall i :: 0 <= i < |props| ==> r[i].0 == props[i].0) &&
            (HasKey(props, key) ==> |r| == |props|) &&
            (!HasKey(props, key) ==> r == props + [(key, x)])
  {
    if props != [] && props[0].0 != key {
      var rest := SetProp(props[1..], key, x);
      SetPropShape(props[1..], key, x);
      HasKeyTail(props, key);
      assert SetProp(props, key, x) == [props[0]] + rest;
      if !HasKey(props, key) {
        assert [props[0]] + (props[1..] + [(key, x)]) == props + [(key, x)];
      }
    }
  }

  /** A key other than the first one's is in the list exactly when it is in
      the tail. */
  lemma HasKeyTail(props: seq<(string, Value)>, key: string)
    requires props != [] && props[0].0 != key
    ensures HasKey(props, key) <==> HasKey(props[1..], key)
  {
    if HasKey(props[1..], key) {
      var i :| 0 <= i < |props[1..]| && props[1..][i].0 == key;
      assert props[i + 1].0 == key;
    }
    if HasKey(props, key) {
      var i :| 0 <= i < |props| && props[i].0 == key;
      assert props[1..][i - 1].0 == key;
    }
  }

  /** `v.key = x`; only objects take properties in this model. */
  function Set(v: Value, key: string, x: Value): Value
  {
    if v.Obj? then Obj(SetProp(v.props, key, x)) else v
  }

  /** `delete v.key`. */
  function RemoveKey(props: seq<(string, Value)>, key: string): (r: seq<(string, Value)>)
    ensures Lookup(r, key) == Undefined
    ensures forall k :: k != key ==> Lookup(r, k) == Lookup(props, k)
    ensures |r| <= |props|
  {
    if props == [] then []
    else if props[0].0 == key then RemoveKey(props[1..], key)
    else [props[0]] + RemoveKey(props[1..], key)
  }

  function Delete(v: Value, key: string): Value
  {
    if v.Obj? then Obj(RemoveKey(v.props, key)) else v
  }

  /** Rewriting a property to the value it already has changes nothing. */
  lemma {:induction false} SetPropSame(props: seq<(string, Value)>, key: string)
    requires HasKey(props, key)
    ensures SetProp(props, key, Lookup(props, key)) == props
  {
    if props[0].0 != key {
      assert HasKey(props[1..], key) by {
        var i :| 0 <= i < |props| && props[i].0 == key;
        assert props[1..][i - 1].0 == key;
      }
      SetPropSame(props[1..], key);
    }
  }

  /** Keys present after a write: the old ones and the written one. */
  lemma SetPropHasKey(props: seq<(string, Value)>, key: string, x: Value, k: string)
    ensures HasKey(SetProp(props, key, x), k) <==> (k == key || HasKey(props, k))
  {
    var r := SetProp(props, key, x);
    SetPropShape(props, key, x);
    if HasKey(props, key) {
      if HasKey(r, key) {}
      assert HasKey(r, k) ==> HasKey(props, k) by {
        if HasKey(r, k) {
          var i :| 0 <= i < |r| && r[i].0 == k;
          assert props[i].0 == k;
        }
      }
      assert HasKey(props, k) ==> HasKey(r, k) by {
        if HasKey(props, k) {
          var i :| 0 <= i < |props| && props[i].0 == k;
          assert r[i].0 == k;
        }
      }
    } else {
      assert r[|props|].0 == key;
      assert HasKey(props, k) ==> HasKey(r, k) by {
        if HasKey(props, k) {
          var i :| 0 <= i < |props| && props[i].0 == k;
          assert r[i].0 == k;
        }
      }
    }
  }

  /** A read after a write or a delete on an object. */
  lemma GetSet(v: Value, k: string, x: Value, key: string)
    requires v.Obj?
    ensures Get(Set(v, k, x), key) == if key == k then x else Get(v, key)
  {
  }

  lemma GetDelete(v: Value, k: string, key: string)
    requires v.Obj?
    ensures Get(Delete(v, k), key) == if key == k then Undefined else Get(v, key)
  {
  }

  /** Writing the same value twice is writing it once. */
  lemma SetPropTwice(props: seq<(string, Value)>, key: string, x: Value)
    ensures SetProp(SetProp(props, key, x), key, x) == SetProp(props, key, x)
  {
    SetPropHasKey(props, key, x, key);
    SetPropSame(SetProp(props, key, x), key);
  }

  /** The text an element contributes to `Array.prototype.join`: undefined
      and null contribute nothing. */
  function ElementString(v: Value): (s: string)
    ensures v.Str? ==> s == v.s
  {
    if v.Undefined? || v.Null? then "" else ToString(v)
  }

  /** `String(v)` (also what a template literal and `Array.prototype.join`
      use); `join` writes undefined and null elements as "". */
  function ToString(v: Value): string
    decreases v, 1, 0
  {
    match v
    case Undefined => "undefined"
    case Null => "null"
    case Bool(b) => if b then "true" else "false"
    case Num(n) => IntToString(n)
    case NaN => "NaN"
    case Infinity(neg) => if neg then "-Infinity" else "Infinity"
    case Str(s) => s
    case Arr(items) => JoinItems(items, 0)
    case Obj(_) => "[object Object]"
  }

  /** `items.slice(i).join(",")`. */
  function JoinItems(items: seq<Value>, i: nat): string
    requires i <= |items|
    decreases Arr(items), 0, |items| - i
  {
    if i == |items| then ""
    else
      var first := if items[i].Undefined? || items[i].Null? then "" else ToString(items[i]);
      if i + 1 == |items| then first else first + "," + JoinItems(items, i + 1)
  }

  /** `text || ""` handed to a string operation: falsy becomes "", anything
      else is converted with `String`. */
  function TextOrEmpty(v: Value): (s: string)
    ensures !Truthy(v) ==> s == ""
    ensures v.Str? ==> s == v.s
  {
    if Truthy(v) then ToString(v) else ""
  }

  predicate IsPrimitive(v: Value) {
    !v.Arr? && !v.Obj?
  }

  /** `SameValueZero`, the equality of `Set` and `Set.prototype.has`. Numbers
      here have no -0 or fractions, so primitives are equal exactly when they
      are the same value; every array or object is its own reference and
      equals no other element of parsed data. */
  predicate SameValueZero(a: Value, b: Value) {
    IsPrimitive(a) && a == b
  }

  /** `set.has(v)` for a `Set` held as its insertion-ordered elements. */
  predicate SetHas(elems: seq<Value>, v: Value) {
    exists i :: 0 <= i < |elems| && SameValueZero(elems[i], v)
  }

  /** The elements of `new Set(xs)`, in insertion order. */
  function SetOf(xs: seq<Value>): (r: seq<Value>)
  {
    if xs == [] then []
    else
      var r := SetOf(xs[..|xs| - 1]);
      if SetHas(r, xs[|xs| - 1]) then r else r + [xs[|xs| - 1]]
  }

  predicate SetDistinct(elems: seq<Value>) {
    forall i, j :: 0 <= i < j < |elems| ==> !SameValueZero(elems[i], elems[j])
  }

  /** A `Set` built from `xs` holds every element of `xs`, nothing else, and
      no two equal elements; building it from `a + b` starts with the set of
      `a`. */
  lemma {:induction false} SetOfSpec(xs: seq<Value>)
    ensures forall x :: x in SetOf(xs) <==> x in xs
    ensures SetDistinct(SetOf(xs))
  {
    if xs != [] {
      var init := xs[..|xs| - 1];
      assert xs == init + [xs[|xs| - 1]];
      SetOfSpec(init);
    }
  }

  lemma {:induction false} SetOfPrefix(a: seq<Value>, b: seq<Value>)
    ensures |SetOf(a)| <= |SetOf(a + b)|
    ensures SetOf(a + b)[..|SetOf(a)|] == SetOf(a)
  {
    if b == [] {
      assert a + b == a;
    } else {
      var b' := b[..|b| - 1];
      assert (a + b)[..|a + b| - 1] == a + b';
      SetOfPrefix(a, b');
    }
  }

  /** Position `p` of `xs` holds the first occurrence of its element: no
      earlier element is SameValueZero-equal to it. */
  predicate FirstOccurrence(xs: seq<Value>, p: nat)
    requires p < |xs|
  {
    forall q :: 0 <= q < p ==> !SameValueZero(xs[q], xs[p])
  }

  /** The positions of `xs` whose elements `SetOf` keeps. */
  function Positions(xs: seq<Value>): seq<nat>
  {
    if xs == [] then []
    else
      var p := Positions(xs[..|xs| - 1]);
      if SetHas(SetOf(xs[..|xs| - 1]), xs[|xs| - 1]) then p else p + [|xs| - 1]
  }

  /** Insertion order: the elements of `new Set(xs)` are the elements of
      `xs` at strictly increasing positions, and a position is kept exactly
      when it holds the first occurrence of its element. */
  lemma {:induction false} SetOfOrder(xs: seq<Value>)
    ensures var pos := Positions(xs);
            |pos| == |SetOf(xs)| &&
            (forall k :: 0 <= k < |pos| ==> pos[k] < |xs| && SetOf(xs)[k] == xs[pos[k]]) &&
            (forall k, l :: 0 <= k < l < |pos| ==> pos[k] < pos[l]) &&
            (forall p :: 0 <= p < |xs| ==> (p in pos <==> FirstOccurrence(xs, p)))
  {
    if xs != [] {
      var init := xs[..|xs| - 1];
      var n := |xs| - 1;
      var pos, elems := Positions(init), SetOf(init);
      SetOfOrder(init);
      SetOfHas(init, xs[n]);
      if SetHas(elems, xs[n]) {
        assert Positions(xs) == pos && SetOf(xs) == elems;
      } else {
        assert Positions(xs) == pos + [n] && SetOf(xs) == elems + [xs[n]];
      }
      forall p | 0 <= p < n
        ensures FirstOccurrence(xs, p) <==> FirstOccurrence(init, p)
      {
        assert forall q :: 0 <= q <= p ==> xs[q] == init[q];
      }
      assert FirstOccurrence(xs, n) <==> !SetHas(init, xs[n]) by {
        if !FirstOccurrence(xs, n) {
          var q :| 0 <= q < n && SameValueZero(xs[q], xs[n]);
          assert SameValueZero(init[q], xs[n]);
        }
        if SetHas(init, xs[n]) {
          var q :| 0 <= q < n && SameValueZero(init[q], xs[n]);
          assert SameValueZero(xs[q], xs[n]);
        }
      }
    }
  }

  /** Set membership is SameValueZero membership in the elements seen. */
  lemma {:induction false} SetOfHas(xs: seq<Value>, v: Value)
    ensures SetHas(SetOf(xs), v) <==> SetHas(xs, v)
  {
    SetOfSpec(xs);
    if SetHas(xs, v) {
      var i :| 0 <= i < |xs| && SameValueZero(xs[i], v);
      assert xs[i] in SetOf(xs);
      var j :| 0 <= j < |SetOf(xs)| && SetOf(xs)[j] == xs[i];
    }
    if SetHas(SetOf(xs), v) {
      var j :| 0 <= j < |SetOf(xs)| && SameValueZero(SetOf(xs)[j], v);
      assert SetOf(xs)[j] in xs;
    }
  }
}
