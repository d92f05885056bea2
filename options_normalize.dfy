/** Validation and repair of a template collection on the options page
    (options/options.js, `normalizeTemplates`). It walks the array in place:
    it throws at the first template without id, subject or body, replaces a
    non-array `fields` by `[]`, and gives a select field that has dynamic
    options but a falsy `options` the list `[]`. */
module OptionsNormalize {
  import opened Text
  import opened Wrappers
  import opened JsValue
  import opened Templates

  /** The repair of one field inside the inner `forEach`. */
  function RepairField(f: Value): Value
  {
    if Get(f, "type") == Str("select") && Truthy(Get(f, "optionsDynamic")) &&
       !IsArray(Get(f, "options")) && !Truthy(Get(f, "options"))
    then Set(f, "options", Arr([]))
    else f
  }

  /** Index of the first null or undefined field (`|fs|` when there is none);
      reading `field.type` of it throws. */
  function FirstNullish(fs: seq<Value>): (k: nat)
    ensures k <= |fs|
    ensures forall m :: 0 <= m < k ==> !IsNullish(fs[m])
    ensures k < |fs| ==> IsNullish(fs[k])
  {
    if fs == [] then 0
    else if IsNullish(fs[0]) then 0
    else 1 + FirstNullish(fs[1..])
  }

  /** The fields after the inner `forEach` has repaired the first `j` of them. */
  function RepairPrefix(fs: seq<Value>, j: nat): (r: seq<Value>)
    ensures |r| == |fs|
  {
    seq(|fs|, i requires 0 <= i < |fs| => if i < j then RepairField(fs[i]) else fs[i])
  }

  /** A template once its `fields` is an array and the inner loop has run
      (up to the first null field, where it throws). */
  function RepairTemplate(t: Value): Value
  {
    var fs := FieldsOf(t);
    Set(t, "fields", Arr(RepairPrefix(fs, FirstNullish(fs))))
  }

  /** What handling the template at index `k` throws, if anything. */
  function CheckTemplate(t: Value, k: nat): Option<NormalizeError>
  {
    if IsNullish(t) then Some(TypeErrorAt(k))
    else if !HasCore(t) then Some(MissingCore(k))
    else if FirstNullish(FieldsOf(t)) < |FieldsOf(t)| then Some(TypeErrorAt(k))
    else None
  }

  /** The state a template is left in by its turn of the outer loop: untouched
      when it is rejected before any write, repaired otherwise. */
  function StepTemplate(t: Value): Value
  {
    if IsNullish(t) || !HasCore(t) then t else RepairTemplate(t)
  }

  /** Index of the first template that makes the loop throw (`|ts|` when none). */
  function FirstBad(ts: seq<Value>, from: nat): (k: nat)
    requires from <= |ts|
    ensures from <= k <= |ts|
    ensures forall m :: from <= m < k ==> CheckTemplate(ts[m], m).None?
    ensures k < |ts| ==> CheckTemplate(ts[k], k).Some?
    decreases |ts| - from
  {
    if from == |ts| then from
    else if CheckTemplate(ts[from], from).Some? then from
    else FirstBad(ts, from + 1)
  }

  /** What the outer loop over `ts` throws, if anything. */
  function Outcome(ts: seq<Value>): Option<NormalizeError>
  {
    var k := FirstBad(ts, 0);
    if k < |ts| then CheckTemplate(ts[k], k) else None
  }

  /** `normalizeTemplates(data)`: the returned array, or the error thrown. */
  function Normalize(data: Value): Result<seq<Value>, NormalizeError>
  {
    if !data.Arr? then Failure(NotAnArray)
    else match Outcome(data.items)
      case Some(e) => Failure(e)
      case None => Success(seq(|data.items|, i requires 0 <= i < |data.items| => RepairTemplate(data.items[i])))
  }

  /** The inner `forEach` over a template's fields: repairs them in order and
      stops at the first null or undefined one, whose `field.type` throws. */
  method RepairFields(fs: seq<Value>) returns (repaired: seq<Value>, stop: nat)
    ensures stop == FirstNullish(fs)
    ensures repaired == RepairPrefix(fs, stop)
  {
    repaired := fs;
    stop := 0;
    while stop < |fs|
      invariant 0 <= stop <= |fs|
      invariant forall m :: 0 <= m < stop ==> !IsNullish(fs[m])
      invariant repaired == RepairPrefix(fs, stop)
    {
      if IsNullish(fs[stop]) {
        return;
      }
      repaired := repaired[stop := RepairField(fs[stop])];
      stop := stop + 1;
    }
  }

  /** One turn of the outer `forEach`: the template as the turn leaves it,
      and what the turn throws. */
  method HandleTemplate(t: Value, k: nat) returns (t': Value, failure: Option<NormalizeError>)
    ensures failure == CheckTemplate(t, k)
    ensures t' == StepTemplate(t)
  {
    t' := t;
    if IsNullish(t) {
      return t, Some(TypeErrorAt(k));
    }
    if !HasCore(t) {
      return t, Some(MissingCore(k));
    }
    var fs := FieldsOf(t);
    var repaired, stop := RepairFields(fs);
    t' := Set(t, "fields", Arr(repaired));
    failure := if stop < |fs| then Some(TypeErrorAt(k)) else None;
  }

  /** The outer `forEach`, run in place on the array. When it throws at index
      k, the templates before k are already repaired, the one at k is as its
      own turn left it, and the rest are untouched. */
  method NormalizeInPlace(a: array<Value>) returns (failure: Option<NormalizeError>)
    modifies a
    ensures failure == Outcome(old(a[..]))
    ensures var k := FirstBad(old(a[..]), 0);
            (forall i :: 0 <= i < a.Length && i <= k ==> a[i] == StepTemplate(old(a[i]))) &&
            (forall i :: k < i < a.Length ==> a[i] == old(a[i]))
  {
    ghost var orig := a[..];
    var i := 0;
    while i < a.Length
      invariant 0 <= i <= a.Length == |orig|
      invariant FirstBad(orig, 0) == FirstBad(orig, i)
      invariant forall m :: 0 <= m < i ==> a[m] == StepTemplate(orig[m])
      invariant forall m :: i <= m < a.Length ==> a[m] == orig[m]
    {
      var t', err := HandleTemplate(a[i], i);
      ghost var before := a[..];
      a[i] := t';
      assert a[..] == before[i := t'];
      if err.Some? {
        assert FirstBad(orig, i) == i;
        return err;
      }
      i := i + 1;
    }
    failure := None;
  }

  /** `normalizeTemplates` on an already-parsed value. */
  method NormalizeTemplates(data: Value) returns (r: Result<seq<Value>, NormalizeError>)
    ensures r == Normalize(data)
  {
    if !data.Arr? {
      return Failure(NotAnArray);
    }
    var items := data.items;
    var a := new Value[|items|](i requires 0 <= i < |items| => items[i]);
    assert a[..] == items;
    var failure := NormalizeInPlace(a);
    if failure.Some? {
      return Failure(failure.value);
    }
    assert FirstBad(items, 0) == |items|;
    forall i | 0 <= i < |items| ensures a[i] == RepairTemplate(items[i]) {
      assert CheckTemplate(items[i], i).None?;
    }
    assert a[..] == seq(|items|, i requires 0 <= i < |items| => RepairTemplate(items[i]));
    return Success(a[..]);
  }

  /** The field repair touches one property: a select field with truthy
      `optionsDynamic` and falsy, non-array `options` gets `options = []`;
      every other property, and every other field, is left as it was. */
  lemma RepairFieldSpec(f: Value)
    ensures forall key :: key != "options" ==> Get(RepairField(f), key) == Get(f, key)
    ensures Get(RepairField(f), "options") ==
              if f.Obj? && Get(f, "type") == Str("select") && Truthy(Get(f, "optionsDynamic")) &&
                 !Truthy(Get(f, "options"))
              then Arr([]) else Get(f, "options")
    ensures IsNullish(RepairField(f)) == IsNullish(f)
  {
  }

  /** `normalizeTemplates` throws "not an array" exactly for a non-array, and
      otherwise at the first template that is null or undefined, lacks a
      truthy id, subject or body, or holds a null field, naming its index. */
  lemma {:induction false} NormalizeRejects(data: Value)
    ensures Normalize(data) == Failure(NotAnArray) <==> !data.Arr?
    ensures data.Arr? ==>
              forall k :: 0 <= k < |data.items| ==>
                ((forall m :: 0 <= m < k ==> CheckTemplate(data.items[m], m).None?) &&
                 !IsNullish(data.items[k]) && !HasCore(data.items[k])
                 <==> Normalize(data) == Failure(MissingCore(k)))
    ensures data.Arr? && Normalize(data).Failure? ==>
              var k := Normalize(data).error.index;
              k < |data.items| &&
              (forall m :: 0 <= m < k ==> HasCore(data.items[m])) &&
              (Normalize(data).error.MissingCore? ==> !HasCore(data.items[k]))
  {
    if data.Arr? {
      var ts := data.items;
      var bad := FirstBad(ts, 0);
      forall k | 0 <= k < |ts|
        ensures ((forall m :: 0 <= m < k ==> CheckTemplate(ts[m], m).None?) &&
                 !IsNullish(ts[k]) && !HasCore(ts[k]))
                <==> Normalize(data) == Failure(MissingCore(k))
      {
        if (forall m :: 0 <= m < k ==> CheckTemplate(ts[m], m).None?) && !IsNullish(ts[k]) && !HasCore(ts[k]) {
          assert CheckTemplate(ts[k], k).Some?;
          assert !(bad < k);
        }
        if Normalize(data) == Failure(MissingCore(k)) {
          assert CheckTemplate(ts[bad], bad) == Some(MissingCore(k));
          assert bad == k;
        }
      }
    }
  }

  /** Setting `fields` leaves every other property alone. */
  lemma SetFieldsKeeps(t: Value, x: Value, key: string)
    requires key != "fields"
    ensures Get(Set(t, "fields", x), key) == Get(t, key)
  {
  }

  /** On success `normalizeTemplates` returns the same templates in the same
      order: each keeps every property but `fields`, which is now an array of
      the same fields, each repaired by RepairField. */
  lemma {:induction false} NormalizeRepairs(data: Value)
    requires Normalize(data).Success?
    ensures data.Arr? && |Normalize(data).value| == |data.items|
    ensures forall i, key :: 0 <= i < |data.items| && key != "fields" ==>
              Get(Normalize(data).value[i], key) == Get(data.items[i], key)
    ensures forall i :: 0 <= i < |data.items| ==>
              HasCore(Normalize(data).value[i]) &&
              Get(Normalize(data).value[i], "fields") ==
                Arr(seq(|FieldsOf(data.items[i])|, j requires 0 <= j < |FieldsOf(data.items[i])| =>
                      RepairField(FieldsOf(data.items[i])[j])))
  {
    var ts := data.items;
    var r := Normalize(data).value;
    assert FirstBad(ts, 0) == |ts|;
    forall i | 0 <= i < |ts|
      ensures forall key :: key != "fields" ==> Get(r[i], key) == Get(ts[i], key)
      ensures HasCore(r[i])
      ensures Get(r[i], "fields") ==
                Arr(seq(|FieldsOf(ts[i])|, j requires 0 <= j < |FieldsOf(ts[i])| => RepairField(FieldsOf(ts[i])[j])))
    {
      assert CheckTemplate(ts[i], i).None?;
      assert r[i] == RepairTemplate(ts[i]);
      RepairTemplateSpec(ts[i], i);
    }
  }

  /** A template that passes the check keeps every property but `fields`,
      which becomes the array of its fields, each repaired. */
  lemma RepairTemplateSpec(t: Value, k: nat)
    requires CheckTemplate(t, k).None?
    ensures forall key :: key != "fields" ==> Get(RepairTemplate(t), key) == Get(t, key)
    ensures HasCore(RepairTemplate(t))
    ensures Get(RepairTemplate(t), "fields") ==
              Arr(seq(|FieldsOf(t)|, j requires 0 <= j < |FieldsOf(t)| => RepairField(FieldsOf(t)[j])))
  {
    var fs := FieldsOf(t);
    assert FirstNullish(fs) == |fs|;
    assert RepairPrefix(fs, |fs|) == seq(|fs|, j requires 0 <= j < |fs| => RepairField(fs[j]));
    forall key | key != "fields" ensures Get(RepairTemplate(t), key) == Get(t, key) {
      SetFieldsKeeps(t, Arr(RepairPrefix(fs, |fs|)), key);
    }
    assert t.Obj?;
  }

  lemma RepairFieldIdempotent(f: Value)
    ensures RepairField(RepairField(f)) == RepairField(f)
  {
  }

  /** A repaired template is repaired again to itself. */
  lemma RepairTemplateIdempotent(t: Value)
    requires CheckTemplate(t, 0).None?
    ensures CheckTemplate(RepairTemplate(t), 0).None?
    ensures RepairTemplate(RepairTemplate(t)) == RepairTemplate(t)
  {
    var fs := FieldsOf(t);
    var fs' := RepairPrefix(fs, |fs|);
    var t' := RepairTemplate(t);
    assert t' == Set(t, "fields", Arr(fs'));
    assert FieldsOf(t') == fs';
    forall m | 0 <= m < |fs'| ensures !IsNullish(fs'[m]) && RepairField(fs'[m]) == fs'[m] {
      RepairFieldIdempotent(fs[m]);
    }
    assert FirstNullish(fs') == |fs'|;
    assert RepairPrefix(fs', |fs'|) == fs';
    SetPropTwice(t.props, "fields", Arr(fs'));
    SetFieldsKeeps(t, Arr(fs'), "id");
    SetFieldsKeeps(t, Arr(fs'), "subject");
    SetFieldsKeeps(t, Arr(fs'), "body");
  }

  /** Normalizing the output of a successful normalization changes nothing. */
  lemma {:induction false} NormalizeIdempotent(data: Value)
    requires Normalize(data).Success?
    ensures Normalize(Arr(Normalize(data).value)) == Normalize(data)
  {
    var ts := data.items;
    var r := Normalize(data).value;
    assert FirstBad(ts, 0) == |ts|;
    forall i | 0 <= i < |r| ensures CheckTemplate(r[i], i).None? && RepairTemplate(r[i]) == r[i] {
      assert CheckTemplate(ts[i], i).None?;
      assert CheckTemplate(ts[i], 0).None?;
      RepairTemplateIdempotent(ts[i]);
    }
    assert FirstBad(r, 0) == |r|;
    assert seq(|r|, i requires 0 <= i < |r| => RepairTemplate(r[i])) == r;
  }

  /** An empty array is a valid, empty collection; a template without a body
      is refused at index 0. */
  lemma NormalizeExamples()
    ensures Normalize(Arr([])) == Success([])
    ensures Normalize(Arr([Obj([("id", Str("x")), ("subject", Str("s"))])])) == Failure(MissingCore(0))
  {
    var none: seq<Value> := [];
    assert FirstBad(none, 0) == 0;
    assert Normalize(Arr(none)).Success?;
    assert |Normalize(Arr(none)).value| == 0;
    var t := Obj([("id", Str("x")), ("subject", Str("s"))]);
    assert Get(t, "body") == Undefined;
    assert CheckTemplate(t, 0) == Some(MissingCore(0));
    assert FirstBad([t], 0) == 0;
  }

  /** Each shipped default template passes the check at any index. */
  lemma IntroChecks(k: nat)
    ensures CheckTemplate(IntroTemplate(), k).None?
  {
    var fs := FieldsOf(IntroTemplate());
    assert forall m :: 0 <= m < |fs| ==> fs[m].Obj?;
  }

  lemma FollowUpChecks(k: nat)
    ensures CheckTemplate(FollowUpTemplate(), k).None?
  {
    var fs := FieldsOf(FollowUpTemplate());
    assert forall m :: 0 <= m < |fs| ==> fs[m].Obj?;
  }

  /** The shipped default collection passes the check. */
  lemma DefaultTemplatesAccepted()
    ensures Normalize(Arr(DefaultTemplates())).Success?
    ensures |Normalize(Arr(DefaultTemplates())).value| == 2
  {
    var ts := DefaultTemplates();
    assert ts[0] == IntroTemplate() && ts[1] == FollowUpTemplate();
    IntroChecks(0);
    FollowUpChecks(1);
    assert FirstBad(ts, 2) == 2;
    assert FirstBad(ts, 1) == 2;
    assert FirstBad(ts, 0) == 2;
    assert Outcome(ts) == None;
  }
}
