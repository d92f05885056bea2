/** The options page of the Thunderbird build
    (thunderbird-template-extension/options/options.js): a JSON text box
    whose content is parsed, checked by a simpler `normalizeTemplates` that
    only makes sure every `fields` is an array, and stored. */
module ThunderbirdOptions {
  import opened Wrappers
  import opened JsValue
  import opened Templates

  /** What handling the template at index `k` throws, if anything. */
  function Check(t: Value, k: nat): Option<NormalizeError>
  {
    if IsNullish(t) then Some(TypeErrorAt(k))
    else if !HasCore(t) then Some(MissingCore(k))
    else None
  }

  /** A template after its turn: `fields` made an array when it was not. */
  function Repair(t: Value): Value
  {
    if Get(t, "fields").Arr? then t else Set(t, "fields", Arr([]))
  }

  /** Index of the first template the loop throws at (`|ts|` when none). */
  function FirstBad(ts: seq<Value>, from: nat): (k: nat)
    requires from <= |ts|
    ensures from <= k <= |ts|
    ensures forall m :: from <= m < k ==> Check(ts[m], m).None?
    ensures k < |ts| ==> Check(ts[k], k).Some?
    decreases |ts| - from
  {
    if from == |ts| then from
    else if Check(ts[from], from).Some? then from
    else FirstBad(ts, from + 1)
  }

  function Outcome(ts: seq<Value>): Option<NormalizeError>
  {
    var k := FirstBad(ts, 0);
    if k < |ts| then Check(ts[k], k) else None
  }

  /** `normalizeTemplates(data)`: the returned array, or the error thrown. */
  function Normalize(data: Value): Result<seq<Value>, NormalizeError>
  {
    if !data.Arr? then Failure(NotAnArray)
    else match Outcome(data.items)
      case Some(e) => Failure(e)
      case None => Success(seq(|data.items|, i requires 0 <= i < |data.items| => Repair(data.items[i])))
  }

  /** The `forEach`, run in place on the array: when it throws at index k,
      the templates before k are already repaired and the rest, the one at k
      included, are untouched. */
  method NormalizeInPlace(a: array<Value>) returns (failure: Option<NormalizeError>)
    modifies a
    ensures failure == Outcome(old(a[..]))
    ensures var k := FirstBad(old(a[..]), 0);
            (forall i :: 0 <= i < k ==> a[i] == Repair(old(a[i]))) &&
            (forall i :: k <= i < a.Length ==> a[i] == old(a[i]))
  {
    ghost var orig := a[..];
    var i := 0;
    while i < a.Length
      invariant 0 <= i <= a.Length == |orig|
      invariant FirstBad(orig, 0) == FirstBad(orig, i)
      invariant forall m :: 0 <= m < i ==> a[m] == Repair(orig[m])
      invariant forall m :: i <= m < a.Length ==> a[m] == orig[m]
    {
      var t := a[i];
      if IsNullish(t) {
        return Some(TypeErrorAt(i));
      }
      if !HasCore(t) {
        return Some(MissingCore(i));
      }
      ghost var before := a[..];
      if !Get(t, "fields").Arr? {
        a[i] := Set(t, "fields", Arr([]));
      }
      assert a[..] == before[i := Repair(t)];
      i := i + 1;
    }
    failure := None;
  }

  /** `normalizeTemplates` on an already-parsed value. */
  method NormalizeTemplates(data: Value) returns (r: Result<seq<Value>, NormalizeError>)
    ensures r == Normalize(data)
  {
    if !data.Arr? {
      return Failure(NotAnArray);
    }
    var items := data.items;
    var a := new Value[|items|](i requires 0 <= i < |items| => items[i]);
    assert a[..] == items;
    var failure := NormalizeInPlace(a);
    if failure.Some? {
      return Failure(failure.value);
    }
    assert FirstBad(items, 0) == |items|;
    assert a[..] == seq(|items|, i requires 0 <= i < |items| => Repair(items[i]));
    return Success(a[..]);
  }

  /** The page refuses a non-array, and otherwise refuses exactly at the
      first template that is null or undefined or lacks a truthy id,
      subject or body, naming its index. */
  lemma NormalizeRejects(data: Value)
    ensures Normalize(data) == Failure(NotAnArray) <==> !data.Arr?
    ensures data.Arr? ==>
              forall k :: 0 <= k < |data.items| ==>
                ((forall m :: 0 <= m < k ==> HasCore(data.items[m])) && !IsNullish(data.items[k]) &&
                 !HasCore(data.items[k])
                 <==> Normalize(data) == Failure(MissingCore(k)))
    ensures data.Arr? ==>
              forall k :: 0 <= k < |data.items| ==>
                ((forall m :: 0 <= m < k ==> HasCore(data.items[m])) && IsNullish(data.items[k])
                 <==> Normalize(data) == Failure(TypeErrorAt(k)))
  {
    if data.Arr? {
      var ts := data.items;
      var bad := FirstBad(ts, 0);
      forall k | 0 <= k < |ts|
        ensures ((forall m :: 0 <= m < k ==> HasCore(ts[m])) && !IsNullish(ts[k]) && !HasCore(ts[k]))
                <==> Normalize(data) == Failure(MissingCore(k))
        ensures ((forall m :: 0 <= m < k ==> HasCore(ts[m])) && IsNullish(ts[k]))
                <==> Normalize(data) == Failure(TypeErrorAt(k))
      {
        if (forall m :: 0 <= m < k ==> HasCore(ts[m])) && (IsNullish(ts[k]) || !HasCore(ts[k])) {
          assert Check(ts[k], k).Some?;
          assert !(bad < k);
        }
        if Normalize(data) == Failure(MissingCore(k)) || Normalize(data) == Failure(TypeErrorAt(k)) {
          assert Check(ts[bad], bad) == Some(Normalize(data).error);
        }
      }
    }
  }

  /** On success the same templates come back in the same order; each has
      an array `fields`, a template whose `fields` was already an array is
      returned as it was, and only `fields` ever changes. */
  lemma NormalizeRepairs(data: Value)
    requires Normalize(data).Success?
    ensures data.Arr? && |Normalize(data).value| == |data.items|
    ensures forall i :: 0 <= i < |data.items| ==>
              HasCore(Normalize(data).value[i]) && Get(Normalize(data).value[i], "fields").Arr?
    ensures forall i :: 0 <= i < |data.items| && Get(data.items[i], "fields").Arr? ==>
              Normalize(data).value[i] == data.items[i]
    ensures forall i :: 0 <= i < |data.items| && !Get(data.items[i], "fields").Arr? ==>
              FieldsOf(Normalize(data).value[i]) == []
    ensures forall i, key :: 0 <= i < |data.items| && key != "fields" ==>
              Get(Normalize(data).value[i], key) == Get(data.items[i], key)
  {
    var ts := data.items;
    var r := Normalize(data).value;
    assert FirstBad(ts, 0) == |ts|;
    forall i | 0 <= i < |ts|
      ensures HasCore(r[i]) && Get(r[i], "fields").Arr?
      ensures Get(ts[i], "fields").Arr? ==> r[i] == ts[i]
      ensures !Get(ts[i], "fields").Arr? ==> FieldsOf(r[i]) == []
      ensures forall key :: key != "fields" ==> Get(r[i], key) == Get(ts[i], key)
    {
      assert Check(ts[i], i).None?;
      RepairSpec(ts[i], i);
    }
  }

  /** A template that passes the check keeps every property, `fields`
      becoming `[]` when it was not an array. */
  lemma RepairSpec(t: Value, k: nat)
    requires Check(t, k).None?
    ensures HasCore(Repair(t)) && Get(Repair(t), "fields").Arr?
    ensures Get(t, "fields").Arr? ==> Repair(t) == t
    ensures !Get(t, "fields").Arr? ==> FieldsOf(Repair(t)) == []
    ensures forall key :: key != "fields" ==> Get(Repair(t), key) == Get(t, key)
  {
    assert t.Obj?;
  }

  /** Normalizing the output of a successful normalization changes nothing. */
  lemma NormalizeIdempotent(data: Value)
    requires Normalize(data).Success?
    ensures Normalize(Arr(Normalize(data).value)) == Normalize(data)
  {
    var ts := data.items;
    var r := Normalize(data).value;
    NormalizeRepairs(data);
    assert FirstBad(ts, 0) == |ts|;
    forall i | 0 <= i < |r| ensures Check(r[i], i).None? && Repair(r[i]) == r[i] {
      assert Check(ts[i], i).None?;
    }
    assert FirstBad(r, 0) == |r|;
    assert seq(|r|, i requires 0 <= i < |r| => Repair(r[i])) == r;
  }

  /** `saveTemplates`, given the result of `JSON.parse` on the text box and
      the outcome of the storage write: the collection is stored only after
      it has been parsed and normalized. */
  method SaveTemplates(store: TemplateStore, parsed: Result<Value, string>, writeError: Option<string>)
    returns (status: Status)
    modifies store
    ensures var ok := parsed.Success? && Normalize(parsed.value).Success?;
            if ok && writeError.None? then
              store.templates == Some(Normalize(parsed.value).value) &&
              status == Status("Templates saved.", false)
            else
              store.templates == old(store.templates) && status.isError
    ensures parsed.Success? && Normalize(parsed.value).Failure? ==>
              status == FailureStatus(Normalize(parsed.value).error, "Failed to save templates.")
  {
    if parsed.Failure? {
      return MessageStatus(parsed.error, "Failed to save templates.");
    }
    var r := NormalizeTemplates(parsed.value);
    if r.Failure? {
      return FailureStatus(r.error, "Failed to save templates.");
    }
    if writeError.Some? {
      return MessageStatus(writeError.value, "Failed to save templates.");
    }
    store.templates := Some(r.value);
    status := Status("Templates saved.", false);
  }
}
