/** The warning list the options page shows under the editor
    (options/options.js, `updateWarnings`), lifted out of the DOM code as a
    function from the draft to the ordered list of messages. */
module OptionsWarnings {
  import opened Text
  import opened JsValue
  import opened Templates
  import opened Placeholders

  /** `fields.map((field) => field.id).filter(Boolean)`. */
  function FieldIds(fs: seq<Value>): (ids: seq<Value>)
    ensures forall i :: 0 <= i < |ids| ==> Truthy(ids[i])
  {
    if fs == [] then []
    else (if Truthy(Get(fs[0], "id")) then [Get(fs[0], "id")] else []) + FieldIds(fs[1..])
  }

  /** A truthy id is among the field ids exactly when some field carries it. */
  lemma {:induction false} FieldIdsSpec(fs: seq<Value>, v: Value)
    ensures v in FieldIds(fs) <==> Truthy(v) && exists i :: 0 <= i < |fs| && Get(fs[i], "id") == v
  {
    if fs != [] {
      FieldIdsSpec(fs[1..], v);
      if v in FieldIds(fs[1..]) {
        var i :| 0 <= i < |fs[1..]| && Get(fs[1..][i], "id") == v;
        assert Get(fs[i + 1], "id") == v;
      }
      if Truthy(v) && exists i :: 0 <= i < |fs| && Get(fs[i], "id") == v {
        var i :| 0 <= i < |fs| && Get(fs[i], "id") == v;
        if i > 0 {
          assert Get(fs[1..][i - 1], "id") == v;
        }
      }
    }
  }

  /** The ids the duplicate check reports: each id already in the `unique`
      set when its turn comes. */
  function Repeats(ids: seq<Value>): seq<Value>
  {
    if ids == [] then []
    else
      var init := ids[..|ids| - 1];
      Repeats(init) + (if SetHas(init, ids[|ids| - 1]) then [ids[|ids| - 1]] else [])
  }

  /** Every id is either the first of its kind, kept by the set, or reported
      once as a duplicate. */
  lemma {:induction false} RepeatsCount(ids: seq<Value>)
    ensures |Repeats(ids)| + |SetOf(ids)| == |ids|
  {
    if ids != [] {
      var init := ids[..|ids| - 1];
      RepeatsCount(init);
      SetOfHas(init, ids[|ids| - 1]);
    }
  }

  /** No duplicate is reported exactly when no two ids are equal. */
  lemma {:induction false} RepeatsEmpty(ids: seq<Value>)
    ensures Repeats(ids) == [] <==> SetDistinct(ids)
  {
    if ids != [] {
      var init := ids[..|ids| - 1];
      var last := ids[|ids| - 1];
      RepeatsEmpty(init);
      assert ids == init + [last];
      if SetDistinct(ids) {
        assert SetDistinct(init) by {
          forall i, j | 0 <= i < j < |init| ensures !SameValueZero(init[i], init[j]) {
            assert ids[i] == init[i] && ids[j] == init[j];
          }
        }
        assert !SetHas(init, last) by {
          forall i | 0 <= i < |init| ensures !SameValueZero(init[i], last) {
            assert ids[i] == init[i];
          }
        }
      }
      if Repeats(ids) == [] {
        assert !SetHas(init, last);
        forall i, j | 0 <= i < j < |ids| ensures !SameValueZero(ids[i], ids[j]) {
          if j == |init| {
            assert ids[i] == init[i];
          } else {
            assert ids[i] == init[i] && ids[j] == init[j];
          }
        }
      }
    }
  }

  /** A select field that would offer nothing: no dynamic options and no
      non-empty `options` array. */
  predicate LacksOptions(f: Value) {
    Get(f, "type") == Str("select") && !Truthy(Get(f, "optionsDynamic")) &&
    (!Get(f, "options").Arr? || |Get(f, "options").items| == 0)
  }

  /** `a || b`. */
  function Or(a: Value, b: Value): Value {
    if Truthy(a) then a else b
  }

  /** The warnings of one field, in the order the `forEach` pushes them. */
  function FieldWarning(f: Value): seq<string>
  {
    (if !Truthy(Get(f, "id")) then ["Each field must have an id."] else []) +
    (if LacksOptions(f)
     then ["Select field " + ToString(Or(Get(f, "label"), Or(Get(f, "id"), Str("(unnamed)")))) + " has no options."]
     else [])
  }

  function FieldWarnings(fs: seq<Value>): seq<string>
  {
    if fs == [] then [] else FieldWarning(fs[0]) + FieldWarnings(fs[1..])
  }

  lemma {:induction false} FieldWarningsEmpty(fs: seq<Value>)
    ensures FieldWarnings(fs) == [] <==>
              forall i :: 0 <= i < |fs| ==> Truthy(Get(fs[i], "id")) && !LacksOptions(fs[i])
  {
    if fs != [] {
      FieldWarningsEmpty(fs[1..]);
      assert forall i :: 1 <= i < |fs| ==> fs[i] == fs[1..][i - 1];
    }
  }

  /** `placeholderSet.has(v)` for a set of placeholder names. */
  predicate NamesHave(names: seq<string>, v: Value) {
    v.Str? && v.s in names
  }

  /** The placeholders, in set order, that no field id matches. */
  function Unmatched(names: seq<string>, unique: seq<Value>): (r: seq<string>)
    ensures forall p :: p in r <==> p in names && !SetHas(unique, Str(p))
  {
    if names == [] then []
    else (if SetHas(unique, Str(names[0])) then [] else [names[0]]) + Unmatched(names[1..], unique)
  }

  /** The field ids, in set order, that no placeholder names. */
  function Unused(unique: seq<Value>, names: seq<string>): (r: seq<Value>)
    ensures forall v :: v in r <==> v in unique && !NamesHave(names, v)
  {
    if unique == [] then []
    else (if NamesHave(names, unique[0]) then [] else [unique[0]]) + Unused(unique[1..], names)
  }

  /** The checks of the template's own id, subject and body. */
  function CoreWarnings(d: Value): seq<string>
  {
    (if !Truthy(Get(d, "id")) then ["Template id is required."] else []) +
    (if !Truthy(Get(d, "subject")) then ["Subject is required."] else []) +
    (if !Truthy(Get(d, "body")) then ["Body is required."] else [])
  }

  /** The placeholder set: subject tokens, then new body tokens. */
  function PlaceholderNames(d: Value): seq<string>
  {
    Dedup(Placeholders.Placeholders(Get(d, "subject")) + Placeholders.Placeholders(Get(d, "body")))
  }

  /** The messages `updateWarnings` lists for a draft; none when there is no
      draft. */
  function Warnings(d: Value): seq<string>
  {
    if !Truthy(d) then []
    else
      var fs := FieldsOf(d);
      var ids := FieldIds(fs);
      var unique := SetOf(ids);
      var names := PlaceholderNames(d);
      var dups := Repeats(ids);
      var unmatched := Unmatched(names, unique);
      var unused := Unused(unique, names);
      CoreWarnings(d) +
      seq(|dups|, i requires 0 <= i < |dups| => "Duplicate field id: " + ToString(dups[i])) +
      FieldWarnings(fs) +
      seq(|unmatched|, i requires 0 <= i < |unmatched| => "Placeholder {{" + unmatched[i] + "}} has no matching field.") +
      seq(|unused|, i requires 0 <= i < |unused| => "Field " + ToString(unused[i]) + " is not used in subject/body.")
  }

  /** A template the editor has nothing to say about: it has an id, subject
      and body; its field ids are all present and distinct; every select
      field has options; and the placeholders and the field ids name the
      same things. */
  predicate WellFormed(d: Value) {
    var fs := FieldsOf(d);
    var ids := FieldIds(fs);
    var names := PlaceholderNames(d);
    HasCore(d) &&
    SetDistinct(ids) &&
    (forall i :: 0 <= i < |fs| ==> Truthy(Get(fs[i], "id")) && !LacksOptions(fs[i])) &&
    (forall p :: p in names ==> Str(p) in ids) &&
    (forall v :: v in ids ==> NamesHave(names, v))
  }

  /** One duplicate message per repeated id, whatever else the draft holds. */
  lemma DuplicateWarningCount(d: Value)
    requires Truthy(d)
    ensures |Repeats(FieldIds(FieldsOf(d)))| == |FieldIds(FieldsOf(d))| - |SetOf(FieldIds(FieldsOf(d)))|
  {
    RepeatsCount(FieldIds(FieldsOf(d)));
  }

  lemma SetHasStr(xs: seq<Value>, p: string)
    ensures SetHas(xs, Str(p)) <==> Str(p) in xs
  {
    if Str(p) in xs {
      var i :| 0 <= i < |xs| && xs[i] == Str(p);
      assert SameValueZero(xs[i], Str(p));
    }
  }

  lemma UnmatchedEmpty(names: seq<string>, ids: seq<Value>)
    ensures Unmatched(names, SetOf(ids)) == [] <==> forall p :: p in names ==> Str(p) in ids
  {
    var unique := SetOf(ids);
    forall p ensures SetHas(unique, Str(p)) <==> Str(p) in ids {
      SetOfHas(ids, Str(p));
      SetHasStr(ids, p);
    }
    if Unmatched(names, unique) != [] {
      assert Unmatched(names, unique)[0] in Unmatched(names, unique);
    }
  }

  lemma UnusedEmpty(ids: seq<Value>, names: seq<string>)
    ensures Unused(SetOf(ids), names) == [] <==> forall v :: v in ids ==> NamesHave(names, v)
  {
    SetOfSpec(ids);
    if Unused(SetOf(ids), names) != [] {
      assert Unused(SetOf(ids), names)[0] in Unused(SetOf(ids), names);
    }
  }

  /** The list is empty exactly when each of its five parts is. */
  lemma WarningsEmptyParts(d: Value)
    requires Truthy(d)
    ensures var ids := FieldIds(FieldsOf(d));
            var names := PlaceholderNames(d);
            Warnings(d) == [] <==>
              CoreWarnings(d) == [] && Repeats(ids) == [] && FieldWarnings(FieldsOf(d)) == [] &&
              Unmatched(names, SetOf(ids)) == [] && Unused(SetOf(ids), names) == []
  {
  }

  /** The warning list is empty exactly for a well-formed draft. */
  lemma NoWarningsIffWellFormed(d: Value)
    requires Truthy(d)
    ensures Warnings(d) == [] <==> WellFormed(d)
  {
    var fs := FieldsOf(d);
    var ids := FieldIds(fs);
    var names := PlaceholderNames(d);
    WarningsEmptyParts(d);
    RepeatsEmpty(ids);
    FieldWarningsEmpty(fs);
    UnmatchedEmpty(names, ids);
    UnusedEmpty(ids, names);
  }
}
