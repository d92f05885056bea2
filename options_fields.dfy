/** The template and field edits of the options page (options/options.js)
    that are plain functions of the data: `cleanTemplate`, which drops the
    editor's private `_` keys from every field before the collection is
    previewed or saved; the comma-separated options text of a select field;
    the field-type switch, which strips select-only settings; and the
    dynamic-options mode selector. */
module OptionsFields {
  import opened Text
  import opened JsValue
  import opened Templates

  /** `key.startsWith("_")`. */
  predicate IsPrivateKey(key: string) {
    |key| > 0 && key[0] == '_'
  }

  /** The own enumerable properties `{ ...v }` copies: an object's
      properties, a string's characters or an array's elements under their
      index keys, and nothing for any other value. */
  function Spread(v: Value): seq<(string, Value)>
  {
    match v
    case Obj(props) => props
    case Str(s) => seq(|s|, i requires 0 <= i < |s| => (NatToString(i), Str([s[i]])))
    case Arr(items) => seq(|items|, i requires 0 <= i < |items| => (NatToString(i), items[i]))
    case _ => []
  }

  /** The properties left after deleting every `_` key. */
  function DropPrivate(props: seq<(string, Value)>): (r: seq<(string, Value)>)
    ensures |r| <= |props|
    ensures forall i :: 0 <= i < |r| ==> !IsPrivateKey(r[i].0)
  {
    if props == [] then []
    else if IsPrivateKey(props[0].0) then DropPrivate(props[1..])
    else [props[0]] + DropPrivate(props[1..])
  }

  /** Dropping the `_` keys hides exactly those keys from a read. */
  lemma {:induction false} LookupDropPrivate(props: seq<(string, Value)>, key: string)
    ensures Lookup(DropPrivate(props), key) == if IsPrivateKey(key) then Undefined else Lookup(props, key)
  {
    if props != [] {
      LookupDropPrivate(props[1..], key);
    }
  }

  lemma {:induction false} DropPrivateKeepsPublic(props: seq<(string, Value)>)
    requires forall i :: 0 <= i < |props| ==> !IsPrivateKey(props[i].0)
    ensures DropPrivate(props) == props
  {
    if props != [] {
      DropPrivateKeepsPublic(props[1..]);
    }
  }

  /** One field inside `cleanTemplate`: a copy without its `_` keys. */
  function CleanField(f: Value): Value
  {
    Obj(DropPrivate(Spread(f)))
  }

  /** The cleaned fields of a template: one per element of `fields` when it
      is an array, none otherwise. */
  function CleanFields(t: Value): seq<Value>
  {
    var fs := FieldsOf(t);
    seq(|fs|, i requires 0 <= i < |fs| => CleanField(fs[i]))
  }

  /** `cleanTemplate(template)`: `{ ...template, fields: cleanFields }`. */
  function CleanTemplate(t: Value): Value
  {
    Obj(SetProp(Spread(t), "fields", Arr(CleanFields(t))))
  }

  /** A cleaned field is an object holding every key of the field except the
      `_` ones, with the same values. */
  lemma CleanFieldSpec(f: Value)
    ensures CleanField(f).Obj?
    ensures forall i :: 0 <= i < |CleanField(f).props| ==> !IsPrivateKey(CleanField(f).props[i].0)
    ensures forall key :: IsPrivateKey(key) ==> Get(CleanField(f), key) == Undefined
    ensures f.Obj? ==> forall key :: !IsPrivateKey(key) ==> Get(CleanField(f), key) == Get(f, key)
  {
    forall key ensures Get(CleanField(f), key) == if IsPrivateKey(key) then Undefined else Lookup(Spread(f), key) {
      LookupDropPrivate(Spread(f), key);
    }
  }

  lemma CleanFieldIdempotent(f: Value)
    ensures CleanField(CleanField(f)) == CleanField(f)
  {
    DropPrivateKeepsPublic(DropPrivate(Spread(f)));
  }

  /** `cleanTemplate` keeps every property of the template but `fields`,
      which becomes an array with one cleaned copy of each field, in order,
      and no fields when `fields` was not an array. */
  lemma CleanTemplateSpec(t: Value)
    ensures CleanTemplate(t).Obj?
    ensures t.Obj? ==> forall key :: key != "fields" ==> Get(CleanTemplate(t), key) == Get(t, key)
    ensures Get(CleanTemplate(t), "fields").Arr?
    ensures |FieldsOf(CleanTemplate(t))| == |FieldsOf(t)|
    ensures !Get(t, "fields").Arr? ==> FieldsOf(CleanTemplate(t)) == []
    ensures forall i :: 0 <= i < |FieldsOf(t)| ==> FieldsOf(CleanTemplate(t))[i] == CleanField(FieldsOf(t)[i])
  {
  }

  /** Cleaning a cleaned template changes nothing. */
  lemma CleanTemplateIdempotent(t: Value)
    ensures CleanTemplate(CleanTemplate(t)) == CleanTemplate(t)
  {
    var c := CleanTemplate(t);
    var fs := CleanFields(t);
    assert FieldsOf(c) == fs;
    forall i | 0 <= i < |fs| ensures CleanField(fs[i]) == fs[i] {
      CleanFieldIdempotent(FieldsOf(t)[i]);
    }
    assert CleanFields(c) == fs;
    SetPropTwice(Spread(t), "fields", Arr(fs));
  }

  // ---- The options text of a select field ----

  /** What the options box shows: `options.join(", ")` for an array, else "". */
  function OptionsText(options: Value): string
  {
    if options.Arr? then
      Join(seq(|options.items|, i requires 0 <= i < |options.items| => ElementString(options.items[i])), ", ")
    else ""
  }

  /** `map((item) => item.trim())`. */
  function TrimAll(parts: seq<string>): (r: seq<string>)
    ensures |r| == |parts|
    ensures forall i :: 0 <= i < |r| ==> r[i] == Trim(parts[i])
  {
    if parts == [] then [] else [Trim(parts[0])] + TrimAll(parts[1..])
  }

  /** `filter(Boolean)` on strings. */
  function NonEmpty(parts: seq<string>): (r: seq<string>)
    ensures forall i :: 0 <= i < |r| ==> r[i] != "" && r[i] in parts
  {
    if parts == [] then []
    else if parts[0] == "" then NonEmpty(parts[1..])
    else [parts[0]] + NonEmpty(parts[1..])
  }

  lemma {:induction false} NonEmptyKeepsAll(parts: seq<string>)
    requires forall i :: 0 <= i < |parts| ==> parts[i] != ""
    ensures NonEmpty(parts) == parts
  {
    if parts != [] {
      NonEmptyKeepsAll(parts[1..]);
    }
  }

  lemma TrimKeepsOut(s: string, c: char)
    requires c !in s
    ensures c !in Trim(s)
  {
    TrimSpec(s);
    var a := SkipSpaces(s, 0);
    forall k | 0 <= k < |Trim(s)| ensures Trim(s)[k] != c {
      assert Trim(s)[k] == s[a + k];
    }
  }

  lemma TrimAllKeepsOut(parts: seq<string>, c: char)
    requires forall p :: p in parts ==> c !in p
    ensures forall p :: p in TrimAll(parts) ==> c !in p
  {
    forall i | 0 <= i < |parts| ensures c !in TrimAll(parts)[i] {
      TrimKeepsOut(parts[i], c);
    }
  }

  /** The typed options text, split on commas, each piece trimmed, empty
      pieces dropped. */
  function ParseOptions(text: string): (r: seq<string>)
    ensures forall i :: 0 <= i < |r| ==> r[i] != "" && IsTrimmed(r[i]) && ',' !in r[i]
  {
    var parts := Split(text, ',');
    TrimAllKeepsOut(parts, ',');
    NonEmpty(TrimAll(parts))
  }

  /** The input handler of the options box: `field.options` becomes the
      parsed list. */
  function WithOptionsText(f: Value, text: string): Value
  {
    var opts := ParseOptions(text);
    Set(f, "options", Arr(seq(|opts|, i requires 0 <= i < |opts| => Str(opts[i]))))
  }

  /** Entries the options box can show and read back unchanged. */
  predicate IsOptionEntry(s: string) {
    s != "" && IsTrimmed(s) && ',' !in s
  }

  /** Each entry after one space, as the pieces after the first appear. */
  function Spaced(l: seq<string>): (r: seq<string>)
    ensures |r| == |l|
  {
    seq(|l|, i requires 0 <= i < |l| => " " + l[i])
  }

  /** The ", " between two entries is a comma followed by a space that
      belongs to the next piece. */
  lemma CommaSpace(a: string, b: string)
    ensures a + ", " + b == a + [','] + (" " + b)
    ensures " " + (a + ", " + b) == (" " + a) + [','] + (" " + b)
  {
    assert a + ", " + b == a + [','] + (" " + b);
  }

  /** Splitting the entries joined with ", ", after a leading space, gives
      each entry after one space. */
  lemma {:induction false} SplitSpaced(l: seq<string>)
    requires |l| >= 1
    requires forall i :: 0 <= i < |l| ==> ',' !in l[i]
    ensures Split(" " + Join(l, ", "), ',') == Spaced(l)
    decreases |l|
  {
    if |l| == 1 {
      SplitWhole(" " + l[0], ',');
    } else {
      var rest := Join(l[1..], ", ");
      CommaSpace(l[0], rest);
      assert " " + Join(l, ", ") == (" " + l[0]) + [','] + (" " + rest);
      assert ',' !in " " + l[0];
      SplitAt(" " + l[0], ',', " " + rest);
      SplitSpaced(l[1..]);
      assert [" " + l[0]] + Spaced(l[1..]) == Spaced(l);
    }
  }

  /** Splitting the entries joined with ", " gives the first entry, then
      each further entry after one space. */
  lemma SplitJoined(l: seq<string>)
    requires |l| >= 1
    requires forall i :: 0 <= i < |l| ==> ',' !in l[i]
    ensures Split(Join(l, ", "), ',') == [l[0]] + Spaced(l[1..])
  {
    if |l| == 1 {
      SplitWhole(l[0], ',');
    } else {
      var rest := Join(l[1..], ", ");
      CommaSpace(l[0], rest);
      assert ',' !in l[0];
      SplitAt(l[0], ',', " " + rest);
      assert forall i :: 0 <= i < |l[1..]| ==> ',' !in l[1..][i];
      SplitSpaced(l[1..]);
    }
  }

  /** The text shown for a list of string options is the list joined with ", ". */
  lemma ShownText(l: seq<string>)
    ensures OptionsText(Arr(seq(|l|, i requires 0 <= i < |l| => Str(l[i])))) == Join(l, ", ")
  {
    var shown := seq(|l|, i requires 0 <= i < |l| => Str(l[i]));
    assert seq(|shown|, i requires 0 <= i < |shown| => ElementString(shown[i])) == l;
  }

  lemma TrimSpaced(l: seq<string>)
    requires forall i :: 0 <= i < |l| ==> IsTrimmed(l[i])
    ensures TrimAll(Spaced(l)) == l
  {
    forall i | 0 <= i < |l| ensures Trim(Spaced(l)[i]) == l[i] {
      TrimDropsLeadingSpace(l[i]);
    }
  }

  lemma TrimAllCons(x: string, rest: seq<string>)
    ensures TrimAll([x] + rest) == [Trim(x)] + TrimAll(rest)
  {
    assert ([x] + rest)[1..] == rest;
  }

  /** Trimming the pieces of the joined entries gives the entries. */
  lemma TrimPieces(l: seq<string>, pieces: seq<string>)
    requires |l| >= 1
    requires forall i :: 0 <= i < |l| ==> IsOptionEntry(l[i])
    requires pieces == [l[0]] + Spaced(l[1..])
    ensures TrimAll(pieces) == l
  {
    TrimSpaced(l[1..]);
    TrimOfTrimmed(l[0]);
    TrimAllCons(l[0], Spaced(l[1..]));
    assert [l[0]] + l[1..] == l;
  }

  /** Showing a list of entries and reading the box back gives the list. */
  lemma OptionsRoundTrip(l: seq<string>)
    requires forall i :: 0 <= i < |l| ==> IsOptionEntry(l[i])
    ensures ParseOptions(OptionsText(Arr(seq(|l|, i requires 0 <= i < |l| => Str(l[i]))))) == l
  {
    ShownText(l);
    if |l| == 0 {
      assert Split(Join(l, ", "), ',') == [""];
    } else {
      SplitJoined(l);
      TrimPieces(l, Split(Join(l, ", "), ','));
      NonEmptyKeepsAll(l);
    }
  }

  /** Re-reading what the box shows after an edit gives the same options. */
  lemma ParseOptionsStable(text: string)
    ensures var l := ParseOptions(text);
            ParseOptions(OptionsText(Arr(seq(|l|, i requires 0 <= i < |l| => Str(l[i]))))) == l
  {
    OptionsRoundTrip(ParseOptions(text));
  }

  // ---- Field type and dynamic options ----

  /** The type selector's change handler: `field.type = ty`, and a field
      that is no longer a select loses `options` and `optionsDynamic`. */
  function WithFieldType(f: Value, ty: string): Value
  {
    var g := Set(f, "type", Str(ty));
    if ty != "select" then Delete(Delete(g, "options"), "optionsDynamic") else g
  }

  /** The new type is recorded; a non-select field carries no options
      settings afterwards; every other property is kept. */
  lemma WithFieldTypeSpec(f: Value, ty: string)
    requires f.Obj?
    ensures Get(WithFieldType(f, ty), "type") == Str(ty)
    ensures ty != "select" ==>
              Get(WithFieldType(f, ty), "options") == Undefined &&
              Get(WithFieldType(f, ty), "optionsDynamic") == Undefined
    ensures ty == "select" ==>
              Get(WithFieldType(f, ty), "options") == Get(f, "options") &&
              Get(WithFieldType(f, ty), "optionsDynamic") == Get(f, "optionsDynamic")
    ensures forall key :: key != "type" && key != "options" && key != "optionsDynamic" ==>
              Get(WithFieldType(f, ty), key) == Get(f, key)
  {
    var g := Set(f, "type", Str(ty));
    var h := Delete(g, "options");
    forall key ensures Get(g, key) == if key == "type" then Str(ty) else Get(f, key) {
      GetSet(f, "type", Str(ty), key);
    }
    forall key ensures Get(h, key) == if key == "options" then Undefined else Get(g, key) {
      GetDelete(g, "options", key);
    }
    forall key ensures Get(Delete(h, "optionsDynamic"), key) ==
                       if key == "optionsDynamic" then Undefined else Get(h, key) {
      GetDelete(h, "optionsDynamic", key);
    }
  }

  /** The mode the dynamic-options selector shows for a field. */
  function DynamicMode(f: Value): string
  {
    var d := Get(f, "optionsDynamic");
    if Truthy(d) then (if d == Str("months") then "months" else "advanced") else ""
  }

  /** The dynamic-options selector's change handler. Choosing "advanced"
      keeps an existing custom configuration and otherwise starts from `{}`. */
  function WithDynamicMode(f: Value, mode: string): Value
  {
    var d := Get(f, "optionsDynamic");
    if mode == "" then Delete(f, "optionsDynamic")
    else if mode == "months" then Set(f, "optionsDynamic", Str("months"))
    else if mode == "advanced" then
      Set(f, "optionsDynamic", if Truthy(d) && d != Str("months") then d else Obj([]))
    else f
  }

  /** Choosing a mode makes the selector show that mode; choosing "advanced"
      for a field that already has a custom configuration keeps it; nothing
      but `optionsDynamic` changes. */
  lemma DynamicModeRoundTrip(f: Value, mode: string)
    requires f.Obj?
    requires mode == "" || mode == "months" || mode == "advanced"
    ensures DynamicMode(WithDynamicMode(f, mode)) == mode
    ensures mode == "advanced" && DynamicMode(f) == "advanced" ==>
              Get(WithDynamicMode(f, mode), "optionsDynamic") == Get(f, "optionsDynamic")
    ensures forall key :: key != "optionsDynamic" ==> Get(WithDynamicMode(f, mode), key) == Get(f, key)
  {
  }
}
