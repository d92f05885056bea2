/** The compose-window popup (popup/popup.js): the template list, the
    template the select currently shows, the required-field check and the
    outcome of applying a template to the compose window. The DOM, the tab
    query and the compose call are parameters. */
module Popup {
  import opened Wrappers
  import opened Text
  import opened JsValue
  import opened Templates
  import opened Substitution
  import OptionsWarnings
  import OptionsEditor

  /** `template.id || String(index)`: what the select shows for a template. */
  function OptionKey(t: Value, index: nat): Value
  {
    OptionsWarnings.Or(Get(t, "id"), Str(NatToString(index)))
  }

  /** The `value` of the template's `<option>`: the key converted to a
      string by the assignment to `option.value`. */
  function OptionValue(t: Value, index: nat): string
  {
    ToString(OptionKey(t, index))
  }

  /** The first index at or after `from` whose key is strictly equal to the
      string `value`, as `getTemplateByValue` searches. */
  function FindByKey(ts: seq<Value>, value: string, from: nat): (r: Option<nat>)
    requires from <= |ts|
    ensures r.Some? ==> from <= r.value < |ts| && OptionKey(ts[r.value], r.value) == Str(value)
    ensures r.Some? ==> forall j :: from <= j < r.value ==> OptionKey(ts[j], j) != Str(value)
    ensures r.None? ==> forall j :: from <= j < |ts| ==> OptionKey(ts[j], j) != Str(value)
    decreases |ts| - from
  {
    if from == |ts| then None
    else if OptionKey(ts[from], from) == Str(value) then Some(from)
    else FindByKey(ts, value, from + 1)
  }

  /** `getTemplateByValue(value)` as written: `undefined` when nothing
      matches. */
  function GetTemplateByValue(ts: seq<Value>, value: string): Value
  {
    match FindByKey(ts, value, 0)
    case Some(i) => ts[i]
    case None => Undefined
  }

  /** As written, a template is found only through a key that is a string:
      the option value is always a string and `===` never equates a string
      with a number, so a template whose id is a number (or `true`, or an
      object) cannot be selected. */
  lemma GetTemplateByValueOnlyStrings(ts: seq<Value>, value: string)
    ensures var r := FindByKey(ts, value, 0);
            r.Some? ==> OptionKey(ts[r.value], r.value).Str?
    ensures forall k :: 0 <= k < |ts| && !OptionKey(ts[k], k).Str? ==>
              FindByKey(ts, value, 0) != Some(k)
  {
  }

  /** A one-template list whose id is the number 7: the select offers "7",
      and looking "7" up finds nothing. */
  lemma NumericIdNotFound()
    ensures var ts := [Obj([("id", Num(7))])];
            OptionValue(ts[0], 0) == "7" && GetTemplateByValue(ts, OptionValue(ts[0], 0)) == Undefined
  {
    var ts := [Obj([("id", Num(7))])];
    assert OptionKey(ts[0], 0) == Num(7);
    assert NatToString(7) == "7";
    assert FindByKey(ts, "7", 1) == None;
  }

  /** The first index at or after `from` whose option value is `value`. */
  function FindByOptionValue(ts: seq<Value>, value: string, from: nat): (r: Option<nat>)
    requires from <= |ts|
    ensures r.Some? ==> from <= r.value < |ts| && OptionValue(ts[r.value], r.value) == value
    ensures r.Some? ==> forall j :: from <= j < r.value ==> OptionValue(ts[j], j) != value
    ensures r.None? ==> forall j :: from <= j < |ts| ==> OptionValue(ts[j], j) != value
    decreases |ts| - from
  {
    if from == |ts| then None
    else if OptionValue(ts[from], from) == value then Some(from)
    else FindByOptionValue(ts, value, from + 1)
  }

  /** The lookup the select needs: compare the option value the select
      was built with, so any id finds its template. */
  function TemplateForOption(ts: seq<Value>, value: string): Value
  {
    match FindByOptionValue(ts, value, 0)
    case Some(i) => ts[i]
    case None => Undefined
  }

  /** Every option of the select leads back to a template: the first one
      showing the same value, which is the template itself when no earlier
      template shows that value. */
  lemma TemplateForOptionFinds(ts: seq<Value>, k: nat)
    requires k < |ts|
    ensures var r := FindByOptionValue(ts, OptionValue(ts[k], k), 0);
            r.Some? && r.value <= k && OptionValue(ts[r.value], r.value) == OptionValue(ts[k], k)
    ensures (forall j :: 0 <= j < k ==> OptionValue(ts[j], j) != OptionValue(ts[k], k)) ==>
              TemplateForOption(ts, OptionValue(ts[k], k)) == ts[k]
  {
  }

  /** Where every key is a string, the corrected lookup and the written one
      agree. */
  lemma TemplateForOptionAgrees(ts: seq<Value>, value: string, from: nat)
    requires from <= |ts|
    requires forall j :: from <= j < |ts| ==> OptionKey(ts[j], j).Str?
    ensures FindByOptionValue(ts, value, from) == FindByKey(ts, value, from)
    decreases |ts| - from
  {
    if from < |ts| {
      TemplateForOptionAgrees(ts, value, from + 1);
    }
  }

  /** One input of the fields section: its `data-field-id`, whether it is
      required, and its current value. */
  datatype Input = Input(fieldId: string, required: bool, value: string)

  predicate Blank(input: Input) {
    input.required && Trim(input.value) == ""
  }

  /** `validateRequiredFields`: the index of the first required input whose
      trimmed value is empty, or nothing when every required input has
      text. */
  method ValidateRequiredFields(inputs: seq<Input>) returns (missing: Option<nat>)
    ensures missing.Some? ==> missing.value < |inputs| && Blank(inputs[missing.value])
    ensures missing.Some? ==> forall j :: 0 <= j < missing.value ==> !Blank(inputs[j])
    ensures missing.None? <==> forall j :: 0 <= j < |inputs| ==> !Blank(inputs[j])
  {
    var i := 0;
    while i < |inputs|
      invariant 0 <= i <= |inputs|
      invariant forall j :: 0 <= j < i ==> !Blank(inputs[j])
    {
      if inputs[i].required && Trim(inputs[i].value) == "" {
        return Some(i);
      }
      i := i + 1;
    }
    return None;
  }

  /** How a click on "apply" ends. `Applied` carries what the compose
      window receives. `Threw` is a TypeError from `applyValues`, raised
      before the `try`: the click sets no status and sends nothing. */
  datatype ApplyOutcome =
    | NoTemplate
    | MissingRequired(fieldId: string)
    | Threw
    | NoComposeTab
    | Applied(tabId: nat, subject: Value, bodyHtml: Value)
    | ApplyFailed

  /** The status line each outcome shows, if it sets one. */
  function StatusText(o: ApplyOutcome): Option<string>
  {
    match o
    case NoTemplate => Some("Select a template first.")
    case MissingRequired(id) => Some("Fill required field: " + id)
    case Threw => None
    case NoComposeTab => Some("No active compose tab found.")
    case Applied(_, _, _) => Some("Template applied.")
    case ApplyFailed => Some("Failed to apply template.")
  }

  /** What `applyValues` gives for a text it does not throw on. */
  function Filled(text: Value, values: Entries): Value {
    if NotText(text) then text else Str(ApplyAll(TextOrEmpty(text), values))
  }

  /** `applyValues` throws on the template's subject or body: one of them
      is truthy but no string, and there are values to apply. */
  predicate Throws(t: Value, values: Entries) {
    values != [] && (NotText(Get(t, "subject")) || NotText(Get(t, "body")))
  }

  /** The popup's state: the template list and the template the select
      shows (`null` before loading, `undefined` when a lookup failed). */
  class PopupPage {
    var templates: seq<Value>
    var currentTemplate: Value
    /** `window.DEFAULT_TEMPLATES`, the global the shared defaults script
        sets (`DefaultTemplates()` on the real page). */
    const defaults: seq<Value>

    /** The page before loading, given the defaults global. */
    constructor(defaults: seq<Value>)
      ensures templates == [] && currentTemplate == Null
      ensures this.defaults == defaults
    {
      this.defaults := defaults;
      templates := [];
      currentTemplate := Null;
    }

    /** `loadTemplates`, given the stored `templates` value: the stored
        list when it is a non-empty array and the defaults otherwise; the
        first option, when there is one, is selected when its value is
        non-empty, looked up with the corrected lookup in place of
        `getTemplateByValue`. */
    method Load(stored: Value)
      modifies this
      ensures templates == OptionsEditor.LoadedFrom(stored, defaults)
      ensures |templates| > 0 && OptionValue(templates[0], 0) != "" ==>
                currentTemplate == TemplateForOption(templates, OptionValue(templates[0], 0))
      ensures |templates| == 0 || OptionValue(templates[0], 0) == "" ==> currentTemplate == old(currentTemplate)
    {
      templates := OptionsEditor.LoadedFrom(stored, defaults);
      var initial := if |templates| > 0 then OptionValue(templates[0], 0) else "";
      if initial != "" {
        currentTemplate := TemplateForOption(templates, initial);
      }
    }

    /** The select's change handler, with the corrected lookup in place of
        `getTemplateByValue`. */
    method Select(value: string)
      modifies this
      ensures templates == old(templates)
      ensures currentTemplate == TemplateForOption(templates, value)
    {
      currentTemplate := TemplateForOption(templates, value);
    }

    /** `applyTemplate`, given the field inputs, the collected values, the
        result of the tab query and the error the compose call throws, if
        any. Nothing is sent without a template, with a blank required
        field or when substitution throws; otherwise the compose window
        receives the subject and body with the values substituted. */
    method ApplyTemplate(inputs: seq<Input>, values: Entries, tab: Result<Option<nat>, string>,
                         composeError: Option<string>)
      returns (outcome: ApplyOutcome)
      requires PlainKeys(values)
      ensures outcome == NoTemplate <==> !Truthy(currentTemplate)
      ensures outcome.MissingRequired? <==>
                Truthy(currentTemplate) && exists j :: 0 <= j < |inputs| && Blank(inputs[j])
      ensures Truthy(currentTemplate) && (exists j :: 0 <= j < |inputs| && Blank(inputs[j])) ==>
                exists k :: 0 <= k < |inputs| && Blank(inputs[k]) &&
                  (forall j :: 0 <= j < k ==> !Blank(inputs[j])) &&
                  outcome == MissingRequired(inputs[k].fieldId)
      ensures outcome == Threw <==>
                Truthy(currentTemplate) && (forall j :: 0 <= j < |inputs| ==> !Blank(inputs[j])) &&
                Throws(currentTemplate, values)
      ensures outcome.Applied? <==>
                Truthy(currentTemplate) && (forall j :: 0 <= j < |inputs| ==> !Blank(inputs[j])) &&
                !Throws(currentTemplate, values) && tab.Success? && tab.value.Some? && composeError.None?
      ensures outcome.Applied? ==>
                outcome.tabId == tab.value.value &&
                outcome.subject == Filled(Get(currentTemplate, "subject"), values) &&
                outcome.bodyHtml == Filled(Get(currentTemplate, "body"), values)
      ensures outcome == NoComposeTab <==>
                Truthy(currentTemplate) && (forall j :: 0 <= j < |inputs| ==> !Blank(inputs[j])) &&
                !Throws(currentTemplate, values) && tab == Success(None)
      ensures outcome == ApplyFailed <==>
                Truthy(currentTemplate) && (forall j :: 0 <= j < |inputs| ==> !Blank(inputs[j])) &&
                !Throws(currentTemplate, values) &&
                (tab.Failure? || (tab.value.Some? && composeError.Some?))
    {
      if !Truthy(currentTemplate) {
        return NoTemplate;
      }
      var missing := ValidateRequiredFields(inputs);
      if missing.Some? {
        return MissingRequired(inputs[missing.value].fieldId);
      }
      var subject := ApplyValues(Get(currentTemplate, "subject"), values);
      if subject.None? {
        return Threw;
      }
      var bodyHtml := ApplyValues(Get(currentTemplate, "body"), values);
      if bodyHtml.None? {
        return Threw;
      }
      if tab.Failure? {
        return ApplyFailed;
      }
      if tab.value.None? {
        return NoComposeTab;
      }
      if composeError.Some? {
        return ApplyFailed;
      }
      return Applied(tab.value.value, subject.value, bodyHtml.value);
    }
  }
}
