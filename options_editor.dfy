/** The editing session of the options page (options/options.js): the
    template list, the index of the selected template, the draft being
    edited and whether it has unsaved changes. The page's handlers reorder,
    delete and add templates, add fields, import JSON and save; answers to
    `window.confirm` are parameters, and so are the body editor's HTML, the
    id of a new template and the outcome of the storage write. */
module OptionsEditor {
  import opened Wrappers
  import opened JsValue
  import opened Templates
  import opened OptionsNormalize
  import opened OptionsFields
  import opened OptionsWarnings

  // ---- List operations ----

  /** `splice(i, 1)` followed by `splice(t, 0, moved)`: the element at `i`
      taken out and put back at `t`. */
  function Moved(s: seq<Value>, i: nat, t: nat): (r: seq<Value>)
    requires i < |s| && t < |s|
    ensures |r| == |s|
  {
    var rest := s[..i] + s[i + 1..];
    rest[..t] + [s[i]] + rest[t..]
  }

  /** Moving a template to a neighbouring position swaps the two. */
  lemma MovedAdjacent(s: seq<Value>, i: nat, t: nat)
    requires i < |s| && t < |s| && (t == i + 1 || i == t + 1)
    ensures Moved(s, i, t) == s[i := s[t]][t := s[i]]
  {
    var r := Moved(s, i, t);
    var w := s[i := s[t]][t := s[i]];
    forall k | 0 <= k < |s| ensures r[k] == w[k] {
    }
  }

  /** A move keeps every template, each as often as before. */
  lemma MovedPermutes(s: seq<Value>, i: nat, t: nat)
    requires i < |s| && t < |s|
    ensures multiset(Moved(s, i, t)) == multiset(s)
  {
    var rest := s[..i] + s[i + 1..];
    assert s == s[..i] + [s[i]] + s[i + 1..];
    assert multiset(s) == multiset(rest) + multiset{s[i]};
    assert rest == rest[..t] + rest[t..];
    assert multiset(Moved(s, i, t)) == multiset(rest) + multiset{s[i]};
  }

  /** The selection after a move: the moved template keeps it, and so does
      the one it swapped places with. */
  function TrackIndex(c: int, i: int, t: int): int
  {
    if c == i then t else if c == t then i else c
  }

  /** After a move to a neighbouring position the selection still designates
      the same template. */
  lemma TrackIndexAdjacent(s: seq<Value>, i: nat, t: nat, c: nat)
    requires i < |s| && t < |s| && (t == i + 1 || i == t + 1) && c < |s|
    ensures 0 <= TrackIndex(c, i, t) < |s|
    ensures Moved(s, i, t)[TrackIndex(c, i, t)] == s[c]
  {
    MovedAdjacent(s, i, t);
  }

  /** `splice(k, 1)`. */
  function Removed(s: seq<Value>, k: nat): (r: seq<Value>)
    requires k < |s|
  {
    s[..k] + s[k + 1..]
  }

  /** Removal drops exactly the element at `k` and keeps the others in order. */
  lemma RemovedSpec(s: seq<Value>, k: nat)
    requires k < |s|
    ensures |Removed(s, k)| == |s| - 1
    ensures forall i :: 0 <= i < k ==> Removed(s, k)[i] == s[i]
    ensures forall i :: k <= i < |s| - 1 ==> Removed(s, k)[i] == s[i + 1]
    ensures multiset(Removed(s, k)) + multiset{s[k]} == multiset(s)
  {
    assert s == s[..k] + [s[k]] + s[k + 1..];
  }

  /** The selection after a delete: the same position, clamped to the
      shorter list, or nothing when the list is empty. */
  function IndexAfterDelete(k: int, len: nat): int
  {
    if len > 0 then (if k < len - 1 then k else len - 1) else -1
  }

  // ---- The working list ----

  /** The list with the draft written over the selected template
      (`applyDraftToTemplates`). */
  function WithDraft(ts: seq<Value>, ci: int, draft: Value): (r: seq<Value>)
    requires ci < |ts|
    ensures |r| == |ts|
  {
    if Truthy(draft) && ci >= 0 then ts[ci := draft] else ts
  }

  /** `getWorkingTemplates`: the list with the draft in place, each template
      cleaned. */
  function Working(ts: seq<Value>, ci: int, draft: Value): seq<Value>
    requires ci < |ts|
  {
    var w := WithDraft(ts, ci, draft);
    seq(|w|, i requires 0 <= i < |w| => CleanTemplate(w[i]))
  }

  /** The working list has one cleaned template per stored one, the cleaned
      draft in the selected slot, and is unchanged by cleaning again. */
  lemma WorkingSpec(ts: seq<Value>, ci: int, draft: Value)
    requires ci < |ts|
    ensures |Working(ts, ci, draft)| == |ts|
    ensures forall i :: 0 <= i < |ts| && (i != ci || !Truthy(draft)) ==>
              Working(ts, ci, draft)[i] == CleanTemplate(ts[i])
    ensures 0 <= ci && Truthy(draft) ==> Working(ts, ci, draft)[ci] == CleanTemplate(draft)
    ensures forall i :: 0 <= i < |ts| ==>
              CleanTemplate(Working(ts, ci, draft)[i]) == Working(ts, ci, draft)[i]
  {
    var w := WithDraft(ts, ci, draft);
    forall i | 0 <= i < |ts| ensures CleanTemplate(Working(ts, ci, draft)[i]) == Working(ts, ci, draft)[i] {
      CleanTemplateIdempotent(w[i]);
    }
  }

  // ---- Fields ----

  /** The field `addField` appends. */
  function BlankField(): Value {
    Obj([("id", Str("")), ("label", Str("")), ("type", Str("text")), ("required", Bool(false))])
  }

  /** The draft after `addField`: `fields` (made an array first when it was
      not one) with a blank field pushed. Writing `[]` and then the pushed
      array lands in the same property, so it is one write here. */
  function AddedField(d: Value): Value
  {
    Set(d, "fields", Arr(FieldsOf(d) + [BlankField()]))
  }

  /** The draft gains one blank field after the others and nothing else
      changes; the new field draws the missing-id warning. */
  lemma AddedFieldSpec(d: Value)
    requires d.Obj?
    ensures FieldsOf(AddedField(d)) == FieldsOf(d) + [BlankField()]
    ensures forall key :: key != "fields" ==> Get(AddedField(d), key) == Get(d, key)
    ensures FieldWarning(BlankField()) == ["Each field must have an id."]
  {
    BlankFieldWarning();
  }

  lemma BlankFieldWarning()
    ensures FieldWarning(BlankField()) == ["Each field must have an id."]
  {
    var f := BlankField();
    LookupFirst(f.props, "id", 0);
    LookupFirst(f.props, "type", 2);
    assert Get(f, "type") != Str("select") by {
      assert |"text"| != |"select"|;
    }
  }

  /** A new template as `createNewTemplate` builds it, given its id. */
  function NewTemplate(id: string): Value {
    Obj([("id", Str(id)), ("name", Str("")), ("subject", Str("")), ("body", Str("")), ("fields", Arr([]))])
  }

  /** The new template already has an empty body, so writing "" back into
      it changes nothing. */
  lemma NewTemplateBody(id: string)
    ensures Set(NewTemplate(id), "body", Str("")) == NewTemplate(id)
  {
    var props := NewTemplate(id).props;
    assert HasKey(props, "body") by {
      assert props[3].0 == "body";
    }
    LookupFirst(props, "body", 3);
    SetPropSame(props, "body");
  }

  /** The templates `loadTemplates` starts from: the stored list when it is a
      non-empty array, `defaults` otherwise. */
  function LoadedFrom(stored: Value, defaults: seq<Value>): (r: seq<Value>)
    ensures |defaults| > 0 ==> |r| > 0
  {
    if stored.Arr? && |stored.items| > 0 then stored.items else defaults
  }

  /** With `window.DEFAULT_TEMPLATES` as the defaults, the loaded list is
      never empty. */
  function LoadedTemplates(stored: Value): (r: seq<Value>)
    ensures |r| > 0
  {
    LoadedFrom(stored, DefaultTemplates())
  }

  class EditorSession {
    var templates: seq<Value>
    var currentIndex: int
    /** `Null` when no template is selected. */
    var draft: Value
    var draftDirty: bool
    /** `window.DEFAULT_TEMPLATES`, the global the shared defaults script
        sets (`DefaultTemplates()` on the real page). */
    const defaults: seq<Value>

    /** The selection is a position in the list, or -1 for none (always so
        when the list is empty). */
    predicate Valid()
      reads this
    {
      -1 <= currentIndex < |templates|
    }

    /** The page's state before the stored templates are loaded, given the
        defaults global. */
    constructor (defaults: seq<Value>)
      ensures Valid()
      ensures templates == [] && currentIndex == -1 && draft == Null && !draftDirty
      ensures this.defaults == defaults
    {
      this.defaults := defaults;
      templates := [];
      currentIndex := -1;
      draft := Null;
      draftDirty := false;
    }

    /** What the JSON panel shows and what a save starts from. */
    function WorkingTemplates(): seq<Value>
      reads this
      requires Valid()
    {
      Working(templates, currentIndex, draft)
    }

    /** `loadTemplates`, given what storage returned for "templates". */
    method Load(stored: Value)
      modifies this
      ensures Valid()
      ensures templates == LoadedFrom(stored, defaults)
      ensures currentIndex == (if |templates| > 0 then 0 else -1)
      ensures draft == (if |templates| > 0 then templates[0] else Null) && !draftDirty
    {
      templates := LoadedFrom(stored, defaults);
      currentIndex := if |templates| > 0 then 0 else -1;
      draft := if currentIndex >= 0 then templates[currentIndex] else Null;
      draftDirty := false;
    }

    /** `ensureDraftSavedBeforeSwitch(next)`: a switch goes ahead when there
        are no unsaved changes, when it stays on the selected template, or
        when the user agrees to discard them; discarding reloads the draft
        from the list. */
    method EnsureDraftSavedBeforeSwitch(next: int, confirmed: bool) returns (proceed: bool)
      requires Valid()
      modifies this
      ensures Valid()
      ensures proceed == (!old(draftDirty) || next == old(currentIndex) || confirmed)
      ensures templates == old(templates) && currentIndex == old(currentIndex)
      ensures !old(draftDirty) || next == old(currentIndex) || !confirmed ==>
                draft == old(draft) && draftDirty == old(draftDirty)
      ensures old(draftDirty) && next != old(currentIndex) && confirmed ==>
                !draftDirty &&
                draft == (if currentIndex >= 0 && Truthy(templates[currentIndex])
                          then templates[currentIndex] else old(draft))
    {
      if !draftDirty || next == currentIndex {
        return true;
      }
      if !confirmed {
        return false;
      }
      draftDirty := false;
      if currentIndex >= 0 && Truthy(templates[currentIndex]) {
        draft := templates[currentIndex];
      }
      return true;
    }

    /** `selectTemplate(index)`. */
    method SelectTemplate(index: nat, confirmed: bool)
      requires Valid() && index < |templates|
      modifies this
      ensures Valid()
      ensures templates == old(templates)
      ensures var proceed := !old(draftDirty) || index == old(currentIndex) || confirmed;
              if proceed then
                currentIndex == index && !draftDirty &&
                draft == (if Truthy(templates[index]) then templates[index] else Null)
              else
                currentIndex == old(currentIndex) && draft == old(draft) && draftDirty == old(draftDirty)
    {
      var proceed := EnsureDraftSavedBeforeSwitch(index, confirmed);
      if !proceed {
        return;
      }
      currentIndex := index;
      draft := if Truthy(templates[index]) then templates[index] else Null;
      draftDirty := false;
    }

    /** `moveTemplate(index, direction)`: after the unsaved-changes check,
        the template moves to `index + direction` when that is a position of
        the list, and the selection follows the templates it designated. */
    method MoveTemplate(index: nat, direction: int, confirmed: bool)
      requires Valid() && index < |templates|
      modifies this
      ensures Valid()
      ensures multiset(templates) == multiset(old(templates))
      ensures var target := index + direction;
              var proceed := !old(draftDirty) || index == old(currentIndex) || confirmed;
              if proceed && 0 <= target < |old(templates)| then
                templates == Moved(old(templates), index, target) &&
                currentIndex == TrackIndex(old(currentIndex), index, target)
              else
                templates == old(templates) && currentIndex == old(currentIndex)
      ensures (direction == 1 || direction == -1) && currentIndex >= 0 ==>
                templates[currentIndex] == old(templates)[old(currentIndex)]
      ensures draftDirty == (old(draftDirty) && (index == old(currentIndex) || !confirmed))
      ensures draft == if old(draftDirty) && index != old(currentIndex) && confirmed &&
                          old(currentIndex) >= 0 && Truthy(old(templates)[old(currentIndex)])
                       then old(templates)[old(currentIndex)] else old(draft)
    {
      var proceed := EnsureDraftSavedBeforeSwitch(index, confirmed);
      if !proceed {
        return;
      }
      var target := index + direction;
      if target < 0 || target >= |templates| {
        return;
      }
      MoveWithin(index, target);
    }

    /** The two splices of `moveTemplate` and the selection update, for a
        target inside the list. */
    method MoveWithin(index: nat, target: nat)
      requires Valid() && index < |templates| && target < |templates|
      modifies this
      ensures Valid()
      ensures templates == Moved(old(templates), index, target)
      ensures currentIndex == TrackIndex(old(currentIndex), index, target)
      ensures draft == old(draft) && draftDirty == old(draftDirty)
      ensures multiset(templates) == multiset(old(templates))
      ensures (target == index + 1 || index == target + 1) && currentIndex >= 0 ==>
                templates[currentIndex] == old(templates)[old(currentIndex)]
    {
      MovedPermutes(templates, index, target);
      if (target == index + 1 || index == target + 1) && currentIndex >= 0 {
        TrackIndexAdjacent(templates, index, target, currentIndex);
      }
      templates := Moved(templates, index, target);
      if currentIndex == index {
        currentIndex := target;
      } else if currentIndex == target {
        currentIndex := index;
      }
    }

    /** `deleteCurrentTemplate`: with a selection and the user's agreement,
        the selected template goes, the selection stays at the same position
        clamped to the shorter list, and the draft is reloaded from it. */
    method DeleteCurrentTemplate(confirmed: bool)
      requires Valid()
      modifies this
      ensures Valid()
      ensures old(currentIndex) < 0 || !confirmed ==>
                templates == old(templates) && currentIndex == old(currentIndex) &&
                draft == old(draft) && draftDirty == old(draftDirty)
      ensures old(currentIndex) >= 0 && confirmed ==>
                templates == Removed(old(templates), old(currentIndex)) &&
                currentIndex == IndexAfterDelete(old(currentIndex), |templates|) &&
                draft == (if currentIndex >= 0 then templates[currentIndex] else Null) &&
                !draftDirty
    {
      if currentIndex < 0 {
        return;
      }
      if !confirmed {
        return;
      }
      templates := Removed(templates, currentIndex);
      currentIndex := IndexAfterDelete(currentIndex, |templates|);
      draft := if currentIndex >= 0 then templates[currentIndex] else Null;
      draftDirty := false;
    }

    /** `markDirty`, given the body editor's HTML. */
    method MarkDirty(editorHtml: string)
      modifies this
      ensures templates == old(templates) && currentIndex == old(currentIndex)
      ensures draft == (if Truthy(old(draft)) then Set(old(draft), "body", Str(editorHtml)) else old(draft))
      ensures draftDirty
    {
      if Truthy(draft) {
        draft := Set(draft, "body", Str(editorHtml));
      }
      draftDirty := true;
    }

    /** `addField`: with a draft, a blank field is appended and the draft is
        marked dirty. */
    method AddField(editorHtml: string)
      requires Valid()
      modifies this
      ensures Valid()
      ensures templates == old(templates) && currentIndex == old(currentIndex)
      ensures !Truthy(old(draft)) ==> draft == old(draft) && draftDirty == old(draftDirty)
      ensures Truthy(old(draft)) ==>
                draft == Set(AddedField(old(draft)), "body", Str(editorHtml)) && draftDirty
    {
      if !Truthy(draft) {
        return;
      }
      draft := AddedField(draft);
      MarkDirty(editorHtml);
    }

    /** `createNewTemplate`, given the new id and the body editor's HTML
        when the button is pressed: the template is appended, then selected
        (which the unsaved-changes check may refuse), then the draft is
        marked dirty. A selection renders the new, empty body into the
        editor, so the new template becomes the draft as built; a refused
        selection keeps the old one, whose body takes the editor's HTML. */
    method CreateNewTemplate(id: string, confirmed: bool, editorHtml: string)
      requires Valid()
      modifies this
      ensures Valid()
      ensures templates == old(templates) + [NewTemplate(id)]
      ensures draftDirty
      ensures !old(draftDirty) || confirmed ==>
                currentIndex == |old(templates)| && draft == NewTemplate(id)
      ensures old(draftDirty) && !confirmed ==>
                currentIndex == old(currentIndex) &&
                draft == (if Truthy(old(draft)) then Set(old(draft), "body", Str(editorHtml)) else old(draft))
    {
      var proceed := !draftDirty || confirmed;
      templates := templates + [NewTemplate(id)];
      SelectTemplate(|templates| - 1, confirmed);
      var shown := if proceed then "" else editorHtml;
      NewTemplateBody(id);
      MarkDirty(shown);
    }

    /** `applyJson`, given the result of `JSON.parse` on the editor's text:
        a collection that normalizes replaces the list and selects its first
        template; anything else leaves the session as it was. */
    method ApplyJson(parsed: Result<Value, string>) returns (status: Status)
      requires Valid()
      modifies this
      ensures Valid()
      ensures status.isError <==> parsed.Failure? || Normalize(parsed.value).Failure?
      ensures parsed.Failure? ==> status == MessageStatus(parsed.error, "Failed to apply JSON.")
      ensures parsed.Success? && Normalize(parsed.value).Failure? ==>
                status == FailureStatus(Normalize(parsed.value).error, "Failed to apply JSON.")
      ensures status.isError ==>
                templates == old(templates) && currentIndex == old(currentIndex) &&
                draft == old(draft) && draftDirty == old(draftDirty)
      ensures !status.isError ==>
                templates == Normalize(parsed.value).value &&
                currentIndex == (if |templates| > 0 then 0 else -1) &&
                draft == (if |templates| > 0 then templates[0] else Null) &&
                !draftDirty && status == Status("JSON applied.", false)
    {
      if parsed.Failure? {
        return MessageStatus(parsed.error, "Failed to apply JSON.");
      }
      var r := NormalizeTemplates(parsed.value);
      if r.Failure? {
        return FailureStatus(r.error, "Failed to apply JSON.");
      }
      templates := r.value;
      currentIndex := if |templates| > 0 then 0 else -1;
      draft := if currentIndex >= 0 then templates[currentIndex] else Null;
      draftDirty := false;
      status := Status("JSON applied.", false);
    }

    /** `saveTemplates`: the draft is written into the list, the cleaned list
        is normalized and stored, and only then does the list become the
        stored one and the draft count as saved. `writeError` is the outcome
        of the storage write. */
    method SaveTemplates(store: TemplateStore, writeError: Option<string>) returns (status: Status)
      requires Valid()
      modifies this, store
      ensures Valid()
      ensures currentIndex == old(currentIndex) && draft == old(draft)
      ensures var outcome := Normalize(Arr(old(WorkingTemplates())));
              if outcome.Success? && writeError.None? then
                store.templates == Some(outcome.value) && templates == outcome.value &&
                !draftDirty && status == Status("Templates saved.", false)
              else
                store.templates == old(store.templates) &&
                templates == WithDraft(old(templates), old(currentIndex), old(draft)) &&
                draftDirty == old(draftDirty) && status.isError
    {
      ghost var working := WorkingTemplates();
      if Truthy(draft) && currentIndex >= 0 {
        templates := templates[currentIndex := draft];
      }
      var ts := templates;
      var cleaned := seq(|ts|, i requires 0 <= i < |ts| => CleanTemplate(ts[i]));
      assert cleaned == working;
      var r := NormalizeTemplates(Arr(cleaned));
      if r.Failure? {
        return FailureStatus(r.error, "Failed to save templates.");
      }
      if writeError.Some? {
        return MessageStatus(writeError.value, "Failed to save templates.");
      }
      store.templates := Some(r.value);
      status := Status("Templates saved.", false);
      draftDirty := false;
      templates := r.value;
    }
  }
}
