# Template Master: template data handling, in Dafny

Template Master is a mail-client extension that fills a compose window from
stored email templates. A template has an `id`, a `subject`, an HTML `body`
and a list of `fields`. Each `{{ field_id }}` token in the subject or body is
replaced by the value typed into that field's input. This project models the
extension's data handling:

- **Options page** (`options/options.js`). It validates and repairs an
  imported or edited collection (`normalizeTemplates`) and strips private
  keys before saving (`cleanTemplate`). It scans placeholders
  (`collectPlaceholders`) and lists the editor's warnings (`updateWarnings`).
  It parses and shows the comma-separated option lists. It handles the
  field-type and dynamic-options switches. The editor session is a class:
  its list, current index, draft and dirty flag are updated by select,
  move, delete, add field, new template, apply JSON and save.
- **Popup** (`popup/popup.js`). It resolves a select field's options,
  static ones first and then generated month names. It substitutes field
  values into the subject and body (`applyValues`) and checks required
  fields. It looks up the selected template and decides what applying a
  template sends to the compose window.
- **Thunderbird build's options page**
  (`thunderbird-template-extension/options/options.js`). Its
  `normalizeTemplates` is simpler, and its save writes to storage only
  after parsing and normalization succeed.

The model works on an already-parsed JSON value (`JsValue.Value`). This
value has JavaScript truthiness, property reads that give `undefined` for
missing keys, property assignment and deletion that keep key order (a new
key goes last, which is JavaScript's order for the non-integer keys the
code assigns; integer-like keys, which JavaScript lists first, are not
modelled), `String`
conversion, and `Set` semantics (`SameValueZero`). Two kinds of code take
imperative form:

- Code that mutates in place: the two `normalizeTemplates` loops over an
  `array`, the editor session class, and the popup page class.
- Loops, which are methods proved against a specification function:
  `collectPlaceholders`, `applyValues`, `buildMonthOptions` and
  `validateRequiredFields`.

Dialog answers (`window.confirm`), the clock, `Intl.DateTimeFormat`, storage
writes, `JSON.parse`, the tab query and the compose call are all parameters.

Modules, one per file: `Wrappers`, `Text` (trimming, splitting, joining,
decimal digits, de-duplication), `JsValue`, `Placeholders`, `Substitution`,
`SubstitutionExamples`, `Templates` (shared types, status line, default
collection), `OptionsNormalize`, `OptionsFields`, `OptionsWarnings`,
`OptionsEditor`, `SelectOptions`, `Popup`, `ThunderbirdOptions`.

## Behaviour of the code that the model keeps

- **Keys are not escaped.** `popup/popup.js:169` splices each key into a
  regular expression as it is, so a key holding a pattern character would
  match other text. The model covers keys made of `[A-Za-z0-9_-]` only,
  where escaping would make no difference (`Substitution.PlainKeys`).
- **Order matters.** `applyValues` replaces key by key, so a value can
  create a token that a later key then fills, and two key orders can give
  different text. `SubstitutionExamples.KeyOrderMatters` shows such a
  pair.
- **Replacement strings are not plain text.** Values go to
  `String.prototype.replace` as replacement strings, so `$&`, `$$` and
  similar patterns are live. The model expands them
  (`Substitution.Expand`). The equivalence with plain token substitution is
  proved for values without `$`.
- **A failed save can still change state.** In `saveTemplates`
  (`options/options.js:530-545`), the draft is written into the list before
  normalization runs, so it stays there when normalization throws.
  `OptionsEditor.EditorSession.SaveTemplates` states this. `applyJson`
  changes nothing when it fails.

## Model

| member | source | states |
|---|---|---|
| JsValue.SetProp | options/options.js:53 | assigning a key makes it read the new value and leaves every other key's value alone |
| JsValue.SetPropShape | options/options.js:53 | an existing key keeps its place and the key count is unchanged; a new key is appended last, as JavaScript does for the non-integer keys the code assigns (`fields`, `options`, `type`, `optionsDynamic`, `body`) |
| JsValue.RemoveKey | options/options.js:252-253 | after `delete` the key reads `undefined` and every other key reads as before |
| JsValue.SetPropSame | options/options.js:58 | writing back the value a key already holds leaves the object unchanged |
| JsValue.SetPropHasKey | options/options.js:53 | after an assignment the object has exactly its old keys plus the assigned one |
| JsValue.SetPropTwice | options/options.js:53 | assigning the same value twice is the same as assigning it once |
| JsValue.LookupFirst | options/options.js:49 | a key is read from its first occurrence |
| JsValue.ElementString | options/options.js:277 | `join` writes a string element as itself |
| JsValue.TextOrEmpty | popup/popup.js:167 | `text \|\| ""` is `""` for falsy text and the string itself for a string |
| JsValue.SetOfSpec | popup/popup.js:79 | `new Set(xs)` holds exactly the elements of `xs`, no two of them `SameValueZero`-equal |
| JsValue.SetOfOrder | popup/popup.js:75-80 | `new Set(xs)` lists elements of `xs` at strictly increasing positions, and a position is listed exactly when it holds the first `SameValueZero`-occurrence of its element |
| JsValue.SetOfPrefix | popup/popup.js:78-79 | the set built from `a` followed by `b` starts with the set built from `a`, in the same order |
| JsValue.SetOfHas | options/options.js:458-464 | `has` on the set answers as membership in the list the set was built from |
| Text.SkipSpaces | options/options.js:431 | `\s*` stops at the end of the text or at a character that is not whitespace |
| Text.SkipSpacesSpec | options/options.js:431 | every character `\s*` consumes is whitespace |
| Text.SkipSpacesTo | options/options.js:431 | a whitespace run followed by other text is exactly what `\s*` consumes |
| Text.SpacesBeforeSpec | popup/popup.js:205 | the trailing run `trim()` removes is all whitespace |
| Text.Trim | popup/popup.js:205 | `trim()` leaves no whitespace at either end |
| Text.TrimSpec | options/options.js:281 | `trim()` keeps one middle stretch of the text and removes only whitespace before and after it |
| Text.TrimOfTrimmed | options/options.js:281 | trimming text with no whitespace at either end changes nothing |
| Text.TrimDropsLeadingSpace | options/options.js:281 | trimming a space-prefixed trimmed entry returns the entry |
| Text.Split | options/options.js:280 | `split(",")` gives at least one part and no part contains the separator |
| Text.JoinSplit | options/options.js:279-280 | joining the parts of a split with the separator restores the text |
| Text.SplitAt | options/options.js:280 | splitting `a` + separator + `b` gives `a` followed by the parts of `b` |
| Text.SplitWhole | options/options.js:280 | text without the separator splits into itself alone |
| Text.NatToString | popup/popup.js:31 | `String(index)` is a non-empty run of decimal digits |
| Text.FirstIndex | options/options.js:474-477 | the index of the first occurrence, with no earlier occurrence |
| Text.FirstIndexSnoc | options/options.js:476 | appending an element does not move the first occurrence of one already present |
| Text.DedupSpec | options/options.js:474-477 | the set spread into a list holds the same names, each once, in first-occurrence order |
| Placeholders.SkipName | options/options.js:431 | `[\w-]+` stops at the end of the text or at a character outside `[\w-]` |
| Placeholders.SkipNameSpec | options/options.js:431 | every character `[\w-]+` consumes is a name character |
| Placeholders.SkipNameTo | options/options.js:431 | a run of name characters followed by another character is exactly what `[\w-]+` consumes |
| Placeholders.TokenAt | options/options.js:431 | a token found at `i` is at least five characters long and names a non-empty `[\w-]` run |
| Placeholders.MatchIsTokenAt | options/options.js:431 | every way the pattern can match at `i` is the single token `TokenAt` reports |
| Placeholders.TokenAtMatches | options/options.js:431 | a reported token is a match of the pattern |
| Placeholders.NoTokenInside | options/options.js:433 | no match starts inside another match, so `exec` resuming after a match loses none |
| Placeholders.CollectPlaceholders | options/options.js:429-437 | the `exec` loop returns the distinct-name list `Placeholders(text)` |
| Placeholders.ExecOnce | options/options.js:433-435 | one `exec` call moves forward, adds a match's name to the set unless it is there, and keeps the names found so far plus those still ahead equal to all the names |
| Placeholders.NamesSound | options/options.js:433-434 | every collected name is the name of a token in the text |
| Placeholders.NamesComplete | options/options.js:433-434 | every token in the text contributes its name |
| Placeholders.NamesAreNames | options/options.js:434 | every collected name is a non-empty `[\w-]` run |
| Placeholders.PlaceholdersSpec | options/options.js:429-437 | the names are distinct, are exactly the token names, come in first-discovery order, and are none for falsy text |
| Substitution.KeyMatchAt | popup/popup.js:169 | a match of `{{\s*key\s*}}` ends at least four characters past the key's length |
| Substitution.KeyMatchIsToken | popup/popup.js:169 | for a name key, the key's pattern matches at `i` exactly when the token at `i` is named by the key |
| Substitution.TokenIsKeyMatch | popup/popup.js:169 | a token named by the key is a match of the key's pattern, ending where the token ends |
| Substitution.ExpandPlain | popup/popup.js:170 | a replacement string without `$` is inserted literally |
| Substitution.CopyUntil | popup/popup.js:170 | text before the next match is copied unchanged |
| Substitution.CopyOne | popup/popup.js:170 | a character where no match starts is copied |
| Substitution.NoMatchBetweenIntro | popup/popup.js:169 | no match at any position of a stretch is the same as no match position by position |
| Substitution.CopyBetween | popup/popup.js:170 | a stretch with no match is copied unchanged |
| Substitution.ReplaceIsSubstitute | popup/popup.js:169-170 | a global `replace` replaces every token named by the key, with any inner whitespace, and copies everything else verbatim |
| Substitution.ReplaceWithoutToken | popup/popup.js:170 | text with no token named by the key is unchanged |
| Substitution.ApplyValues | popup/popup.js:166-173 | for falsy or string text the loop returns the key-by-key replacement `ApplyAll` of the text (falsy text counting as `""`); a truthy non-string text comes back as it is when there are no values and makes `replace` throw a TypeError exactly when there are some |
| Substitution.SingleKeySubstitutes | popup/popup.js:168-171 | one key replaces each of its tokens by its value, `""` included, and leaves other tokens (such as `{{kx}}` for key `k`) verbatim |
| Substitution.ApplyAllWithoutTokens | popup/popup.js:166-172 | text in which no token names a key comes back unchanged |
| SubstitutionExamples.GreetingFilledIn | popup/popup.js:166-173 | a token is filled in and a key with no token has no effect |
| SubstitutionExamples.KeyOrderMatters | popup/popup.js:168-171 | the same values in two key orders give different text |
| OptionsNormalize.FirstNullish | options/options.js:55-56 | the first null or undefined field, whose `type` read throws |
| OptionsNormalize.RepairPrefix | options/options.js:55-61 | repairing fields keeps their number |
| OptionsNormalize.FirstBad | options/options.js:48-51 | the first template the loop throws at: all before it pass, it fails |
| OptionsNormalize.RepairFields | options/options.js:55-61 | the inner loop repairs the fields before the first null one and stops there |
| OptionsNormalize.HandleTemplate | options/options.js:48-61 | one turn of the outer loop throws what `CheckTemplate` says and leaves the template as `StepTemplate` says |
| OptionsNormalize.NormalizeInPlace | options/options.js:48-62 | the in-place loop reports the first failure and leaves every template up to it stepped and the rest untouched |
| OptionsNormalize.NormalizeTemplates | options/options.js:44-64 | returns the repaired array or the error, as `Normalize` |
| OptionsNormalize.RepairFieldSpec | options/options.js:56-59 | a select field with `optionsDynamic` and falsy `options` gets `options = []`; nothing else changes |
| OptionsNormalize.NormalizeRejects | options/options.js:45-51 | rejects exactly non-arrays, and rejects at index k for missing id/subject/body exactly when every template before k passes |
| OptionsNormalize.RepairTemplateSpec | options/options.js:52-61 | a template that passes keeps every key but `fields` and gets the array of its repaired fields |
| OptionsNormalize.NormalizeRepairs | options/options.js:48-63 | on success: same length and order, every template keeps id/subject/body and all other keys, and its `fields` is the array of repaired fields |
| OptionsNormalize.RepairFieldIdempotent | options/options.js:56-59 | repairing a field twice is repairing it once |
| OptionsNormalize.RepairTemplateIdempotent | options/options.js:52-61 | a repaired template passes again and is not changed by a second repair |
| OptionsNormalize.NormalizeIdempotent | options/options.js:44-64 | normalizing normalized output returns it unchanged |
| OptionsNormalize.IntroChecks | shared/default-templates.js:5-20 | the first default template passes the per-template check |
| OptionsNormalize.FollowUpChecks | shared/default-templates.js:21-36 | the second default template passes the per-template check |
| OptionsNormalize.DefaultTemplatesAccepted | shared/default-templates.js:4-36 | the default collection passes normalization |
| OptionsFields.DropPrivate | options/options.js:70-74 | no key left starts with `_`, and none is added |
| OptionsFields.LookupDropPrivate | options/options.js:70-74 | a `_` key reads `undefined` after cleaning; every other key reads as before |
| OptionsFields.DropPrivateKeepsPublic | options/options.js:70-74 | an object without `_` keys is unchanged |
| OptionsFields.CleanFieldSpec | options/options.js:68-76 | a cleaned field is an object without `_` keys that keeps every other key's value |
| OptionsFields.CleanFieldIdempotent | options/options.js:68-76 | cleaning a field twice is cleaning it once |
| OptionsFields.CleanTemplateSpec | options/options.js:66-79 | `cleanTemplate` keeps every key except `fields`; `fields` becomes an array of the cleaned fields in order, or `[]` when it was not an array |
| OptionsFields.CleanTemplateIdempotent | options/options.js:66-79 | `cleanTemplate` is idempotent |
| OptionsFields.TrimAll | options/options.js:281 | `map((item) => item.trim())` keeps the number of entries and each entry is its piece trimmed |
| OptionsFields.NonEmpty | options/options.js:282 | `filter(Boolean)` keeps only non-empty entries taken from the input |
| OptionsFields.NonEmptyKeepsAll | options/options.js:282 | with no empty entry, the filter keeps everything |
| OptionsFields.TrimKeepsOut | options/options.js:281 | trimming adds no character |
| OptionsFields.TrimAllKeepsOut | options/options.js:280-281 | trimmed split parts still contain no comma |
| OptionsFields.ParseOptions | options/options.js:279-282 | every parsed option is non-empty, trimmed and comma-free |
| OptionsFields.Spaced | options/options.js:277 | one entry per option after the first |
| OptionsFields.SplitSpaced | options/options.js:277-280 | splitting `" " + join(l, ", ")` on commas gives each entry behind one space |
| OptionsFields.SplitJoined | options/options.js:277-280 | splitting the shown text on commas gives the first entry and then the others behind one space |
| OptionsFields.ShownText | options/options.js:277 | an array of strings is shown as their `", "`-join |
| OptionsFields.TrimSpaced | options/options.js:281 | trimming space-prefixed trimmed entries restores them |
| OptionsFields.TrimAllCons | options/options.js:281 | trimming a list trims its head and its tail separately |
| OptionsFields.TrimPieces | options/options.js:277-281 | the trimmed pieces of the shown text are the original entries |
| OptionsFields.OptionsRoundTrip | options/options.js:277-282 | for any list of non-empty, trimmed, comma-free entries, parsing the shown text returns the list |
| OptionsFields.ParseOptionsStable | options/options.js:277-282 | showing a parsed list and parsing it again gives the same list |
| OptionsFields.WithFieldTypeSpec | options/options.js:249-254 | the type is set; leaving `select` deletes `options` and `optionsDynamic`; staying `select` keeps them; other keys are untouched |
| OptionsFields.DynamicModeRoundTrip | options/options.js:298-314 | the mode shown after choosing a mode is that mode; "advanced" keeps an existing advanced config; only `optionsDynamic` changes |
| OptionsWarnings.FieldIds | options/options.js:457 | every collected id is truthy |
| OptionsWarnings.FieldIdsSpec | options/options.js:457 | a value is among the ids exactly when it is truthy and some field carries it |
| OptionsWarnings.RepeatsCount | options/options.js:458-464 | the number of duplicate messages plus the number of distinct ids is the number of ids |
| OptionsWarnings.RepeatsEmpty | options/options.js:458-464 | no duplicate is reported exactly when the ids are pairwise distinct |
| OptionsWarnings.FieldWarningsEmpty | options/options.js:465-472 | no per-field warning exactly when every field has an id and no select field lacks options |
| OptionsWarnings.Unmatched | options/options.js:479-483 | a placeholder is reported exactly when no field id equals it |
| OptionsWarnings.Unused | options/options.js:485-489 | a field id is reported exactly when no placeholder names it |
| OptionsWarnings.DuplicateWarningCount | options/options.js:458-464 | the draft gets one duplicate message per repeat after the first occurrence |
| OptionsWarnings.SetHasStr | options/options.js:480 | `has` of a string is membership |
| OptionsWarnings.UnmatchedEmpty | options/options.js:479-483 | no unmatched-placeholder message exactly when every placeholder is a field id |
| OptionsWarnings.UnusedEmpty | options/options.js:485-489 | no unused-field message exactly when every field id is a placeholder |
| OptionsWarnings.WarningsEmptyParts | options/options.js:439-489 | the list is empty exactly when each of its five parts is |
| OptionsWarnings.NoWarningsIffWellFormed | options/options.js:439-489 | a draft gets no warning exactly when it has id, subject and body, distinct present field ids, options for every select, and placeholders and field ids that name the same things |
| OptionsEditor.Moved | options/options.js:520-521 | the two splices keep the length |
| OptionsEditor.MovedAdjacent | options/options.js:520-521 | moving to a neighbouring index swaps the two templates |
| OptionsEditor.MovedPermutes | options/options.js:520-521 | a move is a permutation |
| OptionsEditor.TrackIndexAdjacent | options/options.js:522-526 | after a neighbour move the tracked index designates the same template |
| OptionsEditor.RemovedSpec | options/options.js:569 | the splice removes exactly the element at `k`, keeping the others in order |
| OptionsEditor.WithDraft | options/options.js:506-510 | writing the draft into the list keeps its length |
| OptionsEditor.WorkingSpec | options/options.js:81-87 | the working list is the cleaned templates with the cleaned draft at the current index when there is a draft, and is already clean |
| OptionsEditor.AddedFieldSpec | options/options.js:578-585 | the draft's fields gain one blank field at the end, nothing else changes, and the blank field draws the missing-id warning |
| OptionsEditor.BlankFieldWarning | options/options.js:585 | a blank field draws only the missing-id warning |
| OptionsEditor.LoadedFrom | options/options.js:660 | the stored list when it is a non-empty array, the defaults otherwise; never empty when the defaults are not |
| OptionsEditor.LoadedTemplates | options/options.js:660 | with the shipped defaults, the loaded list is never empty |
| OptionsEditor.NewTemplateBody | options/options.js:548-554 | a new template's body is already empty, so writing "" back into it changes nothing |
| OptionsEditor.EditorSession.constructor | options/options.js:30-33 | no templates, no selection, no draft, not dirty, with the given defaults global |
| OptionsEditor.EditorSession.Load | options/options.js:658-663 | the stored list or the defaults; the first template selected with its copy as draft when the list is non-empty, no selection and no draft otherwise; clean |
| OptionsEditor.EditorSession.EnsureDraftSavedBeforeSwitch | options/options.js:149-162 | proceeds unless there are unsaved changes, the target differs and the dialog is declined; a confirmed discard reloads the draft from the list |
| OptionsEditor.EditorSession.SelectTemplate | options/options.js:164-170 | selects the template with a fresh draft when allowed, and changes nothing otherwise |
| OptionsEditor.EditorSession.MoveTemplate | options/options.js:512-528 | an out-of-range target or declined dialog moves nothing; otherwise the list is the moved permutation and the current index follows the same template |
| OptionsEditor.EditorSession.MoveWithin | options/options.js:520-526 | the splices and the index update, keeping the draft |
| OptionsEditor.EditorSession.DeleteCurrentTemplate | options/options.js:561-572 | without a selection or confirmation nothing changes; otherwise the current template is removed, the index clamps to the new end or -1, the draft is the new current template and the session is clean |
| OptionsEditor.EditorSession.MarkDirty | options/options.js:418-422 | the editor's HTML becomes the draft's body and the session is dirty |
| OptionsEditor.EditorSession.AddField | options/options.js:578-586 | with a draft, a blank field is appended and the session is dirty; without one nothing changes |
| OptionsEditor.EditorSession.CreateNewTemplate | options/options.js:547-558 | the new template is appended and the session is dirty; when the switch goes ahead it is selected and is the draft exactly as built (its empty body was rendered into the editor); when the discard dialog is declined the selection stays and the old draft takes the editor's HTML as its body |
| OptionsEditor.EditorSession.ApplyJson | options/options.js:630-645 | a parse or normalization failure changes nothing and shows the error; success replaces the list with the normalized one and selects the first template |
| OptionsEditor.EditorSession.SaveTemplates | options/options.js:530-544 | stores the normalized working list only when normalization and the write succeed; on failure the store is untouched and the list holds the written-in draft |
| ThunderbirdOptions.FirstBad | thunderbird-template-extension/options/options.js:16-19 | the first template the loop throws at: all before it pass, it fails |
| ThunderbirdOptions.NormalizeInPlace | thunderbird-template-extension/options/options.js:16-23 | when it throws at k, the templates before k are already repaired and the rest are untouched |
| ThunderbirdOptions.NormalizeTemplates | thunderbird-template-extension/options/options.js:12-25 | returns the repaired array or the error, as `Normalize` |
| ThunderbirdOptions.NormalizeRejects | thunderbird-template-extension/options/options.js:13-19 | rejects exactly non-arrays; rejects at index k with a TypeError exactly when template k is null or undefined and every earlier one has id, subject and body, and for missing id/subject/body exactly when k is the first template without them |
| ThunderbirdOptions.RepairSpec | thunderbird-template-extension/options/options.js:17-22 | a template that passes keeps every key and gets `fields = []` only when `fields` was not an array |
| ThunderbirdOptions.NormalizeRepairs | thunderbird-template-extension/options/options.js:20-24 | on success: same length and order, each `fields` an array, existing arrays untouched, only `fields` changes |
| ThunderbirdOptions.NormalizeIdempotent | thunderbird-template-extension/options/options.js:16-24 | normalizing normalized output returns it unchanged |
| ThunderbirdOptions.SaveTemplates | thunderbird-template-extension/options/options.js:33-43 | the store is written only after parsing and normalization succeed; any failure shows an error and stores nothing |
| SelectOptions.MakeMonth | popup/popup.js:105 | `new Date(y, m, 1)` lands on a month in 0..11 |
| SelectOptions.MakeMonthCount | popup/popup.js:105 | outside the two-digit years, the month overflow carries into the year without changing the month count |
| SelectOptions.StyleForSpec | popup/popup.js:112-128 | a short month exactly for the two short formats, no year exactly for the two year-less formats, long with year otherwise |
| SelectOptions.NormalizeLocale | popup/popup.js:132-140 | the formatter falls back to its default locale exactly when no locale is given, never receives the bare "pl", and receives any other locale unchanged; "pl" becomes "pl-PL" |
| SelectOptions.NormalizeLocaleIdempotent | popup/popup.js:132-140 | normalizing a locale twice is normalizing it once |
| SelectOptions.MonthOptions | popup/popup.js:100-110 | the list has `count` entries, none for a count below one |
| SelectOptions.BuildMonthOptions | popup/popup.js:100-110 | the loop returns `MonthOptions` |
| SelectOptions.MonthOptionsEntries | popup/popup.js:104-106 | entry i is written for the month `startOffset + step * i` months from the current one, with year carry or borrow and a month in 0..11 |
| SelectOptions.PresetMonths | popup/popup.js:83-85 | the preset lists the current month, then the previous one, in the year before in January |
| SelectOptions.DynamicOptionsSpec | popup/popup.js:82-98 | any value other than `"months"` or a truthy object of type `"months"` yields no options; `"months"` yields the current and the previous month; an object yields `count` entries (2 by default, none below one), entry i being the month `startOffset + step * i` months away (defaults 0 and -1) written in the style of `format` (`monthYear` when falsy) and the normalized locale |
| SelectOptions.ResolveSelectOptionsSpec | popup/popup.js:75-80 | the resolved list has no repeats, holds exactly the static and dynamic options, begins with the static options' own set, and lists the static-then-dynamic options at increasing positions, a position appearing exactly when it holds the first occurrence of its option |
| SelectOptions.StaticOnly | popup/popup.js:76-79 | without a dynamic setting, the static options are offered once each |
| Popup.FindByKey | popup/popup.js:38 | the first index whose `id \|\| String(index)` is strictly equal to the value, or none when no index is |
| Popup.GetTemplateByValueOnlyStrings | popup/popup.js:38 | as written, only a template whose key is a string can be found |
| Popup.NumericIdNotFound | popup/popup.js:31-38 | a template with numeric id 7 is offered as "7" and looking up "7" finds nothing |
| Popup.FindByOptionValue | popup/popup.js:31-38 | the first index whose option value equals the value, or none when no index does |
| Popup.TemplateForOptionFinds | popup/popup.js:31-38 | every option leads back to the first template showing its value, which is the template itself when no earlier one shows that value |
| Popup.TemplateForOptionAgrees | popup/popup.js:38 | where every key is a string, the corrected lookup and the written one agree |
| Popup.ValidateRequiredFields | popup/popup.js:202-210 | returns the first required input whose trimmed value is empty, and nothing exactly when every required input has text |
| Popup.PopupPage.constructor | popup/popup.js:12-13 | no templates and a `null` current template, with the given defaults global |
| Popup.PopupPage.Load | popup/popup.js:190-199 | the stored list or the defaults, with the first option's template current when there is a first option and its value is non-empty, and the current template unchanged otherwise |
| Popup.PopupPage.Select | popup/popup.js:254-257 | the current template becomes the one the chosen option shows |
| Popup.PopupPage.ApplyTemplate | popup/popup.js:212-248 | each outcome happens exactly under its condition: no template; else the first blank required field named; else, when a truthy non-string subject or body meets some values, a TypeError before the `try` that sets no status and sends nothing; else a failed tab query or compose call reported as a failure, no tab reported as such, and otherwise the compose window receives subject and body as `applyValues` fills them |

## Findings

| source | as written | input that shows it | evidently intended | confidence | as-written member | corrected member |
|---|---|---|---|---|---|---|
| popup/popup.js:38 | `getTemplateByValue` compares `template.id \|\| String(index)` with `===` against the select's value, which is always a string | a stored template whose `id` is the number 7: its option's value is "7", and `7 === "7"` is false, so selecting it (or loading it as the first template) gives `undefined` and no fields or apply | find the template the chosen option was built for, by comparing the option value (`String(template.id \|\| index)`) | not executed; medium (ids are strings in the defaults and the editor, but imported JSON may carry numeric ids, which normalization accepts) | Popup.NumericIdNotFound | Popup.TemplateForOptionFinds |

`Popup.PopupPage` uses the corrected lookup, `Popup.TemplateForOption`.
`Popup.TemplateForOptionAgrees` shows that the corrected and the written
lookup agree whenever every key is a string.

## Left out

- DOM construction and event wiring are not modelled: `renderTemplateList`, `renderEditor`, widget building in `renderFields`, `updateInsertOptions`, the toolbar and `execCommand`, `insertAtCursor`, `buildTemplateOptions` beyond the option value it assigns, `renderFields` and `createFieldInput` in the popup, the preview panes, and `copyJson`.
- `collectValues` (`popup/popup.js:157-164`) is not modelled. The values reach `ApplyTemplate` as a list of key/value pairs, in the order `Object.keys` would give. That order puts integer-like keys first, and this is not modelled.
- `toPlainText` depends on the browser's HTML parser, so it is not modelled. `ApplyTemplate` returns the HTML body. The plain-text body sent alongside it is not modelled.
- Storage, tabs, compose, the options-page opener, `window.confirm`, `console` and the clipboard are I/O. They appear as parameters: dialog answers are booleans, a write's error is an option value, the tab query is a result value and the compose call's error is an option value.
- `JSON.parse`, `JSON.stringify` and `deepClone` are not modelled. Inputs arrive already parsed, the parse result is a parameter, and a clone is the same value. Aliasing between `templates` and `draft` therefore does not arise. A field edited in place through the draft is an edit of the draft value.
- `Date.now()` in `createNewTemplate` is the `id` parameter. `new Date()` in `buildMonthOptions` is the `now` parameter. `Intl.DateTimeFormat` is the uninterpreted `fmt` parameter.
- Numbers are integers only. `NaN` and the infinities are kept, but fractions and `-0` are not. Fractional `count`, `startOffset` and `step` settings are therefore not modelled.
- The date range limits of `Date` are not modelled. Neither is the two-digit-year rule's effect on years 0 to 99 in the month lemmas: those lemmas assume a year of at least 100.
- A TypeError thrown by the engine (reading a property of `null` or `undefined`) has engine-specific text. `Templates.FailureStatus` shows the fallback message for it.
- Property reads on `null` and `undefined` outside normalization return `undefined` here, where JavaScript throws. Such reads are `draft.fields` in `addField` for a non-object truthy draft, and strict-mode assignments to primitives. Drafts are objects in every path the pages create.
- The input handlers for template id, name, subject, field id, label, required flag, advanced JSON and field removal (`options/options.js:229-266`, `326-354`, `675-725`) are not modelled. They are single property writes followed by `markDirty`, which is modelled.
- `background.js` is install-time storage set-up and is not part of this model. The default collection from `shared/default-templates.js` appears as `Templates.DefaultTemplates`.
- Contact-record resolution and the merging of contact and user values have no code in these files, so they are not modelled.
- Substitution.ApplyValues: keys are restricted to `[A-Za-z0-9_-]` (`PlainKeys`), because the code splices the key into a regular expression unescaped. A key with meta-characters would match other text, and a key such as `a(` or `a[` makes `new RegExp` (popup/popup.js:169) throw a `SyntaxError`; neither is modelled.
- Substitution.SingleKeySubstitutes: the equivalence with token substitution is stated for values without `$`. Values with `$` are expanded (`Substitution.Expand`), but no property of them is proved.
- Popup.PopupPage.ApplyTemplate: requires `PlainKeys` of the collected values, for the same reason as `Substitution.ApplyValues`.
- SelectOptions.MonthOptionsEntries: stated for years of at least 100. `new Date` reads a year argument of 0 to 99 as 1900 to 1999, which `MakeMonth` models, but the lemma does not cover it.
- Popup.PopupPage.Load: looks the first template up with the corrected `Popup.TemplateForOption`, not with `getTemplateByValue` as `popup/popup.js:197` does. For a first template whose key is not a string (a numeric id), the page as written keeps `undefined` as its current template, where the model has the template. See "## Findings".
- Popup.PopupPage.Select: looks the chosen template up with the corrected `Popup.TemplateForOption`, not with `getTemplateByValue` as `popup/popup.js:255` does. For a template whose key is not a string, the page as written gets `undefined`, so applying reports "Select a template first."; the model has the template. See "## Findings".
- SelectOptions.DynamicOptionsSpec: stated for years of at least 100, as `MonthOptionsEntries` is.
- SelectOptions.DynamicOptionsSpec: the date formatter is a total parameter that never throws. `new Intl.DateTimeFormat` (popup/popup.js:129) throws a `RangeError` for a malformed locale tag such as `"en_US"`; that error would make `resolveSelectOptions` throw, so that loading ends in "Failed to load templates." (popup/popup.js:261-263) or the template change handler stops (popup/popup.js:254-256). This error path is not modelled.
- OptionsEditor.EditorSession and Popup.PopupPage: the `window.DEFAULT_TEMPLATES` global is the constructor's `defaults` parameter. On the real pages it is `Templates.DefaultTemplates()`, with which `OptionsEditor.LoadedTemplates` shows the loaded list is never empty.
