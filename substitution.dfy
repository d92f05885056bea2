/** Placeholder substitution in the popup (popup/popup.js, `applyValues`):
    for each key of the value map in turn, `result.replace(new
    RegExp("{{\\s*" + key + "\\s*}}", "g"), values[key])`. */
module Substitution {
  import opened Text
  import opened Wrappers
  import opened JsValue
  import opened Placeholders

  /** The match of `{{\s*key\s*}}` that starts exactly at `i`, as the position
      just past it. The key is spliced into the pattern unescaped; for a key
      made of `[\w-]` characters (IsPlainKey) every character is literal, the
      first `\s*` must stop where the key begins and the second where `}}`
      begins, so the greedy reading below is the only match. */
  function KeyMatchAt(s: string, key: string, i: nat): (e: Option<nat>)
    requires i <= |s|
    ensures e.Some? ==> i + 4 + |key| <= e.value <= |s|
  {
    if i + 2 <= |s| && s[i] == '{' && s[i + 1] == '{' then
      var a := SkipSpaces(s, i + 2);
      if a + |key| <= |s| && s[a..a + |key|] == key then
        var c := SkipSpaces(s, a + |key|);
        if c + 2 <= |s| && s[c] == '}' && s[c + 1] == '}' then Some(c + 2) else None
      else None
    else None
  }

  /** `GetSubstitution` for a pattern without capture groups: in the
      replacement string `$$` is `$`, `$&` the matched text, `` $` `` the text
      before the match and `$'` the text after it; any other `$` is literal. */
  function Expand(r: string, matched: string, before: string, after: string): string
    decreases |r|
  {
    if r == [] then []
    else if r[0] == '$' && |r| >= 2 && r[1] == '$' then "$" + Expand(r[2..], matched, before, after)
    else if r[0] == '$' && |r| >= 2 && r[1] == '&' then matched + Expand(r[2..], matched, before, after)
    else if r[0] == '$' && |r| >= 2 && r[1] == '`' then before + Expand(r[2..], matched, before, after)
    else if r[0] == '$' && |r| >= 2 && r[1] == '\'' then after + Expand(r[2..], matched, before, after)
    else [r[0]] + Expand(r[1..], matched, before, after)
  }

  /** A replacement without `$` is inserted as it is. */
  lemma {:induction false} ExpandPlain(r: string, matched: string, before: string, after: string)
    requires '$' !in r
    ensures Expand(r, matched, before, after) == r
    decreases |r|
  {
    if r != [] {
      assert r[0] in r;
      assert forall c :: c in r[1..] ==> c in r;
      ExpandPlain(r[1..], matched, before, after);
    }
  }

  /** The global replace, from position `i` on: each match is replaced by the
      expanded replacement and the search resumes after it; other characters
      are copied. */
  function ReplaceFrom(s: string, key: string, v: string, i: nat): string
    requires i <= |s|
    decreases |s| - i
  {
    if i == |s| then []
    else match KeyMatchAt(s, key, i)
      case Some(e) => Expand(v, s[i..e], s[..i], s[e..]) + ReplaceFrom(s, key, v, e)
      case None => [s[i]] + ReplaceFrom(s, key, v, i + 1)
  }

  /** `s.replace(/{{\s*key\s*}}/g, v)`. */
  function ReplaceAll(s: string, key: string, v: string): string
  {
    ReplaceFrom(s, key, v, 0)
  }

  /** Reference meaning of substituting one key: scan the text for
      placeholder tokens; a token named `key` becomes `v`, any other token is
      copied verbatim, as is every character outside a token. */
  function SubstituteFrom(s: string, key: string, v: string, i: nat): string
    requires i <= |s|
    decreases |s| - i
  {
    if i == |s| then []
    else match TokenAt(s, i)
      case Some(t) =>
        if t.name == key then v + SubstituteFrom(s, key, v, t.end)
        else s[i..t.end] + SubstituteFrom(s, key, v, t.end)
      case None => [s[i]] + SubstituteFrom(s, key, v, i + 1)
  }

  /** For a non-empty plain key, the pattern matches at `i` exactly when a
      placeholder token named `key` starts there, and ends where it ends. */
  lemma KeyMatchIsToken(s: string, key: string, i: nat)
    requires IsName(key) && i <= |s|
    ensures KeyMatchAt(s, key, i) ==
              if TokenAt(s, i).Some? && TokenAt(s, i).value.name == key
              then Some(TokenAt(s, i).value.end) else None
  {
    if KeyMatchAt(s, key, i).Some? {
      var a := SkipSpaces(s, i + 2);
      var b := a + |key|;
      var c := SkipSpaces(s, b);
      assert s[a..b] == key;
      SkipSpacesSpec(s, i + 2);
      SkipSpacesSpec(s, b);
      forall k | a <= k < b ensures IsNameChar(s[k]) {
        assert s[k] == key[k - a];
      }
      MatchIsTokenAt(s, i, a, b, c);
    } else {
      TokenIsKeyMatch(s, key, i);
    }
  }

  /** A token named `key` is a match of the key's pattern. */
  lemma TokenIsKeyMatch(s: string, key: string, i: nat)
    requires i <= |s|
    ensures TokenAt(s, i).Some? && TokenAt(s, i).value.name == key ==>
              KeyMatchAt(s, key, i) == Some(TokenAt(s, i).value.end)
  {
    if TokenAt(s, i).Some? && TokenAt(s, i).value.name == key {
      var a := SkipSpaces(s, i + 2);
      var b := SkipName(s, a);
      assert s[a..b] == key;
      assert b == a + |key|;
    }
  }

  /** Where nothing matches, the global replace copies the text. */
  lemma CopyUntil(s: string, key: string, v: string, i: nat, j: nat)
    requires i <= j <= |s|
    requires forall k :: i <= k < j ==> KeyMatchAt(s, key, k) == None
    ensures ReplaceFrom(s, key, v, i) == s[i..j] + ReplaceFrom(s, key, v, j)
  {
    NoMatchBetweenIntro(s, key, i, j);
    CopyBetween(s, key, v, i, j);
  }

  /** No match of the key starts in [i, j). */
  predicate NoMatchBetween(s: string, key: string, i: nat, j: nat)
    requires i <= j <= |s|
    decreases j - i
  {
    i == j || (KeyMatchAt(s, key, i) == None && NoMatchBetween(s, key, i + 1, j))
  }

  lemma {:induction false} NoMatchBetweenIntro(s: string, key: string, i: nat, j: nat)
    requires i <= j <= |s|
    requires forall k :: i <= k < j ==> KeyMatchAt(s, key, k) == None
    ensures NoMatchBetween(s, key, i, j)
    decreases j - i
  {
    if i < j { NoMatchBetweenIntro(s, key, i + 1, j); }
  }

  lemma {:induction false} CopyBetween(s: string, key: string, v: string, i: nat, j: nat)
    requires i <= j <= |s| && NoMatchBetween(s, key, i, j)
    ensures ReplaceFrom(s, key, v, i) == s[i..j] + ReplaceFrom(s, key, v, j)
    decreases j - i
  {
    if i < j {
      CopyOne(s, key, v, i);
      CopyBetween(s, key, v, i + 1, j);
      assert s[i..j] == [s[i]] + s[i + 1..j];
    }
  }

  /** Where nothing matches at `i`, the global replace copies `s[i]`. */
  lemma CopyOne(s: string, key: string, v: string, i: nat)
    requires i < |s| && KeyMatchAt(s, key, i) == None
    ensures ReplaceFrom(s, key, v, i) == [s[i]] + ReplaceFrom(s, key, v, i + 1)
  {
  }

  /** The regular-expression replace of the source is the token substitution:
      every `{{ key }}` token (any spaces inside the braces) becomes `v`,
      wherever it occurs, and nothing else changes. */
  lemma {:induction false} ReplaceIsSubstitute(s: string, key: string, v: string, i: nat)
    requires IsName(key) && '$' !in v && i <= |s|
    ensures ReplaceFrom(s, key, v, i) == SubstituteFrom(s, key, v, i)
    decreases |s| - i
  {
    if i < |s| {
      KeyMatchIsToken(s, key, i);
      match TokenAt(s, i)
      case Some(t) =>
        if t.name == key {
          ExpandPlain(v, s[i..t.end], s[..i], s[t.end..]);
        } else {
          forall k | i <= k < t.end ensures KeyMatchAt(s, key, k) == None {
            if k > i { NoTokenInside(s, i, k); }
            KeyMatchIsToken(s, key, k);
          }
          CopyUntil(s, key, v, i, t.end);
        }
        ReplaceIsSubstitute(s, key, v, t.end);
      case None =>
        ReplaceIsSubstitute(s, key, v, i + 1);
    }
  }

  /** A text in which no token carries the name `key` comes back unchanged,
      whatever the replacement (so `{{kx}}` survives a replace of `k`). */
  lemma ReplaceWithoutToken(s: string, key: string, v: string)
    requires IsName(key)
    requires forall j :: 0 <= j <= |s| && TokenAt(s, j).Some? ==> TokenAt(s, j).value.name != key
    ensures ReplaceAll(s, key, v) == s
  {
    forall k | 0 <= k < |s| ensures KeyMatchAt(s, key, k) == None {
      KeyMatchIsToken(s, key, k);
    }
    CopyUntil(s, key, v, 0, |s|);
    assert s[0..|s|] == s;
  }

  /** The value map as its entries in `Object.keys` order. */
  type Entries = seq<(string, string)>

  predicate PlainKeys(values: Entries) {
    forall i :: 0 <= i < |values| ==> IsPlainKey(values[i].0)
  }

  /** The text after replacing the keys of `values` one after the other. */
  function ApplyAll(s: string, values: Entries): string
  {
    if values == [] then s
    else ReplaceAll(ApplyAll(s, values[..|values| - 1]), values[|values| - 1].0, values[|values| - 1].1)
  }

  /** A text `text || ""` keeps as it is although it is no string: a
      truthy number, boolean, array or object, none of which has a
      `replace` method. */
  predicate NotText(text: Value) {
    Truthy(text) && !text.Str?
  }

  /** `applyValues(text, values)`. Falsy text counts as "" and a string has
      every key replaced in turn. Other truthy text comes back as it is when
      there are no values; otherwise the first `result.replace` throws a
      TypeError, which is `None` here. */
  method ApplyValues(text: Value, values: Entries) returns (result: Option<Value>)
    requires PlainKeys(values)
    ensures result.None? <==> NotText(text) && values != []
    ensures !NotText(text) ==> result == Some(Str(ApplyAll(TextOrEmpty(text), values)))
    ensures NotText(text) && values == [] ==> result == Some(text)
  {
    if NotText(text) {
      if values == [] {
        return Some(text);
      }
      return None;
    }
    var s := TextOrEmpty(text);
    for n := 0 to |values|
      invariant s == ApplyAll(TextOrEmpty(text), values[..n])
    {
      assert values[..n + 1][..n] == values[..n];
      s := ReplaceAll(s, values[n].0, values[n].1);
    }
    assert values[..|values|] == values;
    return Some(Str(s));
  }

  /** With a single key, `applyValues` replaces every `{{ key }}` token by its
      value ("" included) and leaves all other text, other tokens included,
      as it was. */
  lemma SingleKeySubstitutes(s: string, key: string, v: string)
    requires IsName(key) && '$' !in v
    ensures ApplyAll(s, [(key, v)]) == SubstituteFrom(s, key, v, 0)
  {
    assert [(key, v)][..0] == [];
    ReplaceIsSubstitute(s, key, v, 0);
  }

  /** A text that has no token named by any key is returned unchanged. */
  lemma {:induction false} ApplyAllWithoutTokens(s: string, values: Entries)
    requires forall i :: 0 <= i < |values| ==> IsName(values[i].0)
    requires forall i, j :: 0 <= i < |values| && 0 <= j <= |s| && TokenAt(s, j).Some? ==>
               TokenAt(s, j).value.name != values[i].0
    ensures ApplyAll(s, values) == s
  {
    if values != [] {
      var init := values[..|values| - 1];
      ApplyAllWithoutTokens(s, init);
      ReplaceWithoutToken(s, values[|values| - 1].0, values[|values| - 1].1);
    }
  }
}
