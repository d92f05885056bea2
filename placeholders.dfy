/** The placeholder scanner of the options page (options/options.js,
    `collectPlaceholders`): the tokens `{{ name }}` of the pattern
    `/{{\s*([\w-]+)\s*}}/g`, found by an `exec` loop and kept in a `Set`. */
module Placeholders {
  import opened Text
  import opened Wrappers
  import opened JsValue

  /** The position just past the run of `[\w-]` characters that starts at `i`. */
  function SkipName(s: string, i: nat): (j: nat)
    requires i <= |s|
    ensures i <= j <= |s|
    ensures j == |s| || !IsNameChar(s[j])
    decreases |s| - i
  {
    if i < |s| && IsNameChar(s[i]) then SkipName(s, i + 1) else i
  }

  /** Everything SkipName passes over is a name character. */
  lemma {:induction false} SkipNameSpec(s: string, i: nat)
    requires i <= |s|
    ensures forall k :: i <= k < SkipName(s, i) ==> IsNameChar(s[k])
    decreases |s| - i
  {
    if i < |s| && IsNameChar(s[i]) { SkipNameSpec(s, i + 1); }
  }

  lemma {:induction false} SkipNameTo(s: string, i: nat, j: nat)
    requires i <= j < |s| && !IsNameChar(s[j])
    requires forall k :: i <= k < j ==> IsNameChar(s[k])
    ensures SkipName(s, i) == j
    decreases j - i
  {
    if i < j { SkipNameTo(s, i + 1, j); }
  }

  /** A token: the captured name and the position just past the closing braces. */
  datatype Token = Token(name: string, end: nat)

  /** The match of the placeholder pattern that starts exactly at `i`. The
      quantifiers are greedy; a name character is neither a space nor a
      brace, so no backtracking can produce another match (see
      MatchIsTokenAt). */
  function TokenAt(s: string, i: nat): (t: Option<Token>)
    requires i <= |s|
    ensures t.Some? ==> i + 5 <= t.value.end <= |s| && IsName(t.value.name)
  {
    if i + 2 <= |s| && s[i] == '{' && s[i + 1] == '{' then
      var a := SkipSpaces(s, i + 2);
      var b := SkipName(s, a);
      var c := SkipSpaces(s, b);
      if a < b && c + 2 <= |s| && s[c] == '}' && s[c + 1] == '}' then
        SkipNameSpec(s, a);
        Some(Token(s[a..b], c + 2))
      else None
    else None
  }

  /** The pattern read declaratively: `{{` at `i`, spaces on [i+2, a), a
      non-empty name on [a, b), spaces on [b, c), `}}` at `c`. */
  ghost predicate MatchesAt(s: string, i: nat, a: nat, b: nat, c: nat) {
    i + 2 <= a < b <= c && c + 2 <= |s| &&
    s[i] == '{' && s[i + 1] == '{' &&
    (forall k :: i + 2 <= k < a ==> IsSpace(s[k])) &&
    (forall k :: a <= k < b ==> IsNameChar(s[k])) &&
    (forall k :: b <= k < c ==> IsSpace(s[k])) &&
    s[c] == '}' && s[c + 1] == '}'
  }

  /** Every way of matching the pattern at `i` is the one TokenAt finds. */
  lemma MatchIsTokenAt(s: string, i: nat, a: nat, b: nat, c: nat)
    requires MatchesAt(s, i, a, b, c)
    ensures TokenAt(s, i) == Some(Token(s[a..b], c + 2))
  {
    assert !IsSpace(s[a]);
    SkipSpacesTo(s, i + 2, a);
    assert !IsNameChar(s[b]) by {
      if b < c { assert IsSpace(s[b]); } else { assert s[b] == '}'; }
    }
    SkipNameTo(s, a, b);
    SkipSpacesTo(s, b, c);
  }

  /** What TokenAt finds is a match of the pattern. */
  lemma TokenAtMatches(s: string, i: nat)
    requires i <= |s| && TokenAt(s, i).Some?
    ensures exists a: nat, b: nat, c: nat :: MatchesAt(s, i, a, b, c) &&
              TokenAt(s, i) == Some(Token(s[a..b], c + 2))
  {
    var a := SkipSpaces(s, i + 2);
    var b := SkipName(s, a);
    var c := SkipSpaces(s, b);
    SkipSpacesSpec(s, i + 2);
    SkipNameSpec(s, a);
    SkipSpacesSpec(s, b);
    assert MatchesAt(s, i, a, b, c);
  }

  /** No token starts strictly inside another one. */
  lemma NoTokenInside(s: string, i: nat, k: nat)
    requires i <= |s| && TokenAt(s, i).Some?
    requires i < k < TokenAt(s, i).value.end
    ensures TokenAt(s, k) == None
  {
    var a := SkipSpaces(s, i + 2);
    var b := SkipName(s, a);
    var c := SkipSpaces(s, b);
    SkipSpacesSpec(s, i + 2);
    SkipNameSpec(s, a);
    SkipSpacesSpec(s, b);
    if k == i + 1 {
      assert s[k + 1] != '{' by {
        if a > i + 2 { assert IsSpace(s[i + 2]); } else { assert IsNameChar(s[i + 2]); }
      }
    } else if k < a {
      assert IsSpace(s[k]);
    } else if k < b {
      assert IsNameChar(s[k]);
    } else if k < c {
      assert IsSpace(s[k]);
    } else {
      assert s[k] == '}';
    }
  }

  /** The names of the successive matches of the global pattern, searching
      from position `i` (each search resumes where the last match ended). */
  function Names(s: string, i: nat): seq<string>
    requires i <= |s|
    decreases |s| - i
  {
    if i == |s| then []
    else match TokenAt(s, i)
      case Some(t) => [t.name] + Names(s, t.end)
      case None => Names(s, i + 1)
  }

  /** `collectPlaceholders(text)`, as the elements of the returned `Set` in
      insertion order. */
  function Placeholders(text: Value): seq<string>
  {
    Dedup(Names(TextOrEmpty(text), 0))
  }

  /** The `exec` loop that fills the `Set`. */
  method CollectPlaceholders(text: Value) returns (names: seq<string>)
    ensures names == Placeholders(text)
  {
    var s := TextOrEmpty(text);
    names := [];
    ghost var found: seq<string> := [];
    var pos := 0;
    while pos < |s|
      invariant pos <= |s|
      invariant found + Names(s, pos) == Names(s, 0)
      invariant names == Dedup(found)
      decreases |s| - pos
    {
      names, found, pos := ExecOnce(s, pos, names, found);
    }
    assert found + Names(s, pos) == found;
  }

  /** One call of `exec` from `pos`: a match adds its name to the set and
      moves past the match; no match here moves one character on. */
  method ExecOnce(s: string, pos: nat, names: seq<string>, ghost found: seq<string>)
    returns (names': seq<string>, ghost found': seq<string>, pos': nat)
    requires pos < |s| && names == Dedup(found)
    ensures pos < pos' <= |s|
    ensures names' == Dedup(found')
    ensures found' + Names(s, pos') == found + Names(s, pos)
  {
    var t := TokenAt(s, pos);
    if t.Some? {
      assert Names(s, pos) == [t.value.name] + Names(s, t.value.end);
      assert (found + [t.value.name])[..|found|] == found;
      names' := if t.value.name in names then names else names + [t.value.name];
      found' := found + [t.value.name];
      pos' := t.value.end;
    } else {
      names', found', pos' := names, found, pos + 1;
    }
  }

  lemma {:induction false} NamesSound(s: string, i: nat, n: string)
    requires i <= |s| && n in Names(s, i)
    ensures exists j :: i <= j <= |s| && TokenAt(s, j).Some? && TokenAt(s, j).value.name == n
    decreases |s| - i
  {
    if i < |s| {
      match TokenAt(s, i)
      case Some(t) =>
        if n != t.name { NamesSound(s, t.end, n); }
      case None =>
        NamesSound(s, i + 1, n);
    }
  }

  lemma {:induction false} NamesComplete(s: string, i: nat, j: nat)
    requires i <= j <= |s| && TokenAt(s, j).Some?
    ensures TokenAt(s, j).value.name in Names(s, i)
    decreases |s| - i
  {
    match TokenAt(s, i)
    case Some(t) =>
      if i != j {
        if j < t.end { NoTokenInside(s, i, j); }
        NamesComplete(s, t.end, j);
      }
    case None =>
      NamesComplete(s, i + 1, j);
  }

  lemma {:induction false} NamesAreNames(s: string, i: nat)
    requires i <= |s|
    ensures forall n :: n in Names(s, i) ==> IsName(n)
    decreases |s| - i
  {
    if i < |s| {
      match TokenAt(s, i)
      case Some(t) => NamesAreNames(s, t.end);
      case None => NamesAreNames(s, i + 1);
    }
  }

  /** `collectPlaceholders` returns each name that some token of the text
      carries, once, in the order the scan first meets it; every name is a
      non-empty run of `[\w-]`, and a falsy text has none. */
  lemma PlaceholdersSpec(text: Value)
    ensures Distinct(Placeholders(text))
    ensures forall n :: n in Placeholders(text) ==> IsName(n)
    ensures forall n :: n in Placeholders(text) <==>
              exists j :: 0 <= j <= |TextOrEmpty(text)| && TokenAt(TextOrEmpty(text), j).Some? &&
                          TokenAt(TextOrEmpty(text), j).value.name == n
    ensures forall i, j :: 0 <= i < j < |Placeholders(text)| ==>
              FirstIndex(Names(TextOrEmpty(text), 0), Placeholders(text)[i]) <
              FirstIndex(Names(TextOrEmpty(text), 0), Placeholders(text)[j])
    ensures !Truthy(text) ==> Placeholders(text) == []
  {
    var s := TextOrEmpty(text);
    DedupSpec(Names(s, 0));
    NamesAreNames(s, 0);
    forall n ensures n in Placeholders(text) <==>
        exists j :: 0 <= j <= |s| && TokenAt(s, j).Some? && TokenAt(s, j).value.name == n
    {
      if n in Placeholders(text) {
        NamesSound(s, 0, n);
      }
      if exists j :: 0 <= j <= |s| && TokenAt(s, j).Some? && TokenAt(s, j).value.name == n {
        var j :| 0 <= j <= |s| && TokenAt(s, j).Some? && TokenAt(s, j).value.name == n;
        NamesComplete(s, 0, j);
      }
    }
  }
}
