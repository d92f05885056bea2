/** Worked cases of the value substitution in popup/popup.js: a greeting
    filled in from a value map, and a text on which the order of the keys
    decides the result, because each key's replacement is scanned again by
    the keys that follow it. */
module SubstitutionExamples {
  import opened Text
  import opened Wrappers
  import opened Placeholders
  import opened Substitution

  /** `{{ name }}` with surrounding spaces is matched as a whole. */
  lemma NameMatch()
    ensures KeyMatchAt("Hi {{ name }}", "name", 3) == Some(13)
  {
    var s := "Hi {{ name }}";
    assert SkipSpaces(s, 5) == 6;
    assert s[6..10] == "name";
    assert SkipSpaces(s, 10) == 11;
  }

  /** The greeting gets its name; a key without a placeholder changes nothing. */
  lemma GreetingFilledIn()
    ensures ApplyAll("Hi {{ name }}", [("name", "Al"), ("topic", "budget")]) == "Hi Al"
  {
    NameReplaced();
    TopicAbsent();
    var vs := [("name", "Al"), ("topic", "budget")];
    assert vs[..1] == [("name", "Al")] && vs[..1][..0] == [];
  }

  lemma NameReplaced()
    ensures ReplaceAll("Hi {{ name }}", "name", "Al") == "Hi Al"
  {
    var s := "Hi {{ name }}";
    NameMatch();
    assert KeyMatchAt(s, "name", 0) == None;
    assert KeyMatchAt(s, "name", 1) == None;
    assert KeyMatchAt(s, "name", 2) == None;
    assert ReplaceFrom(s, "name", "Al", 13) == "";
  }

  /** A text without braces is left as it is by any key. */
  lemma TopicAbsent()
    ensures ReplaceAll("Hi Al", "topic", "budget") == "Hi Al"
  {
    var t := "Hi Al";
    forall i | 0 <= i < |t| ensures KeyMatchAt(t, "topic", i) == None {
    }
    CopyUntil(t, "topic", "budget", 0, |t|);
    assert t[0..|t|] == t;
  }

  lemma InnerKMatch()
    ensures KeyMatchAt("{{{{k}}j}}", "k", 2) == Some(7)
  {
    assert SkipSpaces("{{{{k}}j}}", 4) == 4;
    assert SkipSpaces("{{{{k}}j}}", 5) == 5;
  }

  lemma EmptyKLeavesJ()
    ensures ReplaceAll("{{{{k}}j}}", "k", "") == "{{j}}"
  {
    var s := "{{{{k}}j}}";
    InnerKMatch();
    assert KeyMatchAt(s, "k", 0) == None;
    assert KeyMatchAt(s, "k", 1) == None;
    assert ReplaceFrom(s, "k", "", 7) == "j}}";
  }

  lemma JFilledIn()
    ensures ReplaceAll("{{j}}", "j", "X") == "X"
  {
    assert SkipSpaces("{{j}}", 2) == 2;
    assert SkipSpaces("{{j}}", 3) == 3;
    assert KeyMatchAt("{{j}}", "j", 0) == Some(5);
  }

  /** No `{{j}}` starts anywhere in the text before `k` is substituted. */
  lemma NoJAt(i: nat)
    requires i < |"{{{{k}}j}}"|
    ensures KeyMatchAt("{{{{k}}j}}", "j", i) == None
  {
    var s := "{{{{k}}j}}";
    if i <= 2 {
      assert SkipSpaces(s, i + 2) == i + 2;
      assert s[i + 2] != 'j';
    }
  }

  lemma NoJBeforeK()
    ensures ReplaceAll("{{{{k}}j}}", "j", "X") == "{{{{k}}j}}"
  {
    var s := "{{{{k}}j}}";
    forall i | 0 <= i < |s| ensures KeyMatchAt(s, "j", i) == None {
      NoJAt(i);
    }
    CopyUntil(s, "j", "X", 0, |s|);
    assert s[0..|s|] == s;
  }

  /** The result depends on the order of the value map's keys: substituting
      `k` first uncovers a `{{j}}` that a later `j` fills, while substituting
      `j` first finds nothing and leaves that `{{j}}` in the output. */
  lemma KeyOrderMatters()
    ensures ApplyAll("{{{{k}}j}}", [("k", ""), ("j", "X")]) == "X"
    ensures ApplyAll("{{{{k}}j}}", [("j", "X"), ("k", "")]) == "{{j}}"
  {
    var s := "{{{{k}}j}}";
    EmptyKLeavesJ();
    JFilledIn();
    NoJBeforeK();
    var kj := [("k", ""), ("j", "X")];
    assert kj[..1] == [("k", "")] && kj[..1][..0] == [];
    assert ApplyAll(s, kj[..1]) == "{{j}}";
    var jk := [("j", "X"), ("k", "")];
    assert jk[..1] == [("j", "X")] && jk[..1][..0] == [];
    assert ApplyAll(s, jk[..1]) == s;
  }
}
