/** `GGBObject.html_string_repr` (lib/curated_ggb_classes.py): a fold of
    `str.replace` over the entries of its replacement dict, in dict order. */
module Escape {
  import opened Strings

  /** One entry of the replacement dict: a character and its entity. */
  type Rule = (char, string)

  /** The replacement dict of `html_string_repr`, in insertion order. */
  const HtmlRules: seq<Rule> := [('\'', "&apos;"), ('\n', "&#xa;"), ('<', "&lt;"), ('>', "&gt;"), ('"', "&quot;")]

  /** `for key, value in rules: s = s.replace(key, value)` */
  function ReplaceChain(s: string, rules: seq<Rule>): string
    decreases |rules|
  {
    if rules == [] then s else ReplaceChain(Replace(s, rules[0].0, rules[0].1), rules[1..])
  }

  function HtmlStringRepr(s: string): string
  {
    ReplaceChain(s, HtmlRules)
  }

  /** The characters the replacement dict escapes. */
  predicate IsSpecial(c: char)
  {
    c == '\'' || c == '\n' || c == '<' || c == '>' || c == '"'
  }

  predicate NoSpecial(s: string)
  {
    forall i :: 0 <= i < |s| ==> !IsSpecial(s[i])
  }

  /** An independent reading of the escape: each character on its own. */
  function EscapeChar(c: char): string
  {
    if c == '\'' then "&apos;"
    else if c == '\n' then "&#xa;"
    else if c == '<' then "&lt;"
    else if c == '>' then "&gt;"
    else if c == '"' then "&quot;"
    else [c]
  }

  function EscapeChars(s: string): string
  {
    if s == [] then [] else EscapeChar(s[0]) + EscapeChars(s[1..])
  }

  // ---- the fold of replaces, for any rule list ----

  /** What a rule list makes of one character: the first matching rule's
      text, or the character itself. */
  function FirstImage(c: char, rules: seq<Rule>): string
  {
    if rules == [] then [c] else if c == rules[0].0 then rules[0].1 else FirstImage(c, rules[1..])
  }

  /** No rule's text contains the key of a later rule. */
  predicate Independent(rules: seq<Rule>)
  {
    forall i, j :: 0 <= i < j < |rules| ==> rules[j].0 !in rules[i].1
  }

  lemma {:induction false} ChainAppend(a: string, b: string, rules: seq<Rule>)
    ensures ReplaceChain(a + b, rules) == ReplaceChain(a, rules) + ReplaceChain(b, rules)
    decreases |rules|
  {
    if rules != [] {
      ReplaceAppend(a, b, rules[0].0, rules[0].1);
      ChainAppend(Replace(a, rules[0].0, rules[0].1), Replace(b, rules[0].0, rules[0].1), rules[1..]);
    }
  }

  lemma {:induction false} ChainNoKeys(t: string, rules: seq<Rule>)
    requires forall i :: 0 <= i < |rules| ==> rules[i].0 !in t
    ensures ReplaceChain(t, rules) == t
    decreases |rules|
  {
    if rules != [] {
      ChainNoKeys(t, rules[1..]);
    }
  }

  lemma ReplaceSingle(c: char, k: char, rep: string)
    ensures Replace([c], k, rep) == if c == k then rep else [c]
  {
    assert [c][1..] == [];
  }

  /** With independent rules, a character is replaced by the first rule
      that matches it and no later rule touches the result. */
  lemma {:induction false} ChainSingle(c: char, rules: seq<Rule>)
    requires Independent(rules)
    ensures ReplaceChain([c], rules) == FirstImage(c, rules)
    decreases |rules|
  {
    if rules != [] {
      ReplaceSingle(c, rules[0].0, rules[0].1);
      if c == rules[0].0 {
        ChainNoKeys(rules[0].1, rules[1..]);
      } else {
        ChainSingle(c, rules[1..]);
      }
    }
  }

  lemma HtmlRulesIndependent()
    ensures Independent(HtmlRules)
  {
  }

  lemma EscapeCharIsFirstImage(c: char)
    ensures FirstImage(c, HtmlRules) == EscapeChar(c)
  {
    var r := HtmlRules;
    assert FirstImage(c, r) == if c == '\'' then "&apos;" else FirstImage(c, r[1..]);
    assert FirstImage(c, r[1..]) == if c == '\n' then "&#xa;" else FirstImage(c, r[2..]);
    assert FirstImage(c, r[2..]) == if c == '<' then "&lt;" else FirstImage(c, r[3..]);
    assert FirstImage(c, r[3..]) == if c == '>' then "&gt;" else FirstImage(c, r[4..]);
    assert FirstImage(c, r[4..]) == if c == '"' then "&quot;" else FirstImage(c, r[5..]);
    assert r[5..] == [];
  }

  // ---- properties of html_string_repr ----

  /** The replace chain escapes character by character. */
  lemma {:induction false} HtmlStringReprIsPerChar(s: string)
    ensures HtmlStringRepr(s) == EscapeChars(s)
  {
    if s != [] {
      assert s == [s[0]] + s[1..];
      ChainAppend([s[0]], s[1..], HtmlRules);
      HtmlRulesIndependent();
      ChainSingle(s[0], HtmlRules);
      EscapeCharIsFirstImage(s[0]);
      HtmlStringReprIsPerChar(s[1..]);
    }
  }

  lemma {:induction false} EscapeCharsNoSpecial(s: string)
    ensures NoSpecial(EscapeChars(s))
  {
    if s != [] {
      EscapeCharsNoSpecial(s[1..]);
      var e := EscapeChar(s[0]);
      assert NoSpecial(e);
      assert EscapeChars(s) == e + EscapeChars(s[1..]);
    }
  }

  /** The output holds none of the five special characters. */
  lemma EscapedHasNoSpecial(s: string)
    ensures NoSpecial(HtmlStringRepr(s))
  {
    HtmlStringReprIsPerChar(s);
    EscapeCharsNoSpecial(s);
  }

  lemma {:induction false} EscapeCharsIdentity(s: string)
    requires NoSpecial(s)
    ensures EscapeChars(s) == s
  {
    if s != [] {
      EscapeCharsIdentity(s[1..]);
      assert s == [s[0]] + s[1..];
    }
  }

  /** A string without special characters is left alone. */
  lemma NoSpecialUnchanged(s: string)
    requires NoSpecial(s)
    ensures HtmlStringRepr(s) == s
  {
    HtmlStringReprIsPerChar(s);
    EscapeCharsIdentity(s);
  }

  /** Escaping twice is escaping once. */
  lemma HtmlStringReprIdempotent(s: string)
    ensures HtmlStringRepr(HtmlStringRepr(s)) == HtmlStringRepr(s)
  {
    EscapedHasNoSpecial(s);
    NoSpecialUnchanged(HtmlStringRepr(s));
  }

  /** '&' is not escaped: it passes through between the escaped parts, so an
      entity already in the text is not turned into `&amp;...`. */
  lemma AmpersandKept(a: string, b: string)
    ensures HtmlStringRepr(a + ['&'] + b) == HtmlStringRepr(a) + ['&'] + HtmlStringRepr(b)
  {
    ChainAppend(a + ['&'], b, HtmlRules);
    ChainAppend(a, ['&'], HtmlRules);
    HtmlRulesIndependent();
    ChainSingle('&', HtmlRules);
  }
}
