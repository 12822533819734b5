/** The TeX stripper of the styling pass: `GeoGebra.strip_tex_cmd` and
    `GeoGebra.strip_tex` (lib/styling_logic.py:118-144), as written, which
    the caption pass uses, and in a corrected form. */
module Tex {
  import opened Wrappers
  import opened Strings

  // ---- brace depth ----

  /** How one character moves the brace counter of the scan. */
  function BraceStep(c: char): int
  {
    if c == '{' then 1 else if c == '}' then -1 else 0
  }

  /** The brace counter after scanning `p`. */
  function Depth(p: string): int
  {
    if p == [] then 0 else Depth(p[..|p| - 1]) + BraceStep(p[|p| - 1])
  }

  lemma DepthSnoc(s: string, i: nat)
    requires i < |s|
    ensures Depth(s[..i + 1]) == Depth(s[..i]) + BraceStep(s[i])
  {
    assert s[..i + 1][..i] == s[..i];
  }

  /** Every prefix of `t` opens at least as many braces as it closes, and
      `t` closes all it opens. */
  predicate Balanced(t: string)
  {
    Depth(t) == 0 && forall j :: 0 <= j <= |t| ==> Depth(t[..j]) >= 0
  }

  /** The brace scan from index `i` with the counter at `depth`: the first
      index at which the counter reaches -1. */
  function CloseFrom(s: string, i: nat, depth: int): Option<nat>
    requires i <= |s|
    decreases |s| - i
  {
    if i == |s| then None
    else if depth + BraceStep(s[i]) == -1 then Some(i)
    else CloseFrom(s, i + 1, depth + BraceStep(s[i]))
  }

  lemma {:induction false} CloseFromSpec(s: string, i: nat, depth: int)
    requires i <= |s| && depth == Depth(s[..i])
    requires forall j :: 0 <= j <= i ==> Depth(s[..j]) >= 0
    ensures CloseFrom(s, i, depth).Some? ==>
      var c := CloseFrom(s, i, depth).value;
      i <= c < |s| && s[c] == '}' && Depth(s[..c + 1]) == -1 &&
      forall j :: 0 <= j <= c ==> Depth(s[..j]) >= 0
    ensures CloseFrom(s, i, depth).None? ==> forall j :: 0 <= j <= |s| ==> Depth(s[..j]) >= 0
    decreases |s| - i
  {
    if i < |s| {
      DepthSnoc(s, i);
      if depth + BraceStep(s[i]) != -1 {
        CloseFromSpec(s, i + 1, depth + BraceStep(s[i]));
      }
    }
  }

  /** The index of the closing brace the scan of `strip_tex_cmd` stops at:
      the first `}` that brings the depth to -1, every shorter prefix being
      non-negative. */
  function FirstClose(s: string): (r: Option<nat>)
    ensures r.Some? ==> r.value < |s| && s[r.value] == '}' && Depth(s[..r.value + 1]) == -1
    ensures r.Some? ==> forall j :: 0 <= j <= r.value ==> Depth(s[..j]) >= 0
    ensures r.None? ==> forall j :: 0 <= j <= |s| ==> Depth(s[..j]) >= 0
  {
    CloseFromSpec(s, 0, 0);
    CloseFrom(s, 0, 0)
  }

  /** The brace-counting loop of `strip_tex_cmd`
      (lib/styling_logic.py:125-134): the index it stops at, or 0 when the
      counter never reaches -1. */
  method ScanClose(s: string) returns (close: nat)
    ensures close == (if FirstClose(s).Some? then FirstClose(s).value else 0)
  {
    var braceCount := 0;
    close := 0;
    var i := 0;
    while i < |s|
      invariant 0 <= i <= |s|
      invariant CloseFrom(s, i, braceCount) == FirstClose(s)
      decreases |s| - i
    {
      if s[i] == '{' {
        braceCount := braceCount + 1;
      } else if s[i] == '}' {
        braceCount := braceCount - 1;
      }
      if braceCount == -1 {
        close := i;
        return;
      }
      i := i + 1;
    }
  }

  /** A balanced text followed by `}` closes exactly at that brace. */
  lemma BalancedCloses(x: string, q: string)
    requires Balanced(x)
    ensures FirstClose(x + "}" + q) == Some(|x|)
  {
    var s := x + "}" + q;
    forall j | 0 <= j <= |x|
      ensures s[..j] == x[..j] && Depth(s[..j]) >= 0
    {
    }
    assert s[..|x|] == x;
    DepthSnoc(s, |x|);
  }

  // ---- strip_tex_cmd and strip_tex as written ----

  /** The command opener `\tag{` the code searches for. */
  function Command(tag: string): (cmd: string)
    ensures |cmd| == |tag| + 2
  {
    "\\" + tag + "{"
  }

  /** `strip_tex_cmd(string, tag)` as written (lib/styling_logic.py:118-136):
      the guard tests the bare tag, the search for `\tag{` may give -1,
      everything before the command is dropped, and when no brace closes the
      argument the first remaining character is deleted. The result never
      contains the tag, and each round makes the string shorter. */
  function StripTexCmd(s: string, tag: string): (r: string)
    requires tag != []
    ensures |r| <= |s|
    ensures Contains(s, tag) ==> |r| < |s|
    ensures !Contains(s, tag) ==> r == s
    ensures !Contains(r, tag)
    decreases |s|
  {
    if !Contains(s, tag) then s
    else
      var rest := AfterCommand(s, tag);
      StripTexCmd(DeleteAt(rest, CloseIndex(rest)), tag)
  }

  /** `string[index_behind_tag:]`: the text after the first `\tag{`, or
      after index `len(tag) + 1` when there is none (`find` gives -1). */
  function AfterCommand(s: string, tag: string): (rest: string)
    requires tag != [] && Contains(s, tag)
    ensures |rest| < |s|
  {
    assert |tag| <= |s|;
    var behind := Find(s, Command(tag)) + |tag| + 2;
    if behind <= |s| then s[behind..] else []
  }

  /** `close_brace_index`: where the scan stops, 0 when it never does. */
  function CloseIndex(rest: string): nat
  {
    if FirstClose(rest).Some? then FirstClose(rest).value else 0
  }

  /** `string[:i] + string[i + 1:]` for an index of the string, or of the
      empty string. */
  function DeleteAt(rest: string, i: nat): (r: string)
    requires rest == [] || i < |rest|
    ensures |r| == if rest == [] then 0 else |rest| - 1
  {
    if rest == [] then [] else rest[..i] + rest[i + 1..]
  }

  /** The recursive static method itself, running the brace scan as a
      loop. */
  method StripCmd(s: string, tag: string) returns (r: string)
    requires tag != []
    ensures r == StripTexCmd(s, tag)
    decreases |s|
  {
    if !Contains(s, tag) {
      return s;
    }
    var rest := AfterCommand(s, tag);
    var close := ScanClose(rest);
    r := StripCmd(DeleteAt(rest, close), tag);
  }

  /** Whether `strip_tex` treats the text as TeX: it starts and ends with
      `$`. */
  predicate Dollared(s: string)
  {
    |s| >= 1 && s[0] == '$' && s[|s| - 1] == '$'
  }

  /** `string[1:-1]` of a dollared text (empty for the text `$`). */
  function Undollar(s: string): (r: string)
    requires Dollared(s)
    ensures |r| == if |s| < 2 then 0 else |s| - 2
  {
    if |s| < 2 then [] else s[1..|s| - 1]
  }

  /** Wrapping a text in `$` and unwrapping it gives the text back. */
  lemma UndollarWrap(t: string)
    ensures Dollared("$" + t + "$") && Undollar("$" + t + "$") == t
  {
    assert ("$" + t + "$")[1..|t| + 1] == t;
  }

  /** `strip_tex(string)` as written (lib/styling_logic.py:138-144). */
  function StripTex(s: string): (r: string)
    ensures !Dollared(s) ==> r == s
    ensures Dollared(s) ==> r == StripTexCmd(Undollar(s), "boldsymbol")
  {
    if Dollared(s) then StripTexCmd(Undollar(s), "boldsymbol") else s
  }

  // ---- worked inputs of the stripper as written ----

  /** `$\boldsymbol{foo}$` gives `foo`. */
  lemma StripTexBold()
    ensures StripTex("$" + "\\boldsymbol{foo}" + "$") == "foo"
  {
    var tag, s := "boldsymbol", "\\boldsymbol{foo}";
    UndollarWrap(s);
    assert s == Command(tag) + "foo" + "}";
    NoBracesBalanced("foo");
    AsWrittenUnwrap("foo", tag);
  }

  /** Nested braces inside the argument are kept:
      `$\boldsymbol{a{b}c}$` gives `a{b}c`. */
  lemma StripTexNested()
    ensures StripTex("$" + "\\boldsymbol{a{b}c}" + "$") == "a{b}c"
  {
    var tag, s := "boldsymbol", "\\boldsymbol{a{b}c}";
    UndollarWrap(s);
    assert s == Command(tag) + "a{b}c" + "}";
    NestedBalanced();
    AsWrittenUnwrap("a{b}c", tag);
  }

  /** The bare word is erased: `$boldsymbol$` gives the empty text,
      because the guard finds `boldsymbol` while `find` of the opener gives
      -1. */
  lemma BareTagErased()
    ensures StripTex("$" + "boldsymbol" + "$") == ""
  {
    var tag := "boldsymbol";
    UndollarWrap(tag);
    assert OccursAt(tag, tag, 0);
    assert Find(tag, Command(tag)) == -1;
    assert AfterCommand(tag, tag) == [];
    assert !Contains([], tag);
  }

  /** The braces of `a{b}c` balance. */
  lemma NestedBalanced()
    ensures Balanced("a{b}c")
  {
    var t := "a{b}c";
    assert t[..0] == [] && t[..5] == t;
    DepthSnoc(t, 0);
    DepthSnoc(t, 1);
    DepthSnoc(t, 2);
    DepthSnoc(t, 3);
    DepthSnoc(t, 4);
  }

  /** A text without braces balances. */
  lemma {:induction false} NoBracesBalanced(t: string)
    requires forall i :: 0 <= i < |t| ==> BraceStep(t[i]) == 0
    ensures Balanced(t)
  {
    forall j | 0 <= j <= |t| ensures Depth(t[..j]) == 0 {
      NoBracesDepth(t, j);
    }
    assert t[..|t|] == t;
  }

  lemma {:induction false} NoBracesDepth(t: string, j: nat)
    requires j <= |t| && forall i :: 0 <= i < |t| ==> BraceStep(t[i]) == 0
    ensures Depth(t[..j]) == 0
  {
    if j > 0 {
      NoBracesDepth(t, j - 1);
      DepthSnoc(t, j - 1);
    }
  }

  /** Text before the command is dropped: `$a\boldsymbol{b}$` gives `b`. */
  lemma PrefixDropped()
    ensures StripTex("$" + "a\\boldsymbol{b}" + "$") == "b"
  {
    var tag, s := "boldsymbol", "a\\boldsymbol{b}";
    UndollarWrap(s);
    var cmd := Command(tag);
    assert s[2..2 + |tag|] == tag;
    ContainsAt(s, tag, 2);
    CommandAfterA();
    assert s[1 + |cmd|..] == "b}";
    assert AfterCommand(s, tag) == "b}";
    assert FirstClose("b}") == Some(1);
    assert DeleteAt("b}", 1) == "b";
    assert !Contains("b", tag);
  }

  /** An argument whose brace never closes loses its first character:
      `$\boldsymbol{ab$` gives `b`. */
  lemma UnclosedLosesChar()
    ensures StripTex("$" + "\\boldsymbol{ab" + "$") == "b"
  {
    var tag, s := "boldsymbol", "\\boldsymbol{ab";
    UndollarWrap(s);
    assert OccursAt(s, tag, 1);
    assert OccursAt(s, Command(tag), 0);
    assert AfterCommand(s, tag) == "ab";
    assert FirstClose("ab") == None;
    assert DeleteAt("ab", 0) == "b";
    assert !Contains("b", tag);
  }

  // ---- the corrected stripper ----

  /** `strip_tex_cmd` as evidently intended: only a real `\tag{` opener is
      stripped, the text before it is kept, its matching `}` is removed,
      and an opener whose brace never closes is removed alone. */
  function StripTexCmdFixed(s: string, tag: string): (r: string)
    ensures |r| <= |s|
    ensures !Contains(s, Command(tag)) ==> r == s
    ensures !Contains(r, Command(tag))
    decreases |s|
  {
    var k := Find(s, Command(tag));
    if k < 0 then s
    else
      var rest := s[k + |Command(tag)|..];
      if FirstClose(rest).Some? then
        var c := FirstClose(rest).value;
        StripTexCmdFixed(s[..k] + rest[..c] + rest[c + 1..], tag)
      else
        StripTexCmdFixed(s[..k] + rest, tag)
  }

  /** `strip_tex` over the corrected command stripper. */
  function StripTexFixed(s: string): (r: string)
    ensures !Dollared(s) ==> r == s
    ensures Dollared(s) ==> r == StripTexCmdFixed(Undollar(s), "boldsymbol")
  {
    if Dollared(s) then StripTexCmdFixed(Undollar(s), "boldsymbol") else s
  }

  /** The corrected stripper removes a command around a balanced argument
      free of further commands and keeps that argument exactly. */
  lemma FixedUnwrap(x: string, tag: string)
    requires Balanced(x) && !Contains(x, Command(tag))
    ensures StripTexCmdFixed(Command(tag) + x + "}", tag) == x
  {
    var cmd := Command(tag);
    var s := cmd + x + "}";
    assert s[..|cmd|] == cmd;
    assert OccursAt(s, cmd, 0);
    assert Find(s, cmd) == 0;
    var rest := s[|cmd|..];
    assert rest == x + "}" + "";
    BalancedCloses(x, "");
    assert s[..0] + rest[..|x|] + rest[|x| + 1..] == x;
  }

  /** The corrected stripper unwraps `$\boldsymbol{foo}$` to `foo`. */
  lemma FixedBold()
    ensures StripTexFixed("$" + "\\boldsymbol{foo}" + "$") == "foo"
  {
    var tag, s := "boldsymbol", "\\boldsymbol{foo}";
    UndollarWrap(s);
    assert s == Command(tag) + "foo" + "}";
    NoBracesBalanced("foo");
    FixedUnwrap("foo", tag);
  }

  /** The corrected stripper keeps nested braces:
      `$\boldsymbol{a{b}c}$` gives `a{b}c`. */
  lemma FixedNested()
    ensures StripTexFixed("$" + "\\boldsymbol{a{b}c}" + "$") == "a{b}c"
  {
    var tag, s := "boldsymbol", "\\boldsymbol{a{b}c}";
    UndollarWrap(s);
    assert s == Command(tag) + "a{b}c" + "}";
    NestedBalanced();
    FixedUnwrap("a{b}c", tag);
  }

  /** The corrected stripper leaves the bare word alone:
      `$boldsymbol$` gives `boldsymbol`. */
  lemma FixedBareTagKept()
    ensures StripTexFixed("$" + "boldsymbol" + "$") == "boldsymbol"
  {
    UndollarWrap("boldsymbol");
    assert !Contains("boldsymbol", Command("boldsymbol"));
  }

  /** The corrected stripper keeps the text before the command:
      `$a\boldsymbol{b}$` gives `ab`. */
  lemma FixedPrefixKept()
    ensures StripTexFixed("$" + "a\\boldsymbol{b}" + "$") == "ab"
  {
    var cmd, s := Command("boldsymbol"), "a\\boldsymbol{b}";
    UndollarWrap(s);
    CommandAfterA();
    assert s[1 + |cmd|..] == "b}";
    assert FirstClose("b}") == Some(1);
    assert s[..1] + "b" + "" == "ab";
    assert !Contains("ab", cmd);
  }

  /** In `a\boldsymbol{b}` the command starts at index 1. */
  lemma CommandAfterA()
    ensures Find("a\\boldsymbol{b}", Command("boldsymbol")) == 1
  {
    var cmd, s := Command("boldsymbol"), "a\\boldsymbol{b}";
    assert cmd == "\\boldsymbol{";
    assert s[1..1 + |cmd|] == cmd;
    assert s[0] != cmd[0];
    assert !OccursAt(s, cmd, 0);
  }

  /** The corrected stripper removes an unclosed opener alone:
      `$\boldsymbol{ab$` gives `ab`. */
  lemma FixedUnclosed()
    ensures StripTexFixed("$" + "\\boldsymbol{ab" + "$") == "ab"
  {
    var cmd, s := Command("boldsymbol"), "\\boldsymbol{ab";
    UndollarWrap(s);
    assert OccursAt(s, cmd, 0);
    assert s[|cmd|..] == "ab";
    assert FirstClose("ab") == None;
    assert s[..0] + "ab" == "ab";
    assert !Contains("ab", cmd);
  }

  // ---- the caption rewrite of set_caption_style ----

  /** A text that starts with `\tag{` holds the tag word, and the text
      after the command is what follows the opener. */
  lemma CommandFirst(tag: string, x: string)
    requires tag != []
    ensures Contains(Command(tag) + x, tag)
    ensures AfterCommand(Command(tag) + x, tag) == x
  {
    var cmd := Command(tag);
    var s := cmd + x;
    assert s[..|cmd|] == cmd;
    assert Find(s, cmd) == 0;
    assert s[1..1 + |tag|] == tag;
    ContainsAt(s, tag, 1);
    assert s[|cmd|..] == x;
  }

  /** The command stripper as written removes a command around a balanced
      argument that does not hold the tag word, and keeps that argument
      exactly. */
  lemma AsWrittenUnwrap(x: string, tag: string)
    requires tag != [] && Balanced(x) && !Contains(x, tag)
    ensures StripTexCmd(Command(tag) + x + "}", tag) == x
  {
    var cmd := Command(tag);
    var s := cmd + x + "}";
    assert s[..|cmd|] == cmd;
    assert Find(s, cmd) == 0;
    assert s[1..1 + |tag|] == tag;
    ContainsAt(s, tag, 1);
    var rest := AfterCommand(s, tag);
    assert rest == x + "}" + "" by {
      assert s[|cmd|..] == x + "}";
    }
    BalancedCloses(x, "");
    assert DeleteAt(rest, |x|) == x;
  }

  /** The new caption text `set_caption_style` writes
      (lib/styling_logic.py:78-83): the previous text through `strip_tex` as
      written, wrapped as `$…$` with TeX on and as `\boldsymbol{…}` inside
      that with bold on. */
  function CaptionText(prev: string, tex: bool, bold: bool): (r: string)
    ensures !tex ==> r == StripTex(prev)
    ensures tex ==> Dollared(r) && |r| >= 2
    ensures tex && !bold ==> Undollar(r) == StripTex(prev)
    ensures tex && bold ==> Undollar(r) == Command("boldsymbol") + StripTex(prev) + "}"
  {
    var t := StripTex(prev);
    if tex then
      var inner := if bold then Command("boldsymbol") + t + "}" else t;
      UndollarWrap(inner);
      "$" + inner + "$"
    else t
  }

  /** With TeX on, running the caption rewrite a second time changes
      nothing, provided the stripped text does not hold the word
      `boldsymbol` and, with bold on, its braces balance. */
  lemma CaptionStable(prev: string, bold: bool)
    requires !Contains(StripTex(prev), "boldsymbol")
    requires bold ==> Balanced(StripTex(prev))
    ensures CaptionText(CaptionText(prev, true, bold), true, bold) == CaptionText(prev, true, bold)
  {
    var t := StripTex(prev);
    var once := CaptionText(prev, true, bold);
    if bold {
      AsWrittenUnwrap(t, "boldsymbol");
    }
    assert StripTex(once) == t;
  }

  /** `strip_tex` of a TeX caption never leaves the word `boldsymbol`, so
      with bold off the second run is always a no-op. */
  lemma CaptionStableNoBold(prev: string)
    requires Dollared(prev)
    ensures CaptionText(CaptionText(prev, true, false), true, false) == CaptionText(prev, true, false)
  {
    CaptionStable(prev, false);
  }

  /** Balance is needed with bold on: the caption `{` becomes
      `$\boldsymbol{{}$`, and a second run, whose scan finds no closing
      brace and deletes the first character of the argument, writes
      `$\boldsymbol{}}$`. */
  lemma CaptionUnbalanced()
    ensures CaptionText("{", true, true) == "$" + Command("boldsymbol") + "{}" + "$"
    ensures CaptionText(CaptionText("{", true, true), true, true) == "$" + Command("boldsymbol") + "}}" + "$"
  {
    var cmd := Command("boldsymbol");
    var s := cmd + "{}";
    BoldOpenBrace();
    UndollarWrap(s);
    UnclosedAfterCommand();
    assert StripTex("$" + s + "$") == "}";
    assert cmd + "}" + "}" == cmd + "}}";
  }

  /** With bold on, the caption `{` becomes `$\boldsymbol{{}$`. */
  lemma BoldOpenBrace()
    ensures CaptionText("{", true, true) == "$" + (Command("boldsymbol") + "{}") + "$"
  {
    assert StripTex("{") == "{";
    assert Command("boldsymbol") + "{" + "}" == Command("boldsymbol") + "{}";
  }

  /** The scan finds no closing brace in `{}` after the opener, so the
      stripper as written deletes the `{` and keeps the `}`. */
  lemma UnclosedAfterCommand()
    ensures StripTexCmd(Command("boldsymbol") + "{}", "boldsymbol") == "}"
  {
    var tag := "boldsymbol";
    var s := Command(tag) + "{}";
    CommandFirst(tag, "{}");
    assert FirstClose("{}") == None;
    assert DeleteAt("{}", 0) == "}";
    assert !Contains("}", tag);
  }

  /** The caption text over the corrected stripper. */
  function CaptionTextFixed(prev: string, tex: bool, bold: bool): (r: string)
    ensures !tex ==> r == StripTexFixed(prev)
    ensures tex ==> Dollared(r) && |r| >= 2
    ensures tex && !bold ==> Undollar(r) == StripTexFixed(prev)
    ensures tex && bold ==> Undollar(r) == Command("boldsymbol") + StripTexFixed(prev) + "}"
  {
    var t := StripTexFixed(prev);
    if tex then
      var inner := if bold then Command("boldsymbol") + t + "}" else t;
      UndollarWrap(inner);
      "$" + inner + "$"
    else t
  }

  /** With the corrected stripper a second run is a no-op when the stripped
      text holds no `\boldsymbol{` and, with bold on, balances. */
  lemma CaptionFixedStable(prev: string, bold: bool)
    requires !Contains(StripTexFixed(prev), Command("boldsymbol"))
    requires bold ==> Balanced(StripTexFixed(prev))
    ensures CaptionTextFixed(CaptionTextFixed(prev, true, bold), true, bold) == CaptionTextFixed(prev, true, bold)
  {
    var t := StripTexFixed(prev);
    var once := CaptionTextFixed(prev, true, bold);
    if bold {
      FixedUnwrap(t, "boldsymbol");
    }
    assert StripTexFixed(once) == t;
  }

  /** The two caption texts differ on `$a\boldsymbol{b}$` with TeX off:
      the code writes `b`, the corrected stripper `ab`. */
  lemma CaptionTextsDiffer()
    ensures CaptionText("$" + "a\\boldsymbol{b}" + "$", false, false) == "b"
    ensures CaptionTextFixed("$" + "a\\boldsymbol{b}" + "$", false, false) == "ab"
  {
    PrefixDropped();
    FixedPrefixKept();
  }
}
