/** The class declarations lib/ggb_class_extractor.py derives from its tag
    survey: the tables with `element` dropped, the dependency sort, the
    quoted attribute values and the `create_ggb_class` call chosen for
    each tag other than `geogebra`. */
module ClassGen {
  import opened Wrappers
  import opened OrderedMap
  import opened Strings
  import opened Objects
  import opened Extractor

  // ---- dictionary helpers ----

  lemma {:induction false} LookupSnoc<V>(m: OMap<V>, x: (string, V), k: string)
    ensures Lookup(m + [x], k) == if HasKey(m, k) then Lookup(m, k) else if x.0 == k then Some(x.1) else None
    decreases |m|
  {
    if m != [] {
      assert (m + [x])[0] == m[0];
      if m[0].0 != k {
        assert (m + [x])[1..] == m[1..] + [x];
        LookupSnoc(m[1..], x, k);
        assert HasKey(m, k) <==> HasKey(m[1..], k) by {
          assert Keys(m) == [m[0].0] + Keys(m[1..]);
        }
      } else {
        assert Keys(m)[0] == k;
      }
    }
  }

  lemma UniqueSnoc<V>(m: OMap<V>, x: (string, V))
    requires Unique(m) && !HasKey(m, x.0)
    ensures Unique(m + [x])
  {
    forall i | 0 <= i < |m| ensures m[i].0 != x.0 {
      assert Keys(m)[i] == m[i].0;
    }
  }

  /** The entries of `m` whose key is not `t`, in order: the loops that
      `continue` past one tag. */
  function Without<V>(m: OMap<V>, t: string): OMap<V>
    decreases |m|
  {
    if m == [] then []
    else Without(m[..|m| - 1], t) + (if m[|m| - 1].0 == t then [] else [m[|m| - 1]])
  }

  /** Dropping `t` loses exactly that key. */
  lemma {:induction false} WithoutLookup<V>(m: OMap<V>, t: string, k: string)
    ensures Lookup(Without(m, t), k) == if k == t then None else Lookup(m, k)
    decreases |m|
  {
    if m != [] {
      var p, x := m[..|m| - 1], m[|m| - 1];
      assert m == p + [x];
      WithoutLookup(p, t, k);
      LookupSnoc(p, x, k);
      if x.0 != t {
        LookupSnoc(Without(p, t), x, k);
      } else {
        assert Without(m, t) == Without(p, t);
      }
    }
  }

  /** Dropping a key keeps the keys distinct. */
  lemma {:induction false} WithoutUnique<V>(m: OMap<V>, t: string)
    requires Unique(m)
    ensures Unique(Without(m, t))
    decreases |m|
  {
    if m != [] {
      var p, x := m[..|m| - 1], m[|m| - 1];
      WithoutUnique(p, t);
      if x.0 != t {
        NotBefore(m, |m| - 1);
        WithoutLookup(p, t, x.0);
        UniqueSnoc(Without(p, t), x);
      }
    }
  }

  /** In a dictionary, the key at `k` is not among the keys before it. */
  lemma NotBefore<V>(m: OMap<V>, k: nat)
    requires Unique(m) && k < |m|
    ensures !HasKey(m[..k], m[k].0)
  {
    forall i | 0 <= i < k ensures Keys(m[..k])[i] != m[k].0 {
      assert m[..k][i] == m[i];
    }
  }

  // ---- the tables (lines 72-84) ----

  /** `for tag, attribs in tag_attribs.items(): if tag == 'element':
      continue; ...` into the empty `tag_attr_dict`. The survey's keys are
      distinct, so each tag is new when it is reached and the
      `tag_attr_dict[tag].update(attribs)` branch never runs. */
  method TagAttrTable(tagAttribs: OMap<OMap<string>>) returns (table: OMap<OMap<string>>)
    requires Unique(tagAttribs)
    ensures table == Without(tagAttribs, "element")
  {
    table := [];
    var k := 0;
    while k < |tagAttribs|
      invariant 0 <= k <= |tagAttribs|
      invariant table == Without(tagAttribs[..k], "element")
    {
      var (tag, attribs) := tagAttribs[k];
      assert tagAttribs[..k + 1][..k] == tagAttribs[..k];
      if tag != "element" {
        NotBefore(tagAttribs, k);
        WithoutLookup(tagAttribs[..k], "element", tag);
        if !HasKey(table, tag) {
          table := Put(table, tag, attribs);
        } else {
          assert false;
        }
      }
      k := k + 1;
    }
    assert tagAttribs[..k] == tagAttribs;
  }

  /** `for tag, child_tags in tag_children.items(): ...` into the empty
      `tag_children_dict`: a copy, since every tag is new when reached and
      the `list(set(...))` branch never runs. */
  method TagChildTable(tagChildren: OMap<seq<string>>) returns (table: OMap<seq<string>>)
    requires Unique(tagChildren)
    ensures table == tagChildren
  {
    table := [];
    var k := 0;
    while k < |tagChildren|
      invariant 0 <= k <= |tagChildren|
      invariant table == tagChildren[..k]
    {
      var (tag, childTags) := tagChildren[k];
      NotBefore(tagChildren, k);
      if !HasKey(table, tag) {
        table := Put(table, tag, childTags);
        assert table == tagChildren[..k + 1];
      } else {
        assert false;
      }
      k := k + 1;
    }
    assert tagChildren[..k] == tagChildren;
  }

  // ---- get_child_tags and compare (lines 93-110) ----

  /** Evaluating `tag_children_dict[name]`: an unbound name raises
      `NameError`, a missing key raises `KeyError`. */
  datatype Outcome = Raised | Returned(tags: seq<string>)

  function Subscript(table: OMap<seq<string>>, scope: OMap<string>, name: string): Outcome
  {
    match Lookup(scope, name)
    case None => Raised
    case Some(key) =>
      match Lookup(table, key)
      case None => Raised
      case Some(l) => Returned(l)
  }

  /** `try: return ... except: return []` */
  function OrEmpty(o: Outcome): seq<string>
  {
    match o
    case Raised => []
    case Returned(l) => l
  }

  /** The names `get_child_tags` sees: its parameter `tag`. Neither it
      nor the enclosing function binds `tag2`. */
  function Scope(tag: string): OMap<string>
  {
    [("tag", tag)]
  }

  /** `get_child_tags(tag)` as written: it subscripts with `tag2`, which
      is unbound, and the bare `except` turns the error into `[]`. */
  function GetChildTagsAsWritten(table: OMap<seq<string>>, tag: string): (r: seq<string>)
    ensures r == []
  {
    OrEmpty(Subscript(table, Scope(tag), "tag2"))
  }

  /** `get_child_tags(tag)` reading its own parameter, as intended. */
  function GetChildTags(table: OMap<seq<string>>, tag: string): seq<string>
  {
    OrEmpty(Subscript(table, Scope(tag), "tag"))
  }

  /** The body of `compare` for two tags and their child lists. */
  function CompareTags(tag1: string, tags1: seq<string>, tag2: string, tags2: seq<string>): int
  {
    if tag1 in tags2 then 1
    else if tag2 in tags1 then -1
    else 0
  }

  type Entry = (string, OMap<string>)

  /** `compare` as written: every pair compares equal. */
  function CompareAsWritten(table: OMap<seq<string>>, p: Entry, q: Entry): (r: int)
    ensures r == 0
  {
    CompareTags(p.0, GetChildTagsAsWritten(table, p.0), q.0, GetChildTagsAsWritten(table, q.0))
  }

  /** `compare` over the intended `get_child_tags`. */
  function CompareFixed(table: OMap<seq<string>>, p: Entry, q: Entry): int
  {
    CompareTags(p.0, GetChildTags(table, p.0), q.0, GetChildTags(table, q.0))
  }

  /** The intended `get_child_tags` over the survey of a tree lists `x`
      under `t` exactly when some element with tag `t` has exactly one
      child with tag `x`, and lists it once. */
  lemma GetChildTagsOnTree(n: Node, t: string, x: string)
    ensures x in GetChildTags(ChildTagDict(n), t) <==> ListedAt(PreOrder(n), t, x)
    ensures NoDup(GetChildTags(ChildTagDict(n), t))
  {
    ChildTagsListed(n, t, x);
    AnyInPreOrder(n, t, x);
    ChildTagsNoDup(n, t);
  }

  /** The intended comparison over the survey of a tree puts a tag after
      one it occurs under, and before one that occurs under it. */
  lemma CompareOnTree(n: Node, p: Entry, q: Entry)
    ensures CompareFixed(ChildTagDict(n), p, q) == 1 <==> ListedAt(PreOrder(n), q.0, p.0)
    ensures CompareFixed(ChildTagDict(n), p, q) == -1 <==>
      !ListedAt(PreOrder(n), q.0, p.0) && ListedAt(PreOrder(n), p.0, q.0)
    ensures !(ListedAt(PreOrder(n), q.0, p.0) && ListedAt(PreOrder(n), p.0, q.0)) ==>
      CompareFixed(ChildTagDict(n), q, p) == -CompareFixed(ChildTagDict(n), p, q)
  {
    GetChildTagsOnTree(n, q.0, p.0);
    GetChildTagsOnTree(n, p.0, q.0);
  }

  /** A table in which `expression` is a child tag of `construction`:
      the code as written finds no child tags and compares the two equal,
      the intended code finds the child and orders it after its parent. */
  lemma ChildTagsFinding()
    ensures var table := [("construction", ["expression"])];
      GetChildTagsAsWritten(table, "construction") == [] &&
      GetChildTags(table, "construction") == ["expression"] &&
      CompareAsWritten(table, ("expression", []), ("construction", [])) == 0 &&
      CompareFixed(table, ("expression", []), ("construction", [])) == 1
  {
    var table := [("construction", ["expression"])];
    assert Lookup(Scope("construction"), "tag") == Some("construction");
    assert Lookup(table, "construction") == Some(["expression"]);
    assert Lookup(Scope("expression"), "tag") == Some("expression");
    assert Lookup(table, "expression") == None by {
      assert Lookup(table[1..], "expression") == None;
    }
  }

  /** The program as written, or with `get_child_tags` reading `tag` and
      the `create_ggb_class` arguments in their intended order. */
  datatype Version = AsWritten | Intended

  function ChildTagsIn(v: Version, table: OMap<seq<string>>, tag: string): seq<string>
  {
    match v
    case AsWritten => GetChildTagsAsWritten(table, tag)
    case Intended => GetChildTags(table, tag)
  }

  function CompareIn(v: Version, table: OMap<seq<string>>, p: Entry, q: Entry): int
  {
    match v
    case AsWritten => CompareAsWritten(table, p, q)
    case Intended => CompareFixed(table, p, q)
  }

  // ---- the sort (lines 112-114) ----

  /** One step of a stable insertion sort: `x` goes after every entry it
      is not less than. */
  function Insert(v: Version, table: OMap<seq<string>>, s: seq<Entry>, x: Entry): seq<Entry>
    decreases |s|
  {
    if s == [] || CompareIn(v, table, x, s[|s| - 1]) >= 0 then s + [x]
    else Insert(v, table, s[..|s| - 1], x) + [s[|s| - 1]]
  }

  /** `sorted(tag_attrs, key=cmp_to_key(compare))`, as a stable sort. */
  function Sort(v: Version, table: OMap<seq<string>>, xs: seq<Entry>): seq<Entry>
    decreases |xs|
  {
    if xs == [] then [] else Insert(v, table, Sort(v, table, xs[..|xs| - 1]), xs[|xs| - 1])
  }

  lemma {:induction false} InsertPermutes(v: Version, table: OMap<seq<string>>, s: seq<Entry>, x: Entry)
    ensures multiset(Insert(v, table, s, x)) == multiset(s) + multiset{x}
    decreases |s|
  {
    if s != [] && CompareIn(v, table, x, s[|s| - 1]) < 0 {
      InsertPermutes(v, table, s[..|s| - 1], x);
      assert s == s[..|s| - 1] + [s[|s| - 1]];
    }
  }

  /** The sort rearranges the entries and nothing more. */
  lemma {:induction false} SortPermutes(v: Version, table: OMap<seq<string>>, xs: seq<Entry>)
    ensures multiset(Sort(v, table, xs)) == multiset(xs)
    decreases |xs|
  {
    if xs != [] {
      SortPermutes(v, table, xs[..|xs| - 1]);
      InsertPermutes(v, table, Sort(v, table, xs[..|xs| - 1]), xs[|xs| - 1]);
      assert xs == xs[..|xs| - 1] + [xs[|xs| - 1]];
    }
  }

  lemma InsertLookup(v: Version, table: OMap<seq<string>>, s: seq<Entry>, x: Entry, k: string)
    requires Unique(s) && !HasKey(s, x.0)
    ensures Unique(Insert(v, table, s, x))
    ensures Lookup(Insert(v, table, s, x), k) == if k == x.0 then Some(x.1) else Lookup(s, k)
    decreases |s|
  {
    if s == [] || CompareIn(v, table, x, s[|s| - 1]) >= 0 {
      assert Insert(v, table, s, x) == s + [x];
      LookupSnoc(s, x, k);
      UniqueSnoc(s, x);
    } else {
      var p, y := s[..|s| - 1], s[|s| - 1];
      assert s == p + [y];
      NotBefore(s, |s| - 1);
      LookupSnoc(p, y, x.0);
      InsertLookup(v, table, p, x, k);
      InsertLookup(v, table, p, x, y.0);
      assert Insert(v, table, s, x) == Insert(v, table, p, x) + [y];
      InsertStep(p, y, x, Insert(v, table, p, x), k);
    }
  }

  /** Moving an entry `y` behind the inserted one keeps the lookups. */
  lemma InsertStep(p: seq<Entry>, y: Entry, x: Entry, q: seq<Entry>, k: string)
    requires Unique(q) && !HasKey(p, y.0) && y.0 != x.0
    requires Lookup(q, y.0) == Lookup(p, y.0)
    requires Lookup(q, k) == if k == x.0 then Some(x.1) else Lookup(p, k)
    ensures Unique(q + [y])
    ensures Lookup(q + [y], k) == if k == x.0 then Some(x.1) else Lookup(p + [y], k)
  {
    UniqueSnoc(q, y);
    LookupSnoc(q, y, k);
    LookupSnoc(p, y, k);
  }

  /** Sorting a dictionary's items keeps every key's value, and the keys
      distinct. */
  lemma {:induction false} SortLookup(v: Version, table: OMap<seq<string>>, xs: seq<Entry>, k: string)
    requires Unique(xs)
    ensures Unique(Sort(v, table, xs))
    ensures Lookup(Sort(v, table, xs), k) == Lookup(xs, k)
    decreases |xs|
  {
    if xs != [] {
      var p, x := xs[..|xs| - 1], xs[|xs| - 1];
      assert xs == p + [x];
      NotBefore(xs, |xs| - 1);
      SortLookup(v, table, p, k);
      SortLookup(v, table, p, x.0);
      InsertLookup(v, table, Sort(v, table, p), x, k);
      LookupSnoc(p, x, k);
    }
  }

  /** As written every pair compares equal, so the stable sort keeps the
      order it is given. */
  lemma {:induction false} SortAsWrittenKeepsOrder(table: OMap<seq<string>>, xs: seq<Entry>)
    ensures Sort(AsWritten, table, xs) == xs
    decreases |xs|
  {
    if xs != [] {
      SortAsWrittenKeepsOrder(table, xs[..|xs| - 1]);
      assert xs == xs[..|xs| - 1] + [xs[|xs| - 1]];
    }
  }

  /** No entry is directly followed by one that compares below it. With
      the lookup corrected, this says a tag is never directly followed by
      a tag that lists it as a child tag, unless it lists that tag too. */
  predicate Ascending(v: Version, table: OMap<seq<string>>, s: seq<Entry>)
  {
    forall i :: 0 < i < |s| ==> CompareIn(v, table, s[i], s[i - 1]) >= 0
  }

  /** `compare` is -1 only where the reversed call is 1. */
  lemma CompareFlip(v: Version, table: OMap<seq<string>>, p: Entry, q: Entry)
    ensures CompareIn(v, table, p, q) == -1 ==> CompareIn(v, table, q, p) == 1
  {
  }

  lemma {:induction false} InsertLast(v: Version, table: OMap<seq<string>>, s: seq<Entry>, x: Entry)
    ensures |Insert(v, table, s, x)| == |s| + 1
    ensures var r := Insert(v, table, s, x);
      r[|r| - 1] == x || (s != [] && r[|r| - 1] == s[|s| - 1] && CompareIn(v, table, x, s[|s| - 1]) == -1)
    decreases |s|
  {
    if s != [] && CompareIn(v, table, x, s[|s| - 1]) < 0 {
      InsertLast(v, table, s[..|s| - 1], x);
    }
  }

  lemma {:induction false} InsertAscending(v: Version, table: OMap<seq<string>>, s: seq<Entry>, x: Entry)
    requires Ascending(v, table, s)
    ensures Ascending(v, table, Insert(v, table, s, x))
    decreases |s|
  {
    if s != [] {
      var p, y := s[..|s| - 1], s[|s| - 1];
      if CompareIn(v, table, x, y) < 0 {
        assert Ascending(v, table, p);
        InsertAscending(v, table, p, x);
        InsertLast(v, table, p, x);
        var q := Insert(v, table, p, x);
        CompareFlip(v, table, x, y);
        assert CompareIn(v, table, y, q[|q| - 1]) >= 0;
        assert Insert(v, table, s, x) == q + [y];
      }
    }
  }

  /** The order the sort produces: no entry is directly followed by one
      that compares below it. */
  lemma {:induction false} SortAscending(v: Version, table: OMap<seq<string>>, xs: seq<Entry>)
    ensures Ascending(v, table, Sort(v, table, xs))
    decreases |xs|
  {
    if xs != [] {
      SortAscending(v, table, xs[..|xs| - 1]);
      InsertAscending(v, table, Sort(v, table, xs[..|xs| - 1]), xs[|xs| - 1]);
    }
  }

  /** With the lookup corrected, the comparator puts `construction`, whose
      child tag `expression` is, before `expression`: the class that names
      a child class comes first. */
  lemma SortParentFirst()
    ensures var table := [("construction", ["expression"])];
      Sort(Intended, table, [("expression", []), ("construction", [])])
        == [("construction", []), ("expression", [])]
  {
    var table := [("construction", ["expression"])];
    var e, c := ("expression", []), ("construction", []);
    ChildTagsFinding();
    assert CompareFixed(table, c, e) == -1 by {
      assert Lookup(Scope("construction"), "tag") == Some("construction");
      assert Lookup(table, "construction") == Some(["expression"]);
    }
    assert CompareIn(Intended, table, c, e) == -1;
    assert [e, c][..1] == [e];
    assert Sort(Intended, table, [e]) == [e];
    assert Insert(Intended, table, [e], c) == Insert(Intended, table, [], c) + [e];
    assert Insert(Intended, table, [], c) == [c];
  }

  // ---- quoting the attribute values (lines 121-123) ----

  /** `'"' + value.replace('\n', '&#xa;') + '"'` */
  function Quote(value: string): string
  {
    "\"" + Replace(value, '\n', "&#xa;") + "\""
  }

  /** Reading an escaped value back: each `&#xa;` becomes a newline. */
  function Unescape(s: string): string
    decreases |s|
  {
    if s == [] then []
    else if StartsWith(s, "&#xa;") then "\n" + Unescape(s[5..])
    else [s[0]] + Unescape(s[1..])
  }

  /** Reading a quoted value back. */
  function Unquote(s: string): string
  {
    if 2 <= |s| && s[0] == '"' && s[|s| - 1] == '"' then Unescape(s[1..|s| - 1]) else s
  }

  /** An escaped value starts with text free of `&` only where the value
      itself does. */
  lemma {:induction false} EscapedStart(w: string, p: string)
    requires '&' !in p && StartsWith(Replace(w, '\n', "&#xa;"), p)
    ensures StartsWith(w, p)
    decreases |p|
  {
    if p != [] {
      var r := Replace(w, '\n', "&#xa;");
      assert r[0] == p[0];
      assert w != [];
      assert r == (if w[0] == '\n' then "&#xa;" else [w[0]]) + Replace(w[1..], '\n', "&#xa;");
      assert w[0] != '\n';
      assert r[1..|p|] == p[1..];
      EscapedStart(w[1..], p[1..]);
      assert w[..|p|] == [w[0]] + w[1..][..|p| - 1];
    }
  }

  /** `w` holds no `&#xa;`. */
  ghost predicate NoMark(w: string)
  {
    forall i :: 0 <= i <= |w| ==> !OccursAt(w, "&#xa;", i)
  }

  lemma NoMarkTail(w: string)
    requires w != [] && NoMark(w)
    ensures NoMark(w[1..]) && !OccursAt(w, "&#xa;", 0)
  {
    forall i | 0 <= i <= |w[1..]| ensures !OccursAt(w[1..], "&#xa;", i) {
      assert !OccursAt(w, "&#xa;", i + 1);
      if i + 5 <= |w[1..]| {
        assert w[1..][i..i + 5] == w[i + 1..i + 6];
      }
    }
  }

  /** A leading `&#xa;` in an escaped value that does not start with a
      newline is a `&#xa;` of the value itself. */
  lemma MarkStart(w: string)
    requires w != [] && w[0] != '\n' && StartsWith(Replace(w, '\n', "&#xa;"), "&#xa;")
    ensures OccursAt(w, "&#xa;", 0)
  {
    var r, rest := Replace(w, '\n', "&#xa;"), Replace(w[1..], '\n', "&#xa;");
    assert r == [w[0]] + rest;
    assert rest[..4] == r[1..5];
    EscapedStart(w[1..], "#xa;");
    assert w[..5] == [w[0]] + w[1..][..4];
  }

  /** Escaping a value that starts with something other than a newline
      or `&#xa;` does not produce a leading `&#xa;`. */
  lemma NoLeadingMark(w: string)
    requires w != [] && w[0] != '\n' && !OccursAt(w, "&#xa;", 0)
    ensures !StartsWith(Replace(w, '\n', "&#xa;"), "&#xa;")
  {
    if StartsWith(Replace(w, '\n', "&#xa;"), "&#xa;") {
      MarkStart(w);
    }
  }

  lemma {:induction false} UnescapeEscaped(w: string)
    requires NoMark(w)
    ensures Unescape(Replace(w, '\n', "&#xa;")) == w
    decreases |w|
  {
    if w != [] {
      var rest := Replace(w[1..], '\n', "&#xa;");
      NoMarkTail(w);
      UnescapeEscaped(w[1..]);
      if w[0] == '\n' {
        var r := "&#xa;" + rest;
        assert StartsWith(r, "&#xa;");
        assert r[5..] == rest;
      } else {
        var r := [w[0]] + rest;
        NoLeadingMark(w);
        assert r[1..] == rest;
      }
    }
  }

  /** A quoted value reads back as itself unless it holds the text
      `&#xa;`, which reads back as a newline. */
  lemma QuoteRoundTrip(value: string)
    requires !Contains(value, "&#xa;")
    ensures Unquote(Quote(value)) == value
  {
    var q := Quote(value);
    assert q[1..|q| - 1] == Replace(value, '\n', "&#xa;");
    UnescapeEscaped(value);
  }

  /** A newline and the text `&#xa;` quote alike. */
  lemma QuoteCollides()
    ensures Quote("\n") == Quote("&#xa;")
  {
    assert Replace("\n", '\n', "&#xa;") == "&#xa;";
    assert Replace("&#xa;", '\n', "&#xa;") == "&#xa;";
  }

  lemma {:induction false} EscapedNoNewline(w: string)
    ensures '\n' !in Replace(w, '\n', "&#xa;")
    decreases |w|
  {
    if w != [] {
      EscapedNoNewline(w[1..]);
    }
  }

  /** A quoted value is wrapped in double quotes and holds no newline. */
  lemma QuoteShape(value: string)
    ensures 2 <= |Quote(value)| && Quote(value)[0] == '"' && Quote(value)[|Quote(value)| - 1] == '"'
    ensures '\n' !in Quote(value)
  {
    EscapedNoNewline(value);
  }

  /** `for (key, value) in attr_dict.items(): attr_dict[key] = '"' + ... + '"'`,
      each assignment overwriting the entry being visited. */
  method QuoteValues(attrDict: OMap<string>) returns (r: OMap<string>)
    ensures r == MapValues(attrDict, Quote)
  {
    r := attrDict;
    var k := 0;
    while k < |r|
      invariant 0 <= k <= |r| == |attrDict|
      invariant forall i :: 0 <= i < k ==> r[i] == (attrDict[i].0, Quote(attrDict[i].1))
      invariant forall i :: k <= i < |r| ==> r[i] == attrDict[i]
    {
      var (key, value) := r[k];
      value := Replace(value, '\n', "&#xa;");
      r := r[k := (key, "\"" + value + "\"")];
      k := k + 1;
    }
  }

  // ---- the generated calls (lines 116-144) ----

  /** A class to declare: its tag, its quoted attribute values and its
      child tags. */
  datatype ClassDecl = ClassDecl(tag: string, attrs: OMap<string>, children: seq<string>)

  /** One emitted `create_ggb_class` call: the variable assigned, the
      class name, the `tag=` value, and the `attrs=` and `children=`
      arguments when they are passed. */
  datatype Call = Call(variable: string, name: string, tag: string,
                       attrs: Option<OMap<string>>, children: Option<seq<string>>)

  function Declare(v: Version, table: OMap<seq<string>>, e: Entry): ClassDecl
  {
    ClassDecl(e.0, MapValues(e.1, Quote), ChildTagsIn(v, table, e.0))
  }

  /** The four branches of the code generation as written: the third
      passes `tag` as the class name and the capitalised tag as `tag=`. */
  function CallAsWritten(d: ClassDecl): Call
  {
    var cap := Capitalize(d.tag);
    if |d.attrs| != 0 then
      if |d.children| > 0 then Call(cap, cap, d.tag, Some(d.attrs), Some(d.children))
      else Call(cap, cap, d.tag, Some(d.attrs), None)
    else if |d.children| > 0 then Call(cap, d.tag, cap, None, Some(d.children))
    else Call(cap, cap, d.tag, None, None)
  }

  /** The call with the arguments in their intended order in every branch. */
  function CallIntended(d: ClassDecl): Call
  {
    var cap := Capitalize(d.tag);
    Call(cap, cap, d.tag,
         if |d.attrs| != 0 then Some(d.attrs) else None,
         if |d.children| > 0 then Some(d.children) else None)
  }

  function CallIn(v: Version, d: ClassDecl): Call
  {
    match v
    case AsWritten => CallAsWritten(d)
    case Intended => CallIntended(d)
  }

  /** The two agree except on a tag without attributes but with child
      tags, whose capitalised form differs from it. */
  lemma CallsAgree(d: ClassDecl)
    ensures CallAsWritten(d) == CallIntended(d) <==>
      |d.attrs| != 0 || |d.children| == 0 || Capitalize(d.tag) == d.tag
  {
  }

  /** A `construction` without attributes whose one child is an
      `expression`: the call as written declares a class named
      `construction` for the tag `Construction`. */
  lemma CallSwapFinding()
    ensures var d := ClassDecl("construction", [], ["expression"]);
      CallAsWritten(d).name == "construction" && CallAsWritten(d).tag != "construction" &&
      CallIntended(d).tag == "construction" && CallIntended(d).name != "construction"
  {
    var d := ClassDecl("construction", [], ["expression"]);
    assert Capitalize(d.tag)[0] == 'C';
  }

  /** The `code` list built from the sorted table. */
  function Generated(v: Version, table: OMap<seq<string>>, entries: OMap<OMap<string>>): seq<Call>
  {
    var w := Without(entries, "geogebra");
    seq(|w|, i requires 0 <= i < |w| => CallIn(v, Declare(v, table, w[i])))
  }

  lemma GeneratedSnoc(v: Version, table: OMap<seq<string>>, entries: OMap<OMap<string>>, e: Entry)
    ensures Generated(v, table, entries + [e]) ==
      Generated(v, table, entries) + (if e.0 == "geogebra" then [] else [CallIn(v, Declare(v, table, e))])
  {
    assert (entries + [e])[..|entries|] == entries;
  }

  /** `extract_classes_from_ggb_file` after the file has been parsed: the
      survey, the two tables, the sort and the calls. */
  function ExtractedCode(v: Version, root: Node): seq<Call>
  {
    var table := ChildTagDict(root);
    Generated(v, table, Sort(v, table, Without(AttrDict(root), "element")))
  }

  /** The loop over the sorted `tag_attr_dict`, skipping `geogebra`. */
  method GenerateCode(entries: OMap<OMap<string>>, table: OMap<seq<string>>) returns (code: seq<Call>)
    ensures code == Generated(Intended, table, entries)
  {
    code := [];
    var k := 0;
    while k < |entries|
      invariant 0 <= k <= |entries|
      invariant code == Generated(Intended, table, entries[..k])
    {
      var (tag, attribs) := entries[k];
      assert entries[..k + 1] == entries[..k] + [(tag, attribs)];
      GeneratedSnoc(Intended, table, entries[..k], (tag, attribs));
      if tag != "geogebra" {
        var childTags := GetChildTags(table, tag);
        var attrDict := QuoteValues(attribs);
        var tagCap := Capitalize(tag);
        if |attribs| != 0 {
          if |childTags| > 0 {
            code := code + [Call(tagCap, tagCap, tag, Some(attrDict), Some(childTags))];
          } else {
            code := code + [Call(tagCap, tagCap, tag, Some(attrDict), None)];
          }
        } else {
          if |childTags| > 0 {
            code := code + [Call(tagCap, tagCap, tag, None, Some(childTags))];
          } else {
            code := code + [Call(tagCap, tagCap, tag, None, None)];
          }
        }
      }
      k := k + 1;
    }
    assert entries[..k] == entries;
  }

  /** The whole extraction on a parsed tree, with `get_child_tags` and
      the call arguments as intended. */
  method ExtractClasses(root: Node) returns (code: seq<Call>)
    ensures code == ExtractedCode(Intended, root)
  {
    var tagAttribs := AttrDictFromNode(root);
    var tagChildren := ChildTagsFromNode(root);
    SurveyKeys(root, AttribOf, AddAttribs);
    SurveyKeys(root, UniqueChildTags, AppendMissing);
    var attrTable := TagAttrTable(tagAttribs);
    var childTable := TagChildTable(tagChildren);
    var sorted := Sort(Intended, childTable, attrTable);
    code := GenerateCode(sorted, childTable);
  }

  // ---- what the extraction produces ----

  /** After dropping `g` from a dictionary, an entry has key `t` exactly
      when `t` is a key other than `g`, and it carries `t`'s value. */
  lemma WithoutEntries<V>(m: OMap<V>, g: string, t: string)
    requires Unique(m)
    ensures Unique(Without(m, g))
    ensures (exists i :: 0 <= i < |Without(m, g)| && Without(m, g)[i].0 == t) <==> t != g && HasKey(m, t)
    ensures forall i :: 0 <= i < |Without(m, g)| && Without(m, g)[i].0 == t ==> Lookup(m, t) == Some(Without(m, g)[i].1)
  {
    var w := Without(m, g);
    WithoutUnique(m, g);
    WithoutLookup(m, g, t);
    if HasKey(w, t) {
      var i :| 0 <= i < |w| && Keys(w)[i] == t;
      assert w[i].0 == t;
    }
    forall i | 0 <= i < |w| && w[i].0 == t ensures Lookup(m, t) == Some(w[i].1) {
      LookupUnique(w, i);
    }
    forall i | 0 <= i < |w| && w[i].0 == t ensures HasKey(w, t) {
      assert Keys(w)[i] == t;
    }
  }

  /** `ChildList(c)`: the child tags a call passes, none when it passes
      no `children=`. */
  function ChildList(c: Call): seq<string>
  {
    match c.children
    case None => []
    case Some(l) => l
  }

  /** The entries the intended extraction declares: the survey's tags other
      than `element` and `geogebra`, sorted, each with its own attributes. */
  lemma IntendedEntries(root: Node, t: string)
    ensures var table := ChildTagDict(root);
      var w := Without(Sort(Intended, table, Without(AttrDict(root), "element")), "geogebra");
      Unique(w) &&
      ((exists i :: 0 <= i < |w| && w[i].0 == t) <==> Occurs(PreOrder(root), t) && t != "element" && t != "geogebra") &&
      forall i :: 0 <= i < |w| && w[i].0 == t ==> Lookup(AttrDict(root), t) == Some(w[i].1)
  {
    var table := ChildTagDict(root);
    var e := Without(AttrDict(root), "element");
    var s := Sort(Intended, table, e);
    SurveyKeys(root, AttribOf, AddAttribs);
    WithoutUnique(AttrDict(root), "element");
    WithoutLookup(AttrDict(root), "element", t);
    SortLookup(Intended, table, e, t);
    WithoutEntries(s, "geogebra", t);
  }

  /** The intended extraction emits one call per tag of the file other than
      `element` and `geogebra`, each under the capitalised tag, with the
      tag's quoted attributes and the child tags found under it. */
  lemma IntendedCode(root: Node, t: string)
    ensures var c := ExtractedCode(Intended, root);
      (exists i :: 0 <= i < |c| && c[i].tag == t) <==> Occurs(PreOrder(root), t) && t != "element" && t != "geogebra"
    ensures var c := ExtractedCode(Intended, root);
      forall i :: 0 <= i < |c| && c[i].tag == t ==>
        c[i].variable == Capitalize(t) && c[i].name == Capitalize(t) &&
        Lookup(AttrDict(root), t).Some? &&
        c[i].attrs == (var a := Lookup(AttrDict(root), t).value; if |a| != 0 then Some(MapValues(a, Quote)) else None) &&
        ChildList(c[i]) == GetChildTags(ChildTagDict(root), t)
    ensures var c := ExtractedCode(Intended, root);
      forall i, j :: 0 <= i < j < |c| ==> c[i].tag != c[j].tag
  {
    var table := ChildTagDict(root);
    var w := Without(Sort(Intended, table, Without(AttrDict(root), "element")), "geogebra");
    var c := ExtractedCode(Intended, root);
    IntendedEntries(root, t);
    assert forall i :: 0 <= i < |c| ==> c[i].tag == w[i].0;
  }

  /** As written, the sort keeps the survey's order and every call is
      emitted without child tags, so the swapped branch is never reached. */
  lemma AsWrittenCode(root: Node)
    ensures var w := Without(Without(AttrDict(root), "element"), "geogebra");
      var c := ExtractedCode(AsWritten, root);
      |c| == |w| &&
      forall i :: 0 <= i < |c| ==>
        c[i] == Call(Capitalize(w[i].0), Capitalize(w[i].0), w[i].0,
                     if |w[i].1| != 0 then Some(MapValues(w[i].1, Quote)) else None, None)
  {
    var table := ChildTagDict(root);
    SortAsWrittenKeepsOrder(table, Without(AttrDict(root), "element"));
  }
}
