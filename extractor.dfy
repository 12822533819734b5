/** The tag survey of lib/ggb_class_extractor.py: for each tag of a parsed
    GeoGebra file, the attributes seen on elements with that tag and the
    child tags that occur once under such an element; then the attribute
    values quoted for the generated class declarations. */
module Extractor {
  import opened Wrappers
  import opened OrderedMap
  import opened Strings
  import opened Objects

  // ---- the survey of a tree ----

  /** The value a tag already has in the survey, combined with what one
      more entry brings: `found[tag]` is updated in place when the tag is
      there, and the entry is appended otherwise. */
  function MergeEntry<V>(acc: OMap<V>, t: string, v: V, comb: (V, V) -> V): OMap<V>
  {
    match Lookup(acc, t)
    case Some(x) => Put(acc, t, comb(x, v))
    case None => Put(acc, t, v)
  }

  /** `for tag, v in d.items(): ...` folding a child's survey into the
      survey built so far. */
  function Merge<V>(acc: OMap<V>, d: OMap<V>, comb: (V, V) -> V): OMap<V>
    decreases |d|
  {
    if d == [] then acc else Merge(MergeEntry(acc, d[0].0, d[0].1, comb), d[1..], comb)
  }

  /** What a survey holds for a tag after a merge: the two values combined
      when both sides have the tag, the one value when only one has it. */
  function Both<V>(x: Option<V>, y: Option<V>, comb: (V, V) -> V): Option<V>
  {
    match (x, y)
    case (Some(a), Some(b)) => Some(comb(a, b))
    case (Some(a), None) => Some(a)
    case (None, _) => y
  }

  lemma MergeEntryLookup<V>(acc: OMap<V>, t: string, v: V, comb: (V, V) -> V, k: string)
    ensures Lookup(MergeEntry(acc, t, v, comb), k) == if k == t then Both(Lookup(acc, t), Some(v), comb) else Lookup(acc, k)
    ensures Unique(acc) ==> Unique(MergeEntry(acc, t, v, comb))
  {
    var nv := match Lookup(acc, t) case Some(x) => comb(x, v) case None => v;
    assert MergeEntry(acc, t, v, comb) == Put(acc, t, nv);
    PutLookup(acc, t, nv, k);
    if Unique(acc) {
      PutUnique(acc, t, nv);
    }
  }

  lemma UniqueTail<V>(d: OMap<V>)
    requires d != [] && Unique(d)
    ensures Unique(d[1..]) && !HasKey(d[1..], d[0].0)
  {
    assert forall i :: 0 <= i < |d[1..]| ==> d[1..][i] == d[i + 1];
  }

  /** Merging a survey whose tags are distinct: each tag ends up with the
      combination of what both sides hold, and the tags stay distinct. */
  lemma {:induction false} MergeLookup<V>(acc: OMap<V>, d: OMap<V>, comb: (V, V) -> V, k: string)
    requires Unique(d)
    ensures Lookup(Merge(acc, d, comb), k) == Both(Lookup(acc, k), Lookup(d, k), comb)
    ensures Unique(acc) ==> Unique(Merge(acc, d, comb))
    decreases |d|
  {
    if d != [] {
      var acc1 := MergeEntry(acc, d[0].0, d[0].1, comb);
      UniqueTail(d);
      MergeEntryLookup(acc, d[0].0, d[0].1, comb, k);
      MergeLookup(acc1, d[1..], comb, k);
    }
  }

  /** The elements of a tree in document order (pre-order). */
  function PreOrder(n: Node): (r: seq<Node>)
    ensures r != [] && r[0] == n
    decreases n, 1, 0
  {
    [n] + PreOrderKids(n, |n.children|)
  }

  /** The pre-order of the first `i` children of `n`, one after another. */
  function PreOrderKids(n: Node, i: nat): seq<Node>
    requires i <= |n.children|
    decreases n, 0, i
  {
    if i == 0 then [] else PreOrderKids(n, i - 1) + PreOrder(n.children[i - 1])
  }

  /** Some element of `ns` has tag `t`. */
  predicate Occurs(ns: seq<Node>, t: string)
  {
    exists k :: 0 <= k < |ns| && ns[k].tag == t
  }

  lemma OccursAppend(a: seq<Node>, b: seq<Node>, t: string)
    ensures Occurs(a + b, t) <==> Occurs(a, t) || Occurs(b, t)
  {
    if Occurs(a + b, t) {
      var k :| 0 <= k < |a + b| && (a + b)[k].tag == t;
      if k >= |a| {
        assert b[k - |a|].tag == t;
      } else {
        assert a[k].tag == t;
      }
    }
    if Occurs(a, t) {
      var k :| 0 <= k < |a| && a[k].tag == t;
      assert (a + b)[k].tag == t;
    }
    if Occurs(b, t) {
      var k :| 0 <= k < |b| && b[k].tag == t;
      assert (a + b)[|a| + k].tag == t;
    }
  }

  /** The survey of a tree: the element's own entry, then the survey of
      each child folded in, in order. `leaf` gives an element's own value,
      `comb` how a value already found takes in another. */
  function Survey<V>(n: Node, leaf: Node -> V, comb: (V, V) -> V): OMap<V>
    decreases n, 1, 0
  {
    SurveyKids(n, |n.children|, leaf, comb)
  }

  function SurveyKids<V>(n: Node, i: nat, leaf: Node -> V, comb: (V, V) -> V): OMap<V>
    requires i <= |n.children|
    decreases n, 0, i
  {
    if i == 0 then [(n.tag, leaf(n))]
    else Merge(SurveyKids(n, i - 1, leaf, comb), Survey(n.children[i - 1], leaf, comb), comb)
  }

  /** A survey has exactly one entry per tag of the tree. */
  lemma {:induction false} SurveyKeys<V>(n: Node, leaf: Node -> V, comb: (V, V) -> V)
    ensures Unique(Survey(n, leaf, comb))
    ensures forall t :: HasKey(Survey(n, leaf, comb), t) <==> Occurs(PreOrder(n), t)
    decreases n, 1, 0
  {
    SurveyKidsKeys(n, |n.children|, leaf, comb);
    forall t ensures Occurs(PreOrder(n), t) <==> t == n.tag || Occurs(PreOrderKids(n, |n.children|), t) {
      OccursAppend([n], PreOrderKids(n, |n.children|), t);
    }
  }

  lemma SurveyKidsKeys<V>(n: Node, i: nat, leaf: Node -> V, comb: (V, V) -> V)
    requires i <= |n.children|
    ensures Unique(SurveyKids(n, i, leaf, comb))
    ensures forall t :: HasKey(SurveyKids(n, i, leaf, comb), t) <==> t == n.tag || Occurs(PreOrderKids(n, i), t)
    decreases n, 0, i
  {
    if i == 0 {
      forall t ensures HasKey(SurveyKids(n, i, leaf, comb), t) <==> t == n.tag {
        assert Keys(SurveyKids(n, i, leaf, comb)) == [n.tag];
      }
    } else {
      var acc := SurveyKids(n, i - 1, leaf, comb);
      var c := n.children[i - 1];
      var d := Survey(c, leaf, comb);
      SurveyKidsKeys(n, i - 1, leaf, comb);
      SurveyKeys(c, leaf, comb);
      forall t ensures HasKey(SurveyKids(n, i, leaf, comb), t) <==> t == n.tag || Occurs(PreOrderKids(n, i), t) {
        SurveyKidsStep(n, i, leaf, comb, t);
      }
      MergeLookup(acc, d, comb, n.tag);
    }
  }

  lemma SurveyKidsStep<V>(n: Node, i: nat, leaf: Node -> V, comb: (V, V) -> V, t: string)
    requires 0 < i <= |n.children|
    requires Unique(Survey(n.children[i - 1], leaf, comb))
    requires HasKey(SurveyKids(n, i - 1, leaf, comb), t) <==> t == n.tag || Occurs(PreOrderKids(n, i - 1), t)
    requires HasKey(Survey(n.children[i - 1], leaf, comb), t) <==> Occurs(PreOrder(n.children[i - 1]), t)
    ensures HasKey(SurveyKids(n, i, leaf, comb), t) <==> t == n.tag || Occurs(PreOrderKids(n, i), t)
  {
    var acc := SurveyKids(n, i - 1, leaf, comb);
    var c := n.children[i - 1];
    var d := Survey(c, leaf, comb);
    MergeLookup(acc, d, comb, t);
    OccursAppend(PreOrderKids(n, i - 1), PreOrder(c), t);
  }

  // ---- attr_dict_from_node ----

  function AttribOf(m: Node): OMap<string>
  {
    m.attrib
  }

  /** `for (attr, value) in attribs.items(): if attr not in found[tag]:
      found[tag][attr] = value` */
  function AddAttribs(x: OMap<string>, y: OMap<string>): OMap<string>
  {
    AddMissing(x, y)
  }

  /** `attr_dict_from_node(node)`: for each tag of the tree, the attributes
      seen on its elements. */
  function AttrDict(n: Node): OMap<OMap<string>>
  {
    Survey(n, AttribOf, AddAttribs)
  }

  /** The value of attribute `a` in `leaf` of the first element of `ns`
      with tag `t` that has it. */
  function FirstValue(ns: seq<Node>, t: string, a: string, leaf: Node -> OMap<string>): Option<string>
  {
    if ns == [] then None
    else if ns[0].tag == t && HasKey(leaf(ns[0]), a) then Lookup(leaf(ns[0]), a)
    else FirstValue(ns[1..], t, a, leaf)
  }

  /** The search finds a value exactly when some element has tag `t` and
      attribute `a`. */
  lemma {:induction false} FirstValueSome(ns: seq<Node>, t: string, a: string, leaf: Node -> OMap<string>)
    ensures FirstValue(ns, t, a, leaf).Some? <==> exists k :: 0 <= k < |ns| && ns[k].tag == t && HasKey(leaf(ns[k]), a)
  {
    if ns != [] {
      FirstValueSome(ns[1..], t, a, leaf);
      assert forall k :: 1 <= k < |ns| ==> ns[k] == ns[1..][k - 1];
      if ns[0].tag == t && HasKey(leaf(ns[0]), a) {
        assert Lookup(leaf(ns[0]), a).Some?;
      }
    }
  }

  function OrElse(x: Option<string>, y: Option<string>): Option<string>
  {
    if x.Some? then x else y
  }

  lemma {:induction false} FirstValueAppend(xs: seq<Node>, ys: seq<Node>, t: string, a: string, leaf: Node -> OMap<string>)
    ensures FirstValue(xs + ys, t, a, leaf) == OrElse(FirstValue(xs, t, a, leaf), FirstValue(ys, t, a, leaf))
  {
    if xs == [] {
      assert xs + ys == ys;
    } else {
      assert (xs + ys)[1..] == xs[1..] + ys;
      FirstValueAppend(xs[1..], ys, t, a, leaf);
    }
  }

  /** `found[t][a]`, None when either key is missing. */
  function AttrOf(m: OMap<OMap<string>>, t: string, a: string): Option<string>
  {
    match Lookup(m, t)
    case None => None
    case Some(x) => Lookup(x, a)
  }

  /** Combining `x` with `y`, attribute `k` keeps its value in `x` if it has
      one there, and takes its value in `y` otherwise. */
  predicate LeftWinsAt(comb: (OMap<string>, OMap<string>) -> OMap<string>, x: OMap<string>, y: OMap<string>, k: string)
  {
    Lookup(comb(x, y), k) == OrElse(Lookup(x, k), Lookup(y, k))
  }

  /** A combination in which what the left side has wins. */
  ghost predicate LeftWins(comb: (OMap<string>, OMap<string>) -> OMap<string>)
  {
    forall x, y, k :: LeftWinsAt(comb, x, y, k)
  }

  lemma AddAttribsLeftWins()
    ensures LeftWins(AddAttribs)
  {
    forall x, y, k
      ensures LeftWinsAt(AddAttribs, x, y, k)
    {
      AddMissingSpec(x, y, k);
    }
  }

  /** Merging a child's survey under a left-winning combination: what is
      already found is kept, what is not is taken from the child. */
  lemma MergeFirst(acc: OMap<OMap<string>>, d: OMap<OMap<string>>, comb: (OMap<string>, OMap<string>) -> OMap<string>, t: string, a: string)
    requires Unique(d) && LeftWins(comb)
    ensures AttrOf(Merge(acc, d, comb), t, a) == OrElse(AttrOf(acc, t, a), AttrOf(d, t, a))
  {
    MergeLookup(acc, d, comb, t);
    match (Lookup(acc, t), Lookup(d, t))
    case (Some(x), Some(y)) =>
      assert LeftWinsAt(comb, x, y, a);
    case _ =>
  }

  /** Attribute `a` of `n` itself, when `n` has tag `t`. */
  function Own(n: Node, t: string, a: string, leaf: Node -> OMap<string>): Option<string>
  {
    if n.tag == t then Lookup(leaf(n), a) else None
  }

  /** The first value of `a` on an element with tag `t`, searching `n`
      before its children and the children in order. */
  function FirstIn(n: Node, t: string, a: string, leaf: Node -> OMap<string>): Option<string>
    decreases n, 1, 0
  {
    OrElse(Own(n, t, a, leaf), FirstInKids(n, |n.children|, t, a, leaf))
  }

  function FirstInKids(n: Node, i: nat, t: string, a: string, leaf: Node -> OMap<string>): Option<string>
    requires i <= |n.children|
    decreases n, 0, i
  {
    if i == 0 then None else OrElse(FirstInKids(n, i - 1, t, a, leaf), FirstIn(n.children[i - 1], t, a, leaf))
  }

  /** The tree search agrees with the search along the pre-order. */
  lemma {:induction false} FirstInPreOrder(n: Node, t: string, a: string, leaf: Node -> OMap<string>)
    ensures FirstIn(n, t, a, leaf) == FirstValue(PreOrder(n), t, a, leaf)
    decreases n, 1, 0
  {
    FirstInKidsPreOrder(n, |n.children|, t, a, leaf);
    FirstValueAppend([n], PreOrderKids(n, |n.children|), t, a, leaf);
    assert FirstValue([n], t, a, leaf) == Own(n, t, a, leaf);
  }

  lemma {:induction false} FirstInKidsPreOrder(n: Node, i: nat, t: string, a: string, leaf: Node -> OMap<string>)
    requires i <= |n.children|
    ensures FirstInKids(n, i, t, a, leaf) == FirstValue(PreOrderKids(n, i), t, a, leaf)
    decreases n, 0, i
  {
    if i > 0 {
      FirstInKidsPreOrder(n, i - 1, t, a, leaf);
      FirstInPreOrder(n.children[i - 1], t, a, leaf);
      FirstValueAppend(PreOrderKids(n, i - 1), PreOrder(n.children[i - 1]), t, a, leaf);
    }
  }

  /** Under a left-winning combination, the survey holds for each tag and
      attribute the value the tree search finds. */
  lemma {:induction false} SurveyFirst(n: Node, leaf: Node -> OMap<string>, comb: (OMap<string>, OMap<string>) -> OMap<string>)
    requires LeftWins(comb)
    ensures forall t, a :: AttrOf(Survey(n, leaf, comb), t, a) == FirstIn(n, t, a, leaf)
    decreases n
  {
    forall j | 0 <= j < |n.children|
      ensures forall t, a :: AttrOf(Survey(n.children[j], leaf, comb), t, a) == FirstIn(n.children[j], t, a, leaf)
    {
      SurveyFirst(n.children[j], leaf, comb);
    }
    SurveyKidsFirst(n, |n.children|, leaf, comb);
  }

  lemma SurveyKidsFirst(n: Node, i: nat, leaf: Node -> OMap<string>, comb: (OMap<string>, OMap<string>) -> OMap<string>)
    requires i <= |n.children| && LeftWins(comb)
    requires forall j, t, a :: 0 <= j < i ==> AttrOf(Survey(n.children[j], leaf, comb), t, a) == FirstIn(n.children[j], t, a, leaf)
    ensures forall t, a :: AttrOf(SurveyKids(n, i, leaf, comb), t, a) == OrElse(Own(n, t, a, leaf), FirstInKids(n, i, t, a, leaf))
  {
    if i > 0 {
      SurveyKidsFirst(n, i - 1, leaf, comb);
      forall t, a ensures AttrOf(SurveyKids(n, i, leaf, comb), t, a) == OrElse(Own(n, t, a, leaf), FirstInKids(n, i, t, a, leaf)) {
        SurveyMergeStep(n, i, leaf, comb, t, a);
        OrElseAssoc(Own(n, t, a, leaf), FirstInKids(n, i - 1, t, a, leaf), FirstIn(n.children[i - 1], t, a, leaf));
      }
    } else {
      forall t, a ensures AttrOf(SurveyKids(n, i, leaf, comb), t, a) == OrElse(Own(n, t, a, leaf), FirstInKids(n, i, t, a, leaf)) {
        SurveyFirstRoot(n, i, leaf, comb, t, a);
      }
    }
  }

  lemma SurveyFirstRoot(n: Node, i: nat, leaf: Node -> OMap<string>, comb: (OMap<string>, OMap<string>) -> OMap<string>, t: string, a: string)
    requires i == 0
    ensures AttrOf(SurveyKids(n, i, leaf, comb), t, a) == OrElse(Own(n, t, a, leaf), FirstInKids(n, i, t, a, leaf))
  {
    assert SurveyKids(n, i, leaf, comb) == [(n.tag, leaf(n))];
  }

  lemma OrElseAssoc(x: Option<string>, y: Option<string>, z: Option<string>)
    ensures OrElse(OrElse(x, y), z) == OrElse(x, OrElse(y, z))
  {
  }

  /** One more child: its survey is merged in after what is found so far. */
  lemma SurveyMergeStep(n: Node, i: nat, leaf: Node -> OMap<string>, comb: (OMap<string>, OMap<string>) -> OMap<string>, t: string, a: string)
    requires 0 < i <= |n.children| && LeftWins(comb)
    ensures AttrOf(SurveyKids(n, i, leaf, comb), t, a)
      == OrElse(AttrOf(SurveyKids(n, i - 1, leaf, comb), t, a), AttrOf(Survey(n.children[i - 1], leaf, comb), t, a))
  {
    var c := n.children[i - 1];
    SurveyKeys(c, leaf, comb);
    MergeFirst(SurveyKids(n, i - 1, leaf, comb), Survey(c, leaf, comb), comb, t, a);
  }

  /** Each attribute of each tag has the value it has on the first element
      in document order with that tag and that attribute, and a tag has an
      attribute exactly when one of its elements has it: the attribute
      names of a tag are the union over its elements. */
  lemma AttrDictFirst(n: Node, t: string, a: string)
    ensures Unique(AttrDict(n))
    ensures HasKey(AttrDict(n), t) <==> Occurs(PreOrder(n), t)
    ensures AttrOf(AttrDict(n), t, a) == FirstValue(PreOrder(n), t, a, AttribOf)
    ensures AttrOf(AttrDict(n), t, a).Some? <==>
      exists k :: 0 <= k < |PreOrder(n)| && PreOrder(n)[k].tag == t && HasKey(PreOrder(n)[k].attrib, a)
  {
    SurveyKeys(n, AttribOf, AddAttribs);
    AddAttribsLeftWins();
    SurveyFirst(n, AttribOf, AddAttribs);
    FirstInPreOrder(n, t, a, AttribOf);
    FirstValueSome(PreOrder(n), t, a, AttribOf);
  }

  /** The loop over `attribs.items()`: each attribute `found[tag]` lacks is
      added with its value. */
  method AddMissingAttribs(found: OMap<string>, attribs: OMap<string>) returns (r: OMap<string>)
    ensures r == AddAttribs(found, attribs)
  {
    r := found;
    var k := 0;
    while k < |attribs|
      invariant 0 <= k <= |attribs|
      invariant AddMissing(found, attribs) == AddMissing(r, attribs[k..])
    {
      var (attr, value) := attribs[k];
      assert attribs[k..][1..] == attribs[k + 1..];
      if !HasKey(r, attr) {
        r := Put(r, attr, value);
      }
      k := k + 1;
    }
  }

  /** The loop over `attr_dict_from_node(child).items()`: a tag already
      found gains the attributes it lacks, a new tag is inserted with the
      child's attributes. */
  method MergeAttrDict(found: OMap<OMap<string>>, sub: OMap<OMap<string>>) returns (r: OMap<OMap<string>>)
    ensures r == Merge(found, sub, AddAttribs)
  {
    r := found;
    var j := 0;
    while j < |sub|
      invariant 0 <= j <= |sub|
      invariant Merge(found, sub, AddAttribs) == Merge(r, sub[j..], AddAttribs)
    {
      var (tag, attribs) := sub[j];
      assert sub[j..][1..] == sub[j + 1..];
      if HasKey(r, tag) {
        var known := Lookup(r, tag).value;
        known := AddMissingAttribs(known, attribs);
        r := Put(r, tag, known);
      } else {
        r := Put(r, tag, attribs);
      }
      j := j + 1;
    }
  }

  /** `attr_dict_from_node(node)`: the node's own tag and attributes, then
      each child's dictionary merged in, children in order. */
  method AttrDictFromNode(node: Node) returns (found: OMap<OMap<string>>)
    ensures found == AttrDict(node)
    decreases node
  {
    found := [(node.tag, node.attrib)];
    var i := 0;
    while i < |node.children|
      invariant 0 <= i <= |node.children|
      invariant found == SurveyKids(node, i, AttribOf, AddAttribs)
    {
      var sub := AttrDictFromNode(node.children[i]);
      found := MergeAttrDict(found, sub);
      i := i + 1;
    }
  }

  // ---- child_tags_from_xml_element ----

  /** `[c.tag for c in el]` */
  function ChildTagList(el: Node): seq<string>
  {
    seq(|el.children|, k requires 0 <= k < |el.children| => el.children[k].tag)
  }

  /** `[t for t in tags if tags.count(t) == 1]`, over the first `i` tags. */
  function Once(tags: seq<string>, i: nat): seq<string>
    requires i <= |tags|
  {
    if i == 0 then []
    else Once(tags, i - 1) + (if multiset(tags)[tags[i - 1]] == 1 then [tags[i - 1]] else [])
  }

  /** The tags of the direct children that occur exactly once. */
  function UniqueChildTags(el: Node): seq<string>
  {
    Once(ChildTagList(el), |el.children|)
  }

  /** `child_tags_from_xml_element(el)` */
  function ChildTagsFromXmlElement(el: Node): OMap<seq<string>>
  {
    [(el.tag, UniqueChildTags(el))]
  }

  /** Index of the first occurrence of `x` in `xs`. */
  function IndexIn(xs: seq<string>, x: string): nat
    requires x in xs
  {
    if xs[0] == x then 0 else 1 + IndexIn(xs[1..], x)
  }

  lemma {:induction false} IndexInSpec(xs: seq<string>, x: string)
    requires x in xs
    ensures IndexIn(xs, x) < |xs| && xs[IndexIn(xs, x)] == x
    ensures forall k :: 0 <= k < IndexIn(xs, x) ==> xs[k] != x
  {
    if xs[0] != x {
      IndexInSpec(xs[1..], x);
    }
  }

  /** A tag that occurs once, at index `k`, has index `k`. */
  lemma OnlyOccurrence(xs: seq<string>, k: nat)
    requires k < |xs| && multiset(xs)[xs[k]] == 1
    ensures xs[k] !in xs[..k]
    ensures IndexIn(xs, xs[k]) == k
  {
    assert xs == xs[..k] + [xs[k]] + xs[k + 1..];
    assert multiset(xs) == multiset(xs[..k]) + multiset([xs[k]]) + multiset(xs[k + 1..]);
    assert multiset(xs[..k])[xs[k]] == 0;
    forall j | 0 <= j < k
      ensures xs[j] != xs[k]
    {
      assert xs[..k][j] == xs[j];
    }
    IndexInSpec(xs, xs[k]);
  }

  predicate NoDup(xs: seq<string>)
  {
    forall p, q :: 0 <= p < q < |xs| ==> xs[p] != xs[q]
  }

  /** The filter keeps exactly the tags that occur once, in the order of
      their occurrence. */
  lemma {:induction false} OnceSpec(tags: seq<string>, i: nat)
    requires i <= |tags|
    ensures forall x :: x in Once(tags, i) <==> x in tags[..i] && multiset(tags)[x] == 1
    ensures forall p :: 0 <= p < |Once(tags, i)| ==> Once(tags, i)[p] in tags && IndexIn(tags, Once(tags, i)[p]) < i
    ensures forall p, q :: 0 <= p < q < |Once(tags, i)| ==> IndexIn(tags, Once(tags, i)[p]) < IndexIn(tags, Once(tags, i)[q])
  {
    if i > 0 {
      OnceSpec(tags, i - 1);
      assert tags[..i] == tags[..i - 1] + [tags[i - 1]];
      if multiset(tags)[tags[i - 1]] == 1 {
        OnlyOccurrence(tags, i - 1);
      }
    }
  }

  /** `child_tags_from_xml_element(el)` maps the element's tag to the tags
      that exactly one of its children has, each once, in child order. */
  lemma ChildTagsFromXmlElementSpec(el: Node)
    ensures Keys(ChildTagsFromXmlElement(el)) == [el.tag]
    ensures Lookup(ChildTagsFromXmlElement(el), el.tag) == Some(UniqueChildTags(el))
    ensures forall x :: x in UniqueChildTags(el) <==> multiset(ChildTagList(el))[x] == 1
    ensures forall p :: 0 <= p < |UniqueChildTags(el)| ==> UniqueChildTags(el)[p] in ChildTagList(el)
    ensures NoDup(UniqueChildTags(el))
    ensures forall p, q :: 0 <= p < q < |UniqueChildTags(el)| ==>
      IndexIn(ChildTagList(el), UniqueChildTags(el)[p]) < IndexIn(ChildTagList(el), UniqueChildTags(el)[q])
  {
    var tags := ChildTagList(el);
    OnceSpec(tags, |tags|);
    assert tags[..|tags|] == tags;
    forall x ensures multiset(tags)[x] == 1 ==> x in tags {
      if multiset(tags)[x] == 1 {
        assert x in multiset(tags);
      }
    }
  }

  // ---- child_tags_from_node ----

  /** `for child_tag in child_tags: if child_tag not in found[tag]:
      found[tag].append(child_tag)` */
  function AppendMissing(xs: seq<string>, ys: seq<string>): seq<string>
    decreases |ys|
  {
    if ys == [] then xs
    else AppendMissing(if ys[0] in xs then xs else xs + [ys[0]], ys[1..])
  }

  /** Appending keeps what is there in front, adds exactly what is missing
      and never duplicates. */
  lemma {:induction false} AppendMissingSpec(xs: seq<string>, ys: seq<string>)
    ensures |xs| <= |AppendMissing(xs, ys)| && AppendMissing(xs, ys)[..|xs|] == xs
    ensures forall x :: x in AppendMissing(xs, ys) <==> x in xs || x in ys
    ensures NoDup(xs) ==> NoDup(AppendMissing(xs, ys))
    decreases |ys|
  {
    if ys != [] {
      var xs' := if ys[0] in xs then xs else xs + [ys[0]];
      AppendMissingSpec(xs', ys[1..]);
      assert AppendMissing(xs', ys[1..])[..|xs|] == xs'[..|xs|];
      assert xs'[..|xs|] == xs;
      assert forall x :: x in ys <==> x == ys[0] || x in ys[1..];
    }
  }

  /** `child_tags_from_node(node)`: for each tag of the tree, the child
      tags gathered from its elements. */
  function ChildTagDict(n: Node): OMap<seq<string>>
  {
    Survey(n, UniqueChildTags, AppendMissing)
  }

  /** Merging under `AppendMissing` keeps every list free of duplicates. */
  lemma MergeTagsNoDup(acc: OMap<seq<string>>, d: OMap<seq<string>>, t: string)
    requires Unique(d)
    requires Lookup(d, t).Some? ==> NoDup(Lookup(d, t).value)
    requires Lookup(acc, t).Some? ==> NoDup(Lookup(acc, t).value)
    ensures Lookup(Merge(acc, d, AppendMissing), t).Some? ==> NoDup(Lookup(Merge(acc, d, AppendMissing), t).value)
  {
    MergeLookup(acc, d, AppendMissing, t);
    if Lookup(acc, t).Some? && Lookup(d, t).Some? {
      AppendMissingSpec(Lookup(acc, t).value, Lookup(d, t).value);
    }
  }

  /** Merging under `AppendMissing` lists a tag under `t` exactly when one
      side does. */
  lemma MergeTagsListed(acc: OMap<seq<string>>, d: OMap<seq<string>>, t: string, x: string)
    requires Unique(d)
    ensures ListedIn(Merge(acc, d, AppendMissing), t, x) <==> ListedIn(acc, t, x) || ListedIn(d, t, x)
  {
    MergeLookup(acc, d, AppendMissing, t);
    if Lookup(acc, t).Some? && Lookup(d, t).Some? {
      AppendMissingSpec(Lookup(acc, t).value, Lookup(d, t).value);
    }
  }

  /** `x in found[t]`, false when `t` is missing. */
  predicate ListedIn(m: OMap<seq<string>>, t: string, x: string)
  {
    match Lookup(m, t)
    case None => false
    case Some(l) => x in l
  }

  /** Some element in `ns` has tag `t` and `x` among its unique child tags. */
  ghost predicate ListedAt(ns: seq<Node>, t: string, x: string)
  {
    exists k :: 0 <= k < |ns| && ns[k].tag == t && x in UniqueChildTags(ns[k])
  }

  lemma ListedAtAppend(a: seq<Node>, b: seq<Node>, t: string, x: string)
    ensures ListedAt(a + b, t, x) <==> ListedAt(a, t, x) || ListedAt(b, t, x)
  {
    if ListedAt(a + b, t, x) {
      var k :| 0 <= k < |a + b| && (a + b)[k].tag == t && x in UniqueChildTags((a + b)[k]);
      if k >= |a| {
        assert b[k - |a|] == (a + b)[k];
      } else {
        assert a[k] == (a + b)[k];
      }
    }
    if ListedAt(a, t, x) {
      var k :| 0 <= k < |a| && a[k].tag == t && x in UniqueChildTags(a[k]);
      assert (a + b)[k] == a[k];
    }
    if ListedAt(b, t, x) {
      var k :| 0 <= k < |b| && b[k].tag == t && x in UniqueChildTags(b[k]);
      assert (a + b)[|a| + k] == b[k];
    }
  }

  /** The tree search: `n` itself, or one of its children's subtrees. */
  predicate AnyIn(n: Node, t: string, x: string)
    decreases n, 1, 0
  {
    (n.tag == t && x in UniqueChildTags(n)) || AnyInKids(n, |n.children|, t, x)
  }

  predicate AnyInKids(n: Node, i: nat, t: string, x: string)
    requires i <= |n.children|
    decreases n, 0, i
  {
    i > 0 && (AnyInKids(n, i - 1, t, x) || AnyIn(n.children[i - 1], t, x))
  }

  lemma {:induction false} AnyInPreOrder(n: Node, t: string, x: string)
    ensures AnyIn(n, t, x) <==> ListedAt(PreOrder(n), t, x)
    decreases n, 1, 0
  {
    AnyInKidsPreOrder(n, |n.children|, t, x);
    ListedAtAppend([n], PreOrderKids(n, |n.children|), t, x);
    assert ListedAt([n], t, x) <==> n.tag == t && x in UniqueChildTags(n) by {
      if ListedAt([n], t, x) {
        var k :| 0 <= k < 1 && [n][k].tag == t && x in UniqueChildTags([n][k]);
      }
      if n.tag == t && x in UniqueChildTags(n) {
        assert [n][0] == n;
      }
    }
  }

  lemma {:induction false} AnyInKidsPreOrder(n: Node, i: nat, t: string, x: string)
    requires i <= |n.children|
    ensures AnyInKids(n, i, t, x) <==> ListedAt(PreOrderKids(n, i), t, x)
    decreases n, 0, i
  {
    if i > 0 {
      AnyInKidsPreOrder(n, i - 1, t, x);
      AnyInPreOrder(n.children[i - 1], t, x);
      ListedAtAppend(PreOrderKids(n, i - 1), PreOrder(n.children[i - 1]), t, x);
    }
  }

  /** Every list of `child_tags_from_node(n)` is free of duplicates. */
  lemma {:induction false} ChildTagsNoDup(n: Node, t: string)
    ensures Lookup(ChildTagDict(n), t).Some? ==> NoDup(Lookup(ChildTagDict(n), t).value)
    decreases n
  {
    forall j | 0 <= j < |n.children|
      ensures Lookup(ChildTagDict(n.children[j]), t).Some? ==> NoDup(Lookup(ChildTagDict(n.children[j]), t).value)
    {
      ChildTagsNoDup(n.children[j], t);
    }
    KidsTagsNoDup(n, |n.children|, t);
  }

  lemma KidsTagsNoDup(n: Node, i: nat, t: string)
    requires i <= |n.children|
    requires forall j :: 0 <= j < i ==>
      Lookup(ChildTagDict(n.children[j]), t).Some? ==> NoDup(Lookup(ChildTagDict(n.children[j]), t).value)
    ensures Lookup(SurveyKids(n, i, UniqueChildTags, AppendMissing), t).Some? ==>
      NoDup(Lookup(SurveyKids(n, i, UniqueChildTags, AppendMissing), t).value)
  {
    if i > 0 {
      KidsTagsNoDup(n, i - 1, t);
      var c := n.children[i - 1];
      SurveyKeys(c, UniqueChildTags, AppendMissing);
      MergeTagsNoDup(SurveyKids(n, i - 1, UniqueChildTags, AppendMissing), ChildTagDict(c), t);
    } else {
      assert SurveyKids(n, i, UniqueChildTags, AppendMissing) == [(n.tag, UniqueChildTags(n))];
      ChildTagsFromXmlElementSpec(n);
    }
  }

  /** `x` is listed under `t` in `child_tags_from_node(n)` exactly when the
      tree search finds an element with tag `t` of which exactly one child
      has tag `x`. */
  lemma {:induction false} ChildTagsListed(n: Node, t: string, x: string)
    ensures ListedIn(ChildTagDict(n), t, x) <==> AnyIn(n, t, x)
    decreases n
  {
    forall j | 0 <= j < |n.children|
      ensures ListedIn(ChildTagDict(n.children[j]), t, x) <==> AnyIn(n.children[j], t, x)
    {
      ChildTagsListed(n.children[j], t, x);
    }
    KidsTagsListed(n, |n.children|, t, x);
  }

  lemma KidsTagsListed(n: Node, i: nat, t: string, x: string)
    requires i <= |n.children|
    requires forall j :: 0 <= j < i ==> (ListedIn(ChildTagDict(n.children[j]), t, x) <==> AnyIn(n.children[j], t, x))
    ensures ListedIn(SurveyKids(n, i, UniqueChildTags, AppendMissing), t, x) <==>
      (n.tag == t && x in UniqueChildTags(n)) || AnyInKids(n, i, t, x)
  {
    if i > 0 {
      KidsTagsListed(n, i - 1, t, x);
      var c := n.children[i - 1];
      SurveyKeys(c, UniqueChildTags, AppendMissing);
      MergeTagsListed(SurveyKids(n, i - 1, UniqueChildTags, AppendMissing), ChildTagDict(c), t, x);
    } else {
      assert SurveyKids(n, i, UniqueChildTags, AppendMissing) == [(n.tag, UniqueChildTags(n))];
    }
  }

  /** Merging under `AppendMissing` only extends a list already found. */
  lemma MergeKeepsFront(acc: OMap<seq<string>>, d: OMap<seq<string>>, t: string, l: seq<string>)
    requires Unique(d) && Lookup(acc, t) == Some(l)
    ensures Lookup(Merge(acc, d, AppendMissing), t).Some?
    ensures var l' := Lookup(Merge(acc, d, AppendMissing), t).value; |l| <= |l'| && l'[..|l|] == l
  {
    MergeLookup(acc, d, AppendMissing, t);
    if Lookup(d, t).Some? {
      AppendMissingSpec(l, Lookup(d, t).value);
    }
  }

  /** New child tags are only appended: the element's own unique child tags
      stay, in order, at the front of its tag's list. */
  lemma OwnTagsFirst(n: Node, i: nat)
    requires i <= |n.children|
    ensures Lookup(SurveyKids(n, i, UniqueChildTags, AppendMissing), n.tag).Some?
    ensures var l := Lookup(SurveyKids(n, i, UniqueChildTags, AppendMissing), n.tag).value;
      |UniqueChildTags(n)| <= |l| && l[..|UniqueChildTags(n)|] == UniqueChildTags(n)
  {
    if i > 0 {
      OwnTagsFirst(n, i - 1);
      OwnTagsStep(n, i);
    } else {
      assert SurveyKids(n, i, UniqueChildTags, AppendMissing) == [(n.tag, UniqueChildTags(n))];
    }
  }

  lemma OwnTagsStep(n: Node, i: nat)
    requires 0 < i <= |n.children|
    requires Lookup(SurveyKids(n, i - 1, UniqueChildTags, AppendMissing), n.tag).Some?
    requires var l := Lookup(SurveyKids(n, i - 1, UniqueChildTags, AppendMissing), n.tag).value;
      |UniqueChildTags(n)| <= |l| && l[..|UniqueChildTags(n)|] == UniqueChildTags(n)
    ensures Lookup(SurveyKids(n, i, UniqueChildTags, AppendMissing), n.tag).Some?
    ensures var l := Lookup(SurveyKids(n, i, UniqueChildTags, AppendMissing), n.tag).value;
      |UniqueChildTags(n)| <= |l| && l[..|UniqueChildTags(n)|] == UniqueChildTags(n)
  {
    var c := n.children[i - 1];
    var acc := SurveyKids(n, i - 1, UniqueChildTags, AppendMissing);
    var l := Lookup(acc, n.tag).value;
    SurveyKeys(c, UniqueChildTags, AppendMissing);
    MergeKeepsFront(acc, ChildTagDict(c), n.tag, l);
    var l' := Lookup(SurveyKids(n, i, UniqueChildTags, AppendMissing), n.tag).value;
    assert l'[..|UniqueChildTags(n)|] == l'[..|l|][..|UniqueChildTags(n)|];
  }

  /** The loop over a child's `child_tags`: each tag not yet listed is
      appended to `found[tag]`. */
  method AppendMissingTags(known: seq<string>, tags: seq<string>) returns (r: seq<string>)
    ensures r == AppendMissing(known, tags)
  {
    r := known;
    var k := 0;
    while k < |tags|
      invariant 0 <= k <= |tags|
      invariant AppendMissing(known, tags) == AppendMissing(r, tags[k..])
    {
      assert tags[k..][1..] == tags[k + 1..];
      if tags[k] !in r {
        r := r + [tags[k]];
      }
      k := k + 1;
    }
  }

  /** The loop over `child_tags_from_node(child).items()`: a tag already
      found gains the child tags it lacks, a new tag is inserted with the
      child's list. */
  method MergeChildTags(found: OMap<seq<string>>, sub: OMap<seq<string>>) returns (r: OMap<seq<string>>)
    ensures r == Merge(found, sub, AppendMissing)
  {
    r := found;
    var j := 0;
    while j < |sub|
      invariant 0 <= j <= |sub|
      invariant Merge(found, sub, AppendMissing) == Merge(r, sub[j..], AppendMissing)
    {
      var (tag, tags) := sub[j];
      assert sub[j..][1..] == sub[j + 1..];
      if HasKey(r, tag) {
        var known := Lookup(r, tag).value;
        known := AppendMissingTags(known, tags);
        r := Put(r, tag, known);
      } else {
        r := Put(r, tag, tags);
      }
      j := j + 1;
    }
  }

  /** `child_tags_from_node(node)`: the node's own unique child tags, then
      each child's dictionary merged in, children in order. */
  method ChildTagsFromNode(node: Node) returns (found: OMap<seq<string>>)
    ensures found == ChildTagDict(node)
    decreases node
  {
    found := ChildTagsFromXmlElement(node);
    var i := 0;
    while i < |node.children|
      invariant 0 <= i <= |node.children|
      invariant found == SurveyKids(node, i, UniqueChildTags, AppendMissing)
    {
      var sub := ChildTagsFromNode(node.children[i]);
      found := MergeChildTags(found, sub);
      i := i + 1;
    }
  }
}
