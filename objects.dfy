/** The typed objects of lib/__init__.py and lib/curated_ggb_classes.py: an
    instance of a generated class holds its tag, its `xml_attrs`, its
    `child_classes` (roles), the plain attributes set on it, its content and
    its children. Building one from a node runs `XMLObject.__init__`,
    `GGBObject.__init__` and then the body of every generated `__init__` of
    its class chain, base first; `__getattribute__` and `__setattr__` become
    `Get` and `Set`.

    `load_dict` also copies each value into the instance dict, but a name
    present in `xml_attrs` is always answered from `xml_attrs`, so those
    copies are never read back and are not kept here. */
module Objects {
  import opened Wrappers
  import opened Strings
  import opened Codec
  import opened OrderedMap
  import opened Schema
  import opened Registry

  /** A parsed XML element: tag, attributes in document order, text and
      children, as ElementTree hands them over. */
  datatype Node = Node(tag: string, attrib: OMap<string>, text: Option<string>, children: seq<Node>)

  /** A plain attribute: a value or another object. */
  datatype Field = FValue(v: Value) | FObj(o: Obj)

  datatype Obj = Obj(
    cls: ClassDef,
    tag: string,
    attrs: Attrs,
    roles: OMap<ClassDef>,
    fields: OMap<Field>,
    content: Value,
    children: seq<Obj>)

  /** ElementTree never gives an element two attributes with the same name. */
  predicate WellFormed(n: Node)
  {
    Unique(n.attrib)
  }

  // ---- load_dict ----

  /** `{key: parse_string(str(value))}` over a node's attributes. */
  function ParseAttrib(attrib: OMap<string>): Attrs
  {
    MapValues(attrib, ParseString)
  }

  /** The same over values already held, as `Color.__init__` and an
      instance made from `xml_attrs` load them. */
  function ParseValues(vals: Attrs): Attrs
  {
    MapValues(vals, (v: Value) => ParseString(PyStr(v)))
  }

  /** `load_dict` followed by `register_xml_attrs`: each key of the already
      parsed pairs is assigned in `xml_attrs`, in order. */
  function LoadAttrs(o: Obj, parsed: Attrs): Obj
  {
    o.(attrs := PutAll(o.attrs, parsed))
  }

  // ---- construction ----

  /** The (r, g, b) that `Color.__init__` loads when it gets no colour. */
  const ZeroRgb: Attrs := [("r", VInt(0)), ("g", VInt(0)), ("b", VInt(0))]

  /** `load_dict(dict(zip(['r', 'g', 'b'], rgb_list)))` */
  function RgbAttrs(r: Value, g: Value, b: Value): Attrs
  {
    ParseValues([("r", r), ("g", g), ("b", b)])
  }

  /** True when some child is exactly of class `c` (`c.__class__ == c`). */
  predicate HasClass(children: seq<Obj>, c: ClassDef)
  {
    exists i :: 0 <= i < |children| && children[i].cls == c
  }

  ghost predicate RolesBelow(roles: OMap<ClassDef>, bound: ClassDef)
  {
    forall i :: 0 <= i < |roles| ==> roles[i].1 < bound
  }

  /** The tag `XMLObject.__init__` gives an instance made without a node or
      tag: the class name with its first letter lowercased. Every class of
      the table has a name. */
  function NameTag(c: ClassDef): string
  {
    if c.name == [] then [] else CamelCase(c.name)
  }

  /** An instance made without a node: `c(*rgb, xml_attrs=given)`.
      `XMLObject.__init__` loads the given attributes, `GGBObject.__init__`
      leaves the children empty, and then the chain of `c` runs. A default
      child (`child_class.__new__` then `__init__()`) is `New(c, [], ZeroRgb)`. */
  function New(c: ClassDef, given: Attrs, rgb: Attrs): (r: Obj)
    ensures r.cls == c
    decreases c, 2
  {
    var o := Obj(c, NameTag(c), PutAll(given, ParseValues(given)), [], [], VNone, []);
    RunSteps(o, Chain(c, []), None, rgb, c)
  }

  /** The steps of a chain, in order. `bound` is the class whose chain it is:
      every role met is a smaller class, so default children are finite. */
  function RunSteps(o: Obj, steps: seq<Step>, node: Option<Attrs>, rgb: Attrs, ghost bound: ClassDef): Obj
    requires forall i :: 0 <= i < |steps| ==> steps[i] in bound.steps
    requires RolesBelow(o.roles, bound)
    ensures RunSteps(o, steps, node, rgb, bound).cls == o.cls
    ensures RolesBelow(RunSteps(o, steps, node, rgb, bound).roles, bound)
    decreases bound, 1, |steps|
  {
    if steps == [] then o
    else
      var o' := RunSteps(o, steps[..|steps| - 1], node, rgb, bound);
      RunStep(o', steps[|steps| - 1], node, rgb, bound)
  }

  /** One step. A seed is the body of a generated `__init__` after its
      `super` call (lib/__init__.py:276-299): missing defaults go into
      `xml_attrs`, the roles are merged into `child_classes`, every role
      class with no child of exactly that class gets a default child, the
      node's attributes are loaded again and the tag becomes the seed's.
      `ColorInit` is `Color.__init__` after its `super` call. */
  function RunStep(o: Obj, s: Step, node: Option<Attrs>, rgb: Attrs, ghost bound: ClassDef): (r: Obj)
    requires s in bound.steps
    requires RolesBelow(o.roles, bound)
    ensures r.cls == o.cls && RolesBelow(r.roles, bound)
    decreases bound, 1, 0
  {
    match s
    case ColorInit => LoadAttrs(o, rgb)
    case Seed(tag, defaults, roles) =>
      RolesOfStep(s, bound);
      var merged := PutAll(o.roles, roles);
      PutAllBelow(o.roles, roles, bound);
      var o1 := o.(attrs := AddMissing(o.attrs, defaults), roles := merged,
                   children := AddDefaults(o.children, merged, bound));
      var o2 := if node.Some? then LoadAttrs(o1, node.value) else o1;
      o2.(tag := tag)
  }

  /** The loop over `child_classes` (lib/__init__.py:286-292): a role class
      with no child of exactly that class gets one default child appended. */
  function AddDefaults(children: seq<Obj>, roles: OMap<ClassDef>, ghost bound: ClassDef): seq<Obj>
    requires RolesBelow(roles, bound)
    decreases bound, 0, |roles|
  {
    if roles == [] then children
    else
      var before := AddDefaults(children, roles[..|roles| - 1], bound);
      var c := roles[|roles| - 1].1;
      if HasClass(before, c) then before else before + [New(c, [], ZeroRgb)]
  }

  lemma RolesInit(roles: OMap<ClassDef>, bound: ClassDef)
    requires roles != [] && RolesBelow(roles, bound)
    ensures RolesBelow(roles[..|roles| - 1], bound)
  {
    var init := roles[..|roles| - 1];
    forall j | 0 <= j < |init| ensures init[j].1 < bound {
      assert init[j] == roles[j];
    }
  }

  /** The original children stay in front, in order. */
  lemma {:induction false} AddDefaultsPrefix(children: seq<Obj>, roles: OMap<ClassDef>, bound: ClassDef)
    requires RolesBelow(roles, bound)
    ensures |children| <= |AddDefaults(children, roles, bound)|
    ensures AddDefaults(children, roles, bound)[..|children|] == children
  {
    if roles != [] {
      RolesInit(roles, bound);
      AddDefaultsPrefix(children, roles[..|roles| - 1], bound);
    }
  }

  /** Afterwards every role class has a child of exactly that class. */
  lemma {:induction false} AddDefaultsCovers(children: seq<Obj>, roles: OMap<ClassDef>, bound: ClassDef)
    requires RolesBelow(roles, bound)
    ensures forall j :: 0 <= j < |roles| ==> HasClass(AddDefaults(children, roles, bound), roles[j].1)
  {
    if roles != [] {
      var init := roles[..|roles| - 1];
      RolesInit(roles, bound);
      AddDefaultsCovers(children, init, bound);
      var before := AddDefaults(children, init, bound);
      var r := AddDefaults(children, roles, bound);
      assert r[..|before|] == before;
      forall j | 0 <= j < |roles| ensures HasClass(r, roles[j].1) {
        if j < |roles| - 1 {
          assert roles[j] == init[j];
          var i :| 0 <= i < |before| && before[i].cls == roles[j].1;
          assert r[i] == before[i];
        } else if r != before {
          assert r[|r| - 1].cls == roles[j].1;
        }
      }
    }
  }

  /** Each appended child is the default instance of a role class that no
      original child had. */
  lemma {:induction false} AddDefaultsAppended(children: seq<Obj>, roles: OMap<ClassDef>, bound: ClassDef, i: nat)
    requires RolesBelow(roles, bound)
    requires |children| <= i < |AddDefaults(children, roles, bound)|
    ensures var r := AddDefaults(children, roles, bound);
      && (exists j :: 0 <= j < |roles| && roles[j].1 == r[i].cls)
      && !HasClass(children, r[i].cls) && r[i] == New(r[i].cls, [], ZeroRgb)
  {
    var init := roles[..|roles| - 1];
    RolesInit(roles, bound);
    var before := AddDefaults(children, init, bound);
    var r := AddDefaults(children, roles, bound);
    if i < |before| {
      AddDefaultsAppended(children, init, bound, i);
      assert r[i] == before[i];
      var j :| 0 <= j < |init| && init[j].1 == before[i].cls;
      assert roles[j].1 == r[i].cls;
    } else {
      var c := roles[|roles| - 1].1;
      assert r[i] == New(c, [], ZeroRgb);
      AddDefaultsPrefix(children, init, bound);
    }
  }

  /** No class is appended twice. */
  lemma {:induction false} AddDefaultsDistinct(children: seq<Obj>, roles: OMap<ClassDef>, bound: ClassDef)
    requires RolesBelow(roles, bound)
    ensures var r := AddDefaults(children, roles, bound);
      forall i, i' :: |children| <= i < i' < |r| ==> r[i].cls != r[i'].cls
  {
    if roles != [] {
      var init := roles[..|roles| - 1];
      RolesInit(roles, bound);
      AddDefaultsDistinct(children, init, bound);
      AddDefaultsPrefix(children, init, bound);
      var before := AddDefaults(children, init, bound);
      var r := AddDefaults(children, roles, bound);
      forall i, i' | |children| <= i < i' < |r| ensures r[i].cls != r[i'].cls {
        assert r[i] == before[i];
        if i' == |before| {
          assert r[i'].cls == roles[|roles| - 1].1;
        } else {
          assert r[i'] == before[i'];
        }
      }
    }
  }

  /** Merging roles whose classes are below `bound` keeps them below. */
  lemma {:induction false} PutAllBelow(m: OMap<ClassDef>, pairs: OMap<ClassDef>, bound: ClassDef)
    requires RolesBelow(m, bound) && RolesBelow(pairs, bound)
    ensures RolesBelow(PutAll(m, pairs), bound)
  {
    if pairs != [] {
      var init := pairs[..|pairs| - 1];
      assert RolesBelow(init, bound) by {
        forall i | 0 <= i < |init| ensures init[i].1 < bound {
          assert init[i] == pairs[i];
        }
      }
      PutAllBelow(m, init, bound);
      PutBelow(PutAll(m, init), pairs[|pairs| - 1].0, pairs[|pairs| - 1].1, bound);
    }
  }

  lemma {:induction false} PutBelow(m: OMap<ClassDef>, k: string, v: ClassDef, bound: ClassDef)
    requires RolesBelow(m, bound) && v < bound
    ensures RolesBelow(Put(m, k, v), bound)
  {
    if m != [] && m[0].0 != k {
      assert RolesBelow(m[1..], bound) by {
        forall i | 0 <= i < |m[1..]| ensures m[1..][i].1 < bound {
          assert m[1..][i] == m[i + 1];
        }
      }
      PutBelow(m[1..], k, v, bound);
      var r := Put(m, k, v);
      forall i | 0 <= i < |r| ensures r[i].1 < bound {
        if i > 0 {
          assert r[i] == Put(m[1..], k, v)[i - 1];
        }
      }
    }
  }

  // ---- what a chain does ----

  /** The tag the last seed of a chain sets, or `t` when none does. */
  function LastTag(steps: seq<Step>, t: string): string
  {
    if steps == [] then t
    else if steps[|steps| - 1].Seed? then steps[|steps| - 1].tag
    else LastTag(steps[..|steps| - 1], t)
  }

  /** The keys of `attrs` are unique and start with `front`. */
  predicate KeysStartWith(attrs: Attrs, front: seq<string>)
  {
    Unique(attrs) && |front| <= |attrs| && Keys(attrs)[..|front|] == front
  }

  lemma KeysStartWithPutAll(attrs: Attrs, front: seq<string>, pairs: Attrs)
    requires KeysStartWith(attrs, front)
    ensures KeysStartWith(PutAll(attrs, pairs), front)
  {
    PutAllUnique(attrs, pairs);
    PutAllKeysPrefix(attrs, pairs);
    var r := PutAll(attrs, pairs);
    assert Keys(r)[..|front|] == Keys(r)[..|attrs|][..|front|];
  }

  lemma KeysStartWithAddMissing(attrs: Attrs, front: seq<string>, extra: Attrs)
    requires KeysStartWith(attrs, front)
    ensures KeysStartWith(AddMissing(attrs, extra), front)
  {
    AddMissingSpec(attrs, extra, "");
    var r := AddMissing(attrs, extra);
    KeysPrefix(r, |attrs|);
    assert Keys(r)[..|front|] == Keys(r)[..|attrs|][..|front|];
  }

  /** One step keeps the class, the content, the plain attributes and the
      children already there, keeps the attribute keys' front part, and
      sets the tag when it is a seed. */
  lemma RunStepFacts(o: Obj, s: Step, node: Option<Attrs>, rgb: Attrs, bound: ClassDef, front: seq<string>)
    requires s in bound.steps && RolesBelow(o.roles, bound)
    ensures var r := RunStep(o, s, node, rgb, bound);
      && r.content == o.content && r.fields == o.fields
      && |o.children| <= |r.children| && r.children[..|o.children|] == o.children
      && r.tag == (if s.Seed? then s.tag else o.tag)
      && (KeysStartWith(o.attrs, front) ==> KeysStartWith(r.attrs, front))
  {
    if s.Seed? {
      RolesOfStep(s, bound);
      PutAllBelow(o.roles, s.roles, bound);
      AddDefaultsPrefix(o.children, PutAll(o.roles, s.roles), bound);
      if KeysStartWith(o.attrs, front) {
        KeysStartWithAddMissing(o.attrs, front, s.defaults);
        if node.Some? {
          KeysStartWithPutAll(AddMissing(o.attrs, s.defaults), front, node.value);
        }
      }
    } else if KeysStartWith(o.attrs, front) {
      KeysStartWithPutAll(o.attrs, front, rgb);
    }
  }

  lemma {:induction false} RunStepsFacts(o: Obj, steps: seq<Step>, node: Option<Attrs>, rgb: Attrs, bound: ClassDef, front: seq<string>)
    requires forall i :: 0 <= i < |steps| ==> steps[i] in bound.steps
    requires RolesBelow(o.roles, bound)
    ensures var r := RunSteps(o, steps, node, rgb, bound);
      && r.content == o.content && r.fields == o.fields
      && |o.children| <= |r.children| && r.children[..|o.children|] == o.children
      && r.tag == LastTag(steps, o.tag)
      && (KeysStartWith(o.attrs, front) ==> KeysStartWith(r.attrs, front))
  {
    if steps != [] {
      var init := steps[..|steps| - 1];
      RunStepsFacts(o, init, node, rgb, bound, front);
      var o' := RunSteps(o, init, node, rgb, bound);
      RunStepFacts(o', steps[|steps| - 1], node, rgb, bound, front);
      var r := RunSteps(o, steps, node, rgb, bound);
      assert r.children[..|o.children|] == r.children[..|o'.children|][..|o.children|];
    }
  }

  // ---- from a parsed tree ----

  /** The two `xml2ggb_object`s: the one of lib/curated_ggb_classes.py looks
      the node's `type` attribute up among the element classes, then its tag
      among all classes; the one of lib/ggb_base_object.py looks the tag up
      in both. */
  datatype Dispatcher = ByTypeThenTag | ByTag

  /** The class a node is turned into; an unknown tag is the `KeyError`
      both versions re-raise. */
  function Dispatch(reg: Reg, d: Dispatcher, n: Node): (r: Result<ClassDef>)
  {
    match d
    case ByTypeThenTag =>
      var t := Lookup(n.attrib, "type");
      if t.Some? && t.value in reg.elements then Ok(reg.elements[t.value])
      else if n.tag in reg.ggb then Ok(reg.ggb[n.tag])
      else Err(UnknownTag(n.tag))
    case ByTag =>
      if n.tag in reg.elements then Ok(reg.elements[n.tag])
      else if n.tag in reg.ggb then Ok(reg.ggb[n.tag])
      else Err(UnknownTag(n.tag))
  }

  /** A node converts to some class exactly when its tag is a registered
      tag or, for the curated version, its `type` attribute is a registered
      element type, or, for the base version, its tag is one. */
  lemma DispatchOk(reg: Reg, d: Dispatcher, n: Node)
    ensures Dispatch(reg, d, n).Ok? <==>
      n.tag in reg.ggb
      || (d.ByTypeThenTag? && Lookup(n.attrib, "type").Some? && Lookup(n.attrib, "type").value in reg.elements)
      || (d.ByTag? && n.tag in reg.elements)
    ensures Dispatch(reg, d, n).Err? ==> Dispatch(reg, d, n) == Err(UnknownTag(n.tag))
  {
  }

  /** The two versions choose the same class for a node whose `type` is
      not a registered element type and whose tag is not one either. */
  lemma DispatchersAgree(reg: Reg, n: Node)
    requires Lookup(n.attrib, "type").None? || Lookup(n.attrib, "type").value !in reg.elements
    requires n.tag !in reg.elements
    ensures Dispatch(reg, ByTypeThenTag, n) == Dispatch(reg, ByTag, n)
  {
  }

  /** The registrations lib/ggb_base_object.py can make: its own
      `create_ggb_class` writes only its own `ggb_classes`, and nothing
      writes its `element_classes`. */
  predicate BaseOnly(es: seq<Registration>)
  {
    forall i :: 0 <= i < |es| ==> es[i].GgbClass? && Named(es[i])
  }

  /** An `<element type="point">` node: the curated version picks `Point`
      from its type. */
  lemma PointElementDispatch(n: Node)
    requires n.tag == "element" && Lookup(n.attrib, "type") == Some("point")
    ensures AllNamed(ElementRegistrations)
    ensures Dispatch(Load(Reg(map[], map[]), ElementRegistrations), ByTypeThenTag, n) == Ok(Point)
  {
    PointType(Reg(map[], map[]));
  }

  /** The base version looks the tag up in its own registries, whose
      `element_classes` stays empty: a node tagged 'element' is a KeyError
      unless one of that module's own registrations used the tag
      'element'. */
  lemma BaseElementDispatch(n: Node, base: seq<Registration>)
    requires n.tag == "element"
    requires BaseOnly(base) && forall i :: 0 <= i < |base| ==> !WritesGgb(base[i], "element")
    ensures AllNamed(base)
    ensures Load(Reg(map[], map[]), base).elements == map[]
    ensures Dispatch(Load(Reg(map[], map[]), base), ByTag, n) == Err(UnknownTag("element"))
  {
    var r := Reg(map[], map[]);
    assert AllNamed(base);
    BaseLoadNoElements(base);
    GgbUntouched(r, base, "element");
  }

  /** Registrations made through `create_ggb_class` alone leave
      `element_classes` empty. */
  lemma {:induction false} BaseLoadNoElements(base: seq<Registration>)
    requires BaseOnly(base)
    ensures AllNamed(base) && Load(Reg(map[], map[]), base).elements == map[]
  {
    assert AllNamed(base);
    if base != [] {
      BaseLoadNoElements(base[..|base| - 1]);
    }
  }

  /** `c.__init__(node=n)` once the children are converted:
      `XMLObject.__init__` and `GGBObject.__init__` each take the tag, load
      the attributes and parse the text, then the chain of `c` runs with the
      node. */
  function Build(c: ClassDef, n: Node, kids: seq<Obj>): (r: Obj)
    ensures r.cls == c
  {
    var p := ParseAttrib(n.attrib);
    var o := Obj(c, n.tag, PutAll(PutAll([], p), p), [], [], ParseText(n.text), kids);
    RunSteps(o, Chain(c, Keys(n.attrib)), Some(p), ZeroRgb, c)
  }

  /** `GGBObject.xml2ggb_object(n)`: look the class up, convert the children
      in order, build the instance and load the node's attributes once more.
      The first node in pre-order whose lookup fails fails the whole tree. */
  function FromNode(reg: Reg, d: Dispatcher, n: Node): (r: Result<Obj>)
    decreases n, 2
  {
    match Dispatch(reg, d, n)
    case Err(e) => Err(e)
    case Ok(c) =>
      match FromNodes(reg, d, n.children)
      case Err(e) => Err(e)
      case Ok(kids) => Ok(LoadAttrs(Build(c, n, kids), ParseAttrib(n.attrib)))
  }

  /** `[GGBObject.xml2ggb_object(child) for child in node]` */
  function FromNodes(reg: Reg, d: Dispatcher, ns: seq<Node>): Result<seq<Obj>>
    decreases ns, 1
  {
    Collect(Converted(reg, d, ns))
  }

  /** Each node's conversion, in order. */
  function Converted(reg: Reg, d: Dispatcher, ns: seq<Node>): (r: seq<Result<Obj>>)
    ensures |r| == |ns| && forall k :: 0 <= k < |ns| ==> r[k] == FromNode(reg, d, ns[k])
    decreases ns, 0
  {
    if ns == [] then []
    else
      var r := [FromNode(reg, d, ns[0])] + Converted(reg, d, ns[1..]);
      assert forall k :: 1 <= k < |ns| ==> ns[k] == ns[1..][k - 1];
      r
  }

  /** A list built element by element: the first failure, if any, is the
      list's; otherwise the list of the results, in order. */
  function Collect<T>(rs: seq<Result<T>>): (r: Result<seq<T>>)
    ensures r.Ok? <==> forall k :: 0 <= k < |rs| ==> rs[k].Ok?
    ensures r.Ok? ==> |r.value| == |rs| && forall k :: 0 <= k < |rs| ==> rs[k] == Ok(r.value[k])
  {
    if rs == [] then Ok([])
    else
      match rs[0]
      case Err(e) => Err(e)
      case Ok(x) =>
        match Collect(rs[1..])
        case Err(e) => Err(e)
        case Ok(xs) =>
          assert forall k :: 1 <= k < |rs| ==> rs[k] == rs[1..][k - 1];
          Ok([x] + xs)
  }

  /** Every node of the tree has a class to go to. */
  predicate AllKnown(reg: Reg, d: Dispatcher, n: Node)
    decreases n
  {
    Dispatch(reg, d, n).Ok? && forall k :: 0 <= k < |n.children| ==> AllKnown(reg, d, n.children[k])
  }

  /** A tree converts exactly when every node in it has a class. */
  lemma {:induction false} FromNodeOk(reg: Reg, d: Dispatcher, n: Node)
    ensures FromNode(reg, d, n).Ok? <==> AllKnown(reg, d, n)
    decreases n
  {
    var rs := Converted(reg, d, n.children);
    forall k | 0 <= k < |n.children|
      ensures rs[k].Ok? <==> AllKnown(reg, d, n.children[k])
    {
      FromNodeOk(reg, d, n.children[k]);
    }
    assert Collect(rs).Ok? <==> forall k :: 0 <= k < |n.children| ==> AllKnown(reg, d, n.children[k]);
  }

  /** The instance a node becomes: its class is the one looked up, its
      content is the parsed text, its first children are the node's
      children converted in order (default children follow), and its tag is
      the one the last seed of the chain sets, not the node's. */
  lemma FromNodeShape(reg: Reg, d: Dispatcher, n: Node)
    requires FromNode(reg, d, n).Ok?
    ensures var o := FromNode(reg, d, n).value;
      && Dispatch(reg, d, n) == Ok(o.cls)
      && o.content == ParseText(n.text)
      && |n.children| <= |o.children|
      && (forall k :: 0 <= k < |n.children| ==> FromNode(reg, d, n.children[k]) == Ok(o.children[k]))
      && o.tag == LastTag(Chain(o.cls, Keys(n.attrib)), n.tag)
  {
    var c := Dispatch(reg, d, n).value;
    var rs := Converted(reg, d, n.children);
    var kids := Collect(rs).value;
    var p := ParseAttrib(n.attrib);
    var o0 := Obj(c, n.tag, PutAll(PutAll([], p), p), [], [], ParseText(n.text), kids);
    var b := Build(c, n, kids);
    assert b.content == o0.content && b.children[..|kids|] == kids && b.tag == LastTag(Chain(c, Keys(n.attrib)), n.tag) by {
      RunStepsFacts(o0, Chain(c, Keys(n.attrib)), Some(p), ZeroRgb, c, []);
    }
    var o := FromNode(reg, d, n).value;
    assert o == LoadAttrs(b, p);
    forall k | 0 <= k < |n.children| ensures FromNode(reg, d, n.children[k]) == Ok(o.children[k]) {
      assert rs[k] == Ok(kids[k]);
      assert o.children[k] == b.children[..|kids|][k];
    }
  }

  /** Loading the node's attributes over entries whose keys start with
      them puts the parsed values in front; the rest have other keys. */
  lemma ReloadOverFront(b: Attrs, p: Attrs)
    requires Unique(p) && KeysStartWith(b, Keys(p))
    ensures var a := PutAll(b, p);
      && Unique(a) && |p| <= |a| && a[..|p|] == p
      && forall k :: |p| <= k < |a| ==> a[k].0 !in Keys(p)
  {
    PutAllOverPrefix(b, p);
    PutAllUnique(b, p);
    var a := PutAll(b, p);
    assert a[..|p|] == p;
  }

  /** The first load puts the node's own keys first. */
  lemma FirstLoadKeys(p: Attrs)
    requires Unique(p)
    ensures KeysStartWith(PutAll(PutAll([], p), p), Keys(p))
  {
    PutAllTwice(p);
    var ks := Keys(p);
    assert ks[..|ks|] == ks;
  }

  /** Before the last load, the keys already start with the node's. */
  lemma BuildKeys(c: ClassDef, n: Node, kids: seq<Obj>)
    requires WellFormed(n)
    ensures KeysStartWith(Build(c, n, kids).attrs, Keys(ParseAttrib(n.attrib)))
  {
    var p := ParseAttrib(n.attrib);
    var o0 := Obj(c, n.tag, PutAll(PutAll([], p), p), [], [], ParseText(n.text), kids);
    MapValuesKeys(n.attrib, ParseString);
    FirstLoadKeys(p);
    var steps := Chain(c, Keys(n.attrib));
    assert Build(c, n, kids) == RunSteps(o0, steps, Some(p), ZeroRgb, c);
    RunStepsFacts(o0, steps, Some(p), ZeroRgb, c, Keys(p));
  }

  /** The attributes of the instance a node becomes start with the node's
      own attributes, in document order with their parsed values; every
      other entry is a default whose key the node does not have. */
  lemma FromNodeAttrs(reg: Reg, d: Dispatcher, n: Node)
    requires WellFormed(n) && FromNode(reg, d, n).Ok?
    ensures var o := FromNode(reg, d, n).value;
      && Unique(o.attrs)
      && |n.attrib| <= |o.attrs|
      && o.attrs[..|n.attrib|] == ParseAttrib(n.attrib)
      && forall k :: |n.attrib| <= k < |o.attrs| ==> !HasKey(n.attrib, o.attrs[k].0)
  {
    var c := Dispatch(reg, d, n).value;
    var kids := FromNodes(reg, d, n.children).value;
    var p := ParseAttrib(n.attrib);
    MapValuesKeys(n.attrib, ParseString);
    BuildKeys(c, n, kids);
    ReloadOverFront(Build(c, n, kids).attrs, p);
  }

  // ---- __getattribute__ and __setattr__ ----

  /** The children an `isinstance(c, cls)` test keeps, in order. */
  function InstancesOf(children: seq<Obj>, cls: ClassDef): (r: seq<Obj>)
  {
    if children == [] then []
    else (if IsInstance(children[0].cls, cls) then [children[0]] else []) + InstancesOf(children[1..], cls)
  }

  /** The index of the first child of exactly class `cls`, or -1. */
  function FirstOfClass(children: seq<Obj>, cls: ClassDef): (r: int)
    ensures -1 <= r < |children|
    ensures r >= 0 ==> children[r].cls == cls && forall k :: 0 <= k < r ==> children[k].cls != cls
    ensures r == -1 <==> !HasClass(children, cls)
  {
    if children == [] then -1
    else if children[0].cls == cls then 0
    else
      var k := FirstOfClass(children[1..], cls);
      assert k == -1 ==> forall j :: 1 <= j < |children| ==> children[j].cls == children[1..][j - 1].cls;
      if k < 0 then -1 else k + 1
  }

  /** Reading `o.name`: an `xml_attrs` entry first, then a role (the one
      child that is an instance of the role's class, None when there is
      none, an error when there are several), then a plain attribute. */
  function Get(o: Obj, name: string): (r: Result<Field>)
  {
    if HasKey(o.attrs, name) then Ok(FValue(Lookup(o.attrs, name).value))
    else if HasKey(o.roles, name) then
      var m := InstancesOf(o.children, Lookup(o.roles, name).value);
      if |m| == 0 then Ok(FValue(VNone))
      else if |m| == 1 then Ok(FObj(m[0]))
      else Err(AmbiguousChild(name))
    else if HasKey(o.fields, name) then Ok(Lookup(o.fields, name).value)
    else Err(MissingAttribute(name))
  }

  /** Writing `o.name = f`: an `xml_attrs` entry is overwritten where it
      stands; for a role, the first child of exactly the role's class is
      replaced (nothing happens when there is none); any other name becomes
      a plain attribute. An object stored in `xml_attrs` or a plain value
      stored among the children is refused. */
  function Set(o: Obj, name: string, f: Field): (r: Result<Obj>)
  {
    if HasKey(o.attrs, name) then
      if f.FValue? then Ok(o.(attrs := Put(o.attrs, name, f.v)))
      else Err(MalformedValue(name))
    else if HasKey(o.roles, name) then
      var i := FirstOfClass(o.children, Lookup(o.roles, name).value);
      if i < 0 then Ok(o)
      else if f.FObj? then Ok(o.(children := o.children[i := f.o]))
      else Err(MalformedValue(name))
    else Ok(o.(fields := Put(o.fields, name, f)))
  }

  // ---- properties of Get and Set ----

  lemma {:induction false} InstancesNone(ch: seq<Obj>, c: ClassDef)
    requires forall k :: 0 <= k < |ch| ==> !IsInstance(ch[k].cls, c)
    ensures InstancesOf(ch, c) == []
  {
    if ch != [] {
      assert forall k :: 0 <= k < |ch[1..]| ==> ch[1..][k] == ch[k + 1];
      InstancesNone(ch[1..], c);
    }
  }

  lemma {:induction false} InstancesOne(ch: seq<Obj>, c: ClassDef, k: nat)
    requires k < |ch| && IsInstance(ch[k].cls, c)
    requires forall j :: 0 <= j < |ch| && j != k ==> !IsInstance(ch[j].cls, c)
    ensures InstancesOf(ch, c) == [ch[k]]
  {
    assert forall j :: 0 <= j < |ch[1..]| ==> ch[1..][j] == ch[j + 1];
    if k == 0 {
      InstancesNone(ch[1..], c);
    } else {
      InstancesOne(ch[1..], c, k - 1);
    }
  }

  lemma {:induction false} InstancesTwo(ch: seq<Obj>, c: ClassDef, k: nat, k': nat)
    requires k < k' < |ch| && IsInstance(ch[k].cls, c) && IsInstance(ch[k'].cls, c)
    ensures |InstancesOf(ch, c)| >= 2
  {
    assert ch[k'] == ch[1..][k' - 1];
    if k == 0 {
      InstancesAtLeastOne(ch[1..], c, k' - 1);
    } else {
      assert ch[k] == ch[1..][k - 1];
      InstancesTwo(ch[1..], c, k - 1, k' - 1);
    }
  }

  lemma {:induction false} InstancesAtLeastOne(ch: seq<Obj>, c: ClassDef, k: nat)
    requires k < |ch| && IsInstance(ch[k].cls, c)
    ensures |InstancesOf(ch, c)| >= 1
  {
    if k > 0 {
      assert ch[k] == ch[1..][k - 1];
      InstancesAtLeastOne(ch[1..], c, k - 1);
    }
  }

  /** An `xml_attrs` entry shadows a role and a plain attribute of the
      same name. */
  lemma GetAttrFirst(o: Obj, name: string, v: Value)
    requires Lookup(o.attrs, name) == Some(v)
    ensures Get(o, name) == Ok(FValue(v))
  {
  }

  /** Reading a role gives None when no child is an instance of the
      role's class. With GetRoleOne and GetRoleTwo this covers every list
      of children. */
  lemma GetRoleNone(o: Obj, name: string, c: ClassDef)
    requires !HasKey(o.attrs, name) && Lookup(o.roles, name) == Some(c)
    requires forall k :: 0 <= k < |o.children| ==> !IsInstance(o.children[k].cls, c)
    ensures Get(o, name) == Ok(FValue(VNone))
  {
    InstancesNone(o.children, c);
  }

  /** Reading a role gives the child when exactly one child is an instance
      of the role's class (a subclass instance counts). */
  lemma GetRoleOne(o: Obj, name: string, c: ClassDef, k: nat)
    requires !HasKey(o.attrs, name) && Lookup(o.roles, name) == Some(c)
    requires k < |o.children| && IsInstance(o.children[k].cls, c)
    requires forall j :: 0 <= j < |o.children| && j != k ==> !IsInstance(o.children[j].cls, c)
    ensures Get(o, name) == Ok(FObj(o.children[k]))
  {
    InstancesOne(o.children, c, k);
  }

  /** Reading a role fails when two children are instances of its class. */
  lemma GetRoleTwo(o: Obj, name: string, c: ClassDef, k: nat, k': nat)
    requires !HasKey(o.attrs, name) && Lookup(o.roles, name) == Some(c)
    requires k < k' < |o.children| && IsInstance(o.children[k].cls, c) && IsInstance(o.children[k'].cls, c)
    ensures Get(o, name) == Err(AmbiguousChild(name))
  {
    InstancesTwo(o.children, c, k, k');
  }

  /** Setting an `xml_attrs` entry overwrites that entry in place: the keys
      and every other entry stay, nothing else of the object changes, and
      reading the name back gives the new value. */
  lemma SetAttr(o: Obj, name: string, v: Value)
    requires HasKey(o.attrs, name)
    ensures Set(o, name, FValue(v)).Ok?
    ensures var o' := Set(o, name, FValue(v)).value;
      && Keys(o'.attrs) == Keys(o.attrs)
      && (forall k :: k != name ==> Lookup(o'.attrs, k) == Lookup(o.attrs, k))
      && o'.children == o.children && o'.fields == o.fields && o'.tag == o.tag
      && Get(o', name) == Ok(FValue(v))
  {
    forall k ensures Lookup(Put(o.attrs, name, v), k) == if k == name then Some(v) else Lookup(o.attrs, k) {
      PutLookup(o.attrs, name, v, k);
    }
  }

  /** Setting a role replaces the first child of exactly the role's class,
      at its index, and keeps the number and the other children; with no
      such child (an instance of a subclass does not count) nothing
      changes. */
  lemma SetRole(o: Obj, name: string, c: ClassDef, x: Obj)
    requires !HasKey(o.attrs, name) && Lookup(o.roles, name) == Some(c)
    ensures Set(o, name, FObj(x)).Ok?
    ensures !HasClass(o.children, c) ==> Set(o, name, FObj(x)) == Ok(o)
    ensures HasClass(o.children, c) ==>
      exists i :: 0 <= i < |o.children| && o.children[i].cls == c
        && (forall j :: 0 <= j < i ==> o.children[j].cls != c)
        && Set(o, name, FObj(x)) == Ok(o.(children := o.children[i := x]))
  {
  }

  /** When the role's one instance is of exactly the role's class and the
      new child is too, reading the role back gives the new child. */
  lemma SetRoleRoundTrip(o: Obj, name: string, c: ClassDef, x: Obj)
    requires !HasKey(o.attrs, name) && Lookup(o.roles, name) == Some(c)
    requires x.cls == c && HasClass(o.children, c)
    requires Get(o, name).Ok? && Get(o, name).value.FObj?
    ensures Get(Set(o, name, FObj(x)).value, name) == Ok(FObj(x))
  {
    var ch := o.children;
    assert |InstancesOf(ch, c)| == 1;
    var i := FirstOfClass(ch, c);
    assert IsInstance(ch[i].cls, c);
    assert forall j :: 0 <= j < |ch| && j != i ==> !IsInstance(ch[j].cls, c) by {
      forall j | 0 <= j < |ch| && j != i ensures !IsInstance(ch[j].cls, c) {
        if IsInstance(ch[j].cls, c) {
          if j < i { InstancesTwo(ch, c, j, i); } else { InstancesTwo(ch, c, i, j); }
        }
      }
    }
    var ch' := ch[i := x];
    assert Set(o, name, FObj(x)) == Ok(o.(children := ch'));
    InstancesOne(ch', c, i);
  }

  /** Any other name becomes a plain attribute: the serialised parts of the
      object (attributes, children, tag, content) do not change, and
      reading the name back gives what was set. */
  lemma SetPlain(o: Obj, name: string, f: Field)
    requires !HasKey(o.attrs, name) && !HasKey(o.roles, name)
    ensures Set(o, name, f).Ok?
    ensures var o' := Set(o, name, f).value;
      && o'.attrs == o.attrs && o'.children == o.children && o'.tag == o.tag
      && o'.content == o.content && o'.roles == o.roles
      && Get(o', name) == Ok(f)
  {
    PutLookup(o.fields, name, f, name);
  }
}
