/** An instance of a generated class as lib/__init__.py updates it in place:
    `load_dict` with `register_xml_attrs`, the seeding loops of a generated
    `__init__`, `__setattr__`, and the list protocol over `children`. Its
    children are held as values (`Objects.Obj`); the state as a whole is
    `Value()`, and every method is proved against the functions of
    `Objects`. */
module Instances {
  import opened Wrappers
  import opened Codec
  import opened OrderedMap
  import opened Schema
  import opened Objects
  import opened Escape
  import opened Render

  /** Python's index into a list of length `n`: a negative index counts
      from the end; `Ok` only when it lands inside the list. */
  function PyIndex(i: int, n: nat): (r: Result<nat>)
    ensures r.Ok? <==> -(n as int) <= i < n
    ensures r.Ok? ==> r.value < n && (i >= 0 ==> r.value == i) && (i < 0 ==> r.value == n + i)
  {
    var k := if i < 0 then n + i else i;
    if 0 <= k < n then Ok(k) else Err(IndexOutOfRange(i))
  }

  /** A node's attribute texts as string values. */
  function AsValues(attrib: OMap<string>): (r: Attrs)
    ensures |r| == |attrib|
    ensures forall i :: 0 <= i < |r| ==> r[i] == (attrib[i].0, VStr(attrib[i].1))
  {
    MapValues(attrib, (s: string) => VStr(s))
  }

  /** `str(value)` of a node attribute is the attribute text itself, so
      loading a node's attributes is loading them as string values. */
  lemma AttribAsValues(attrib: OMap<string>)
    ensures ParseValues(AsValues(attrib)) == ParseAttrib(attrib)
  {
    var a := ParseValues(AsValues(attrib));
    var b := ParseAttrib(attrib);
    forall i | 0 <= i < |a| ensures a[i] == b[i] {
      ParsedAt(AsValues(attrib), i);
      assert AsValues(attrib)[i] == (attrib[i].0, VStr(attrib[i].1));
      assert PyStr(VStr(attrib[i].1)) == attrib[i].1;
    }
  }

  lemma ParsedAt(vals: Attrs, i: nat)
    requires i < |vals|
    ensures |ParseValues(vals)| == |vals|
    ensures ParseValues(vals)[i] == (vals[i].0, ParseString(PyStr(vals[i].1)))
  {
  }

  /** `ParseValues` over one more pair parses that pair at the end. */
  lemma ParseValuesSnoc(vals: Attrs, i: nat)
    requires i < |vals|
    ensures ParseValues(vals[..i + 1]) == ParseValues(vals[..i]) + [(vals[i].0, ParseString(PyStr(vals[i].1)))]
  {
    var a := ParseValues(vals[..i + 1]);
    var b := ParseValues(vals[..i]) + [(vals[i].0, ParseString(PyStr(vals[i].1)))];
    assert |a| == |b|;
    forall j | 0 <= j < |a| ensures a[j] == b[j] {
      assert vals[..i + 1][j] == vals[j];
      if j < i { assert vals[..i][j] == vals[j]; }
    }
  }

  /** One more pair of `load_dict`. */
  lemma LoadStep(m: Attrs, xmlAttrs: Attrs, i: nat)
    requires i < |xmlAttrs|
    ensures PutAll(m, ParseValues(xmlAttrs[..i + 1])) ==
      Put(PutAll(m, ParseValues(xmlAttrs[..i])), xmlAttrs[i].0, ParseString(PyStr(xmlAttrs[i].1)))
  {
    ParseValuesSnoc(xmlAttrs, i);
    PutAllAppend(m, ParseValues(xmlAttrs[..i]), (xmlAttrs[i].0, ParseString(PyStr(xmlAttrs[i].1))));
  }

  /** `PutAll` over one more pair puts that pair last. */
  lemma PutAllAppend<V>(m: OMap<V>, pairs: seq<(string, V)>, x: (string, V))
    ensures PutAll(m, pairs + [x]) == Put(PutAll(m, pairs), x.0, x.1)
  {
    assert (pairs + [x])[..|pairs|] == pairs;
  }

  lemma PutAllSnoc<V>(m: OMap<V>, pairs: seq<(string, V)>, i: nat)
    requires i < |pairs|
    ensures PutAll(m, pairs[..i + 1]) == Put(PutAll(m, pairs[..i]), pairs[i].0, pairs[i].1)
  {
    assert pairs[..i + 1][..i] == pairs[..i];
  }

  /** The node's attributes as `RunSteps` reloads them. */
  function ParsedNode(node: Option<OMap<string>>): Option<Attrs>
  {
    if node.Some? then Some(ParseAttrib(node.value)) else None
  }

  /** `Color.__init__` with no colour loads 0, 0, 0, which parse back to
      themselves. */
  lemma ZeroRgbParsed()
    ensures ParseValues(ZeroRgb) == ZeroRgb
  {
    IntRoundTrip(0);
  }

  class Instance {
    var cls: ClassDef
    var tag: string
    var attrs: Attrs
    var roles: OMap<ClassDef>
    var fields: OMap<Field>
    var content: Value
    var children: seq<Obj>

    /** The instance as a value. */
    function Value(): Obj
      reads this
    {
      Obj(cls, tag, attrs, roles, fields, content, children)
    }

    constructor (o: Obj)
      ensures Value() == o
    {
      cls, tag, attrs, roles := o.cls, o.tag, o.attrs, o.roles;
      fields, content, children := o.fields, o.content, o.children;
    }

    /** `load_dict(xml_attrs)` then `register_xml_attrs`: every pair is
        parsed from its `str` and assigned in `xml_attrs`, in order. */
    method LoadDict(xmlAttrs: Attrs)
      modifies this
      ensures Value() == LoadAttrs(old(Value()), ParseValues(xmlAttrs))
    {
      var i := 0;
      while i < |xmlAttrs|
        invariant 0 <= i <= |xmlAttrs|
        invariant attrs == PutAll(old(attrs), ParseValues(xmlAttrs[..i]))
        invariant Value() == old(Value()).(attrs := attrs)
      {
        var (key, value) := xmlAttrs[i];
        LoadStep(old(attrs), xmlAttrs, i);
        attrs := Put(attrs, key, ParseString(PyStr(value)));
        i := i + 1;
      }
      assert xmlAttrs[..i] == xmlAttrs;
    }

    /** The defaults loop of a generated `__init__`
        (lib/__init__.py:279-282): a default whose key is not yet in
        `xml_attrs` is added at the end. */
    method AddDefaultAttrs(defaults: Attrs)
      modifies this
      ensures Value() == old(Value()).(attrs := AddMissing(old(attrs), defaults))
    {
      var i := 0;
      while i < |defaults|
        invariant 0 <= i <= |defaults|
        invariant Value() == old(Value()).(attrs := AddMissing(old(attrs), defaults[..i]))
      {
        var key, value := defaults[i].0, defaults[i].1;
        AddMissingSnoc(old(attrs), defaults, i);
        if !HasKey(attrs, key) {
          attrs := attrs + [(key, value)];
        }
        i := i + 1;
      }
      assert defaults[..i] == defaults;
    }

    /** `child_classes.update(child_classes)` (lib/__init__.py:284-285). */
    method MergeRoles(more: OMap<ClassDef>)
      modifies this
      ensures Value() == old(Value()).(roles := PutAll(old(roles), more))
    {
      var j := 0;
      while j < |more|
        invariant 0 <= j <= |more|
        invariant Value() == old(Value()).(roles := PutAll(old(roles), more[..j]))
      {
        PutAllSnoc(old(roles), more, j);
        roles := Put(roles, more[j].0, more[j].1);
        j := j + 1;
      }
      assert more[..j] == more;
    }

    /** The loop over `child_classes` (lib/__init__.py:286-292): a role
        class with no child of exactly that class gets a default child. */
    method AddDefaultChildren(ghost bound: ClassDef)
      requires RolesBelow(roles, bound)
      modifies this
      ensures Value() == old(Value()).(children := AddDefaults(old(children), old(roles), bound))
    {
      var k := 0;
      while k < |roles|
        invariant 0 <= k <= |roles|
        invariant RolesBelow(roles[..k], bound)
        invariant Value() == old(Value()).(children := AddDefaults(old(children), roles[..k], bound))
      {
        var c := roles[k].1;
        assert roles[..k + 1][..k] == roles[..k];
        if !HasClass(children, c) {
          children := children + [New(c, [], ZeroRgb)];
        }
        k := k + 1;
      }
      assert roles[..k] == roles;
    }

    /** The body of a generated `__init__` after its `super` call
        (lib/__init__.py:279-299): the three loops above, then the node's
        attributes are loaded again and the tag becomes the step's. */
    method Seed(s: Step, node: Option<OMap<string>>, ghost bound: ClassDef)
      requires s.Seed? && s in bound.steps && RolesBelow(roles, bound)
      modifies this
      ensures Value() == RunStep(old(Value()), s, ParsedNode(node), ZeroRgb, bound)
    {
      AddDefaultAttrs(s.defaults);
      MergeRoles(s.roles);
      RolesOfStep(s, bound);
      PutAllBelow(old(roles), s.roles, bound);
      AddDefaultChildren(bound);
      if node.Some? {
        AttribAsValues(node.value);
        LoadDict(AsValues(node.value));
      }
      tag := s.tag;
    }

    /** `__setattr__` (lib/__init__.py:323-337): an `xml_attrs` entry is
        overwritten, a role replaces the first child of exactly the role's
        class, any other name becomes a plain attribute. */
    method SetAttr(name: string, f: Field) returns (r: Result<()>)
      modifies this
      ensures Set(old(Value()), name, f).Ok? ==> r.Ok? && Value() == Set(old(Value()), name, f).value
      ensures Set(old(Value()), name, f).Err? ==> r.Err? && Value() == old(Value())
    {
      if HasKey(attrs, name) {
        if f.FValue? {
          attrs := Put(attrs, name, f.v);
          return Ok(());
        }
        return Err(MalformedValue(name));
      } else if HasKey(roles, name) {
        var c := Lookup(roles, name).value;
        var i := 0;
        while i < |children|
          invariant 0 <= i <= |children|
          invariant forall j :: 0 <= j < i ==> children[j].cls != c
          invariant Value() == old(Value())
        {
          if children[i].cls == c {
            assert FirstOfClass(children, c) == i;
            if f.FObj? {
              children := children[i := f.o];
              return Ok(());
            }
            return Err(MalformedValue(name));
          }
          i := i + 1;
        }
        return Ok(());
      } else {
        fields := Put(fields, name, f);
        return Ok(());
      }
    }

    /** The `__init__` bodies of a class chain, each after its `super`
        call returns, so the first step runs first. */
    method RunChain(steps: seq<Step>, node: Option<OMap<string>>, ghost bound: ClassDef)
      requires forall i :: 0 <= i < |steps| ==> steps[i] in bound.steps
      requires RolesBelow(roles, bound)
      modifies this
      ensures Value() == RunSteps(old(Value()), steps, ParsedNode(node), ZeroRgb, bound)
      decreases |steps|
    {
      if steps != [] {
        var last := steps[|steps| - 1];
        RunChain(steps[..|steps| - 1], node, bound);
        ghost var before := Value();
        assert RolesBelow(before.roles, bound);
        if last.ColorInit? {
          ZeroRgbParsed();
          LoadDict(ZeroRgb);
        } else {
          Seed(last, node, bound);
        }
      }
    }

    /** `c(node=n)` once the children are converted: `XMLObject.__init__`
        and `GGBObject.__init__` each take the tag, load the attributes and
        parse the text, then the chain of `c` runs with the node. */
    constructor FromNode(c: ClassDef, n: Node, kids: seq<Obj>)
      ensures Value() == Build(c, n, kids)
    {
      cls, tag, attrs, roles := c, n.tag, [], [];
      fields, content, children := [], ParseText(n.text), kids;
      new;
      var vals := AsValues(n.attrib);
      AttribAsValues(n.attrib);
      LoadDict(vals);
      LoadDict(vals);
      RunChain(Chain(c, Keys(n.attrib)), Some(n.attrib), c);
    }

    /** `GGBObject.attr_repr_of(self.xml_attrs)`
        (lib/curated_ggb_classes.py:40-45): every string value of
        `xml_attrs` is replaced in place by its escaped form, then the map
        is rendered. */
    method EscapedAttrRepr() returns (text: string)
      modifies this
      ensures Value() == old(Value()).(attrs := EscapeAttrs(old(attrs)))
      ensures text == AttrReprOf(EscapeAttrs(old(attrs)))
    {
      ghost var e := EscapeAttrs(attrs);
      var i := 0;
      while i < |attrs|
        invariant 0 <= i <= |attrs| == |e|
        invariant forall j :: 0 <= j < i ==> attrs[j] == e[j]
        invariant forall j :: i <= j < |attrs| ==> attrs[j] == old(attrs)[j]
        invariant Value() == old(Value()).(attrs := attrs)
      {
        var key, value := attrs[i].0, attrs[i].1;
        if value.VStr? {
          attrs := attrs[i := (key, VStr(HtmlStringRepr(value.s)))];
        }
        i := i + 1;
      }
      assert attrs == e;
      text := RenderAttrs(attrs);
    }

    /** `xml_repr()` of the instance: the text, and the escaping left in
        the instance and every descendant. */
    method Serialise() returns (r: Result<string>)
      modifies this
      ensures r == XmlRepr(old(Value()))
      ensures r.Ok? ==> Value() == Escaped(old(Value()))
      ensures r.Err? ==> Value() == old(Value())
    {
      r := XmlRepr(Value());
      if r.Ok? {
        var e := Escaped(Value());
        attrs, children := e.attrs, e.children;
      }
    }

    // ---- the list protocol over `children` (lib/__init__.py:173-195) ----

    /** `add_child`: the new child goes last. */
    method AddChild(child: Obj)
      modifies this
      ensures Value() == old(Value()).(children := old(children) + [child])
    {
      children := children + [child];
    }

    /** `len(x)` */
    method Len() returns (n: nat)
      ensures n == |children|
    {
      n := |children|;
    }

    /** `x[i]`, with Python's negative indices. */
    method GetItem(i: int) returns (r: Result<Obj>)
      ensures r.Ok? <==> -|children| <= i < |children|
      ensures r.Ok? ==> r.value == children[PyIndex(i, |children|).value]
      ensures r.Err? ==> r == Err(IndexOutOfRange(i))
    {
      var k := PyIndex(i, |children|);
      if k.Err? {
        return Err(IndexOutOfRange(i));
      }
      return Ok(children[k.value]);
    }

    /** `x[i] = child`: replaces one child in place. */
    method SetItem(i: int, child: Obj) returns (r: Result<()>)
      modifies this
      ensures r.Ok? <==> PyIndex(i, |old(children)|).Ok?
      ensures r.Ok? ==> Value() == old(Value()).(children := old(children)[PyIndex(i, |old(children)|).value := child])
      ensures r.Err? ==> Value() == old(Value())
    {
      var k := PyIndex(i, |children|);
      if k.Err? {
        return Err(IndexOutOfRange(i));
      }
      children := children[k.value := child];
      return Ok(());
    }

    /** `del x[i]`: the later children move up by one. */
    method DelItem(i: int) returns (r: Result<()>)
      modifies this
      ensures r.Ok? <==> PyIndex(i, |old(children)|).Ok?
      ensures r.Ok? ==> var k := PyIndex(i, |old(children)|).value;
        Value() == old(Value()).(children := old(children)[..k] + old(children)[k + 1..])
      ensures r.Err? ==> Value() == old(Value())
    {
      var k := PyIndex(i, |children|);
      if k.Err? {
        return Err(IndexOutOfRange(i));
      }
      children := children[..k.value] + children[k.value + 1..];
      return Ok(());
    }

    /** `child in x`: membership among the children. Python compares
        objects without `__eq__` by identity; the values here compare by
        content. */
    method Contains(child: Obj) returns (b: bool)
      ensures b <==> exists i :: 0 <= i < |children| && children[i] == child
    {
      b := child in children;
    }
  }
}
