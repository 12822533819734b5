/** The two class registries of lib/curated_ggb_classes.py: `ggb_classes`
    (tag to class) and `element_classes` (element type to class), filled
    by `create_ggb_class` and `create_element_class` as the module's
    top-level statements run, later registrations overwriting earlier ones. */
module Registry {
  import opened Strings
  import opened Schema

  /** The contents of the two global dicts. */
  datatype Reg = Reg(ggb: map<string, ClassDef>, elements: map<string, ClassDef>)

  /** One registering statement of the module, in the order they run. */
  datatype Registration =
    | GgbClass(name: string, tag: string, cls: ClassDef)
    | ElementClass(name: string, typ: string, cls: ClassDef)
    | Alias(key: string, cls: ClassDef)

  /** `tag or camel_case(name)`; `camel_case` fails on an empty name. */
  predicate Named(e: Registration)
  {
    match e
    case GgbClass(name, tag, _) => tag != [] || name != []
    case _ => true
  }

  /** The tag `create_ggb_class` registers under. */
  function ClassTag(name: string, tag: string): (t: string)
    requires tag != [] || name != []
    ensures tag != [] ==> t == tag
    ensures tag == [] ==> t == CamelCase(name)
  {
    if tag != [] then tag else CamelCase(name)
  }

  /** `type or name.lower()` in `create_element_class`. */
  function ElementType(name: string, typ: string): (t: string)
    ensures typ != [] ==> t == typ
    ensures typ == [] ==> t == Lower(name)
  {
    if typ != [] then typ else Lower(name)
  }

  /** What one registration does to the registries. */
  function Apply(r: Reg, e: Registration): Reg
    requires Named(e)
  {
    match e
    case GgbClass(name, tag, c) => r.(ggb := r.ggb[ClassTag(name, tag) := c])
    case ElementClass(name, typ, c) =>
      var t := ElementType(name, typ);
      Reg(r.ggb["element" := c][t := c], r.elements[t := c])
    case Alias(key, c) => r.(ggb := r.ggb[key := c])
  }

  predicate AllNamed(es: seq<Registration>)
  {
    forall i :: 0 <= i < |es| ==> Named(es[i])
  }

  /** The registries after running the registrations `es` in order. */
  function Load(r: Reg, es: seq<Registration>): Reg
    requires AllNamed(es)
  {
    if es == [] then r else Apply(Load(r, es[..|es| - 1]), es[|es| - 1])
  }

  /** The `ggb_classes` keys a registration writes. */
  predicate WritesGgb(e: Registration, k: string)
    requires Named(e)
  {
    match e
    case GgbClass(name, tag, _) => k == ClassTag(name, tag)
    case ElementClass(name, typ, _) => k == "element" || k == ElementType(name, typ)
    case Alias(key, _) => k == key
  }

  /** The `element_classes` keys a registration writes. */
  predicate WritesElement(e: Registration, k: string)
    requires Named(e)
  {
    e.ElementClass? && k == ElementType(e.name, e.typ)
  }

  /** The last registration writing a key decides its class. */
  lemma {:induction false} GgbLastWins(r: Reg, es: seq<Registration>, i: nat, k: string)
    requires AllNamed(es) && i < |es| && WritesGgb(es[i], k)
    requires forall j :: i < j < |es| ==> !WritesGgb(es[j], k)
    ensures k in Load(r, es).ggb && Load(r, es).ggb[k] == es[i].cls
  {
    if i < |es| - 1 {
      GgbLastWins(r, es[..|es| - 1], i, k);
    }
  }

  lemma {:induction false} ElementLastWins(r: Reg, es: seq<Registration>, i: nat, k: string)
    requires AllNamed(es) && i < |es| && WritesElement(es[i], k)
    requires forall j :: i < j < |es| ==> !WritesElement(es[j], k)
    ensures k in Load(r, es).elements && Load(r, es).elements[k] == es[i].cls
  {
    if i < |es| - 1 {
      ElementLastWins(r, es[..|es| - 1], i, k);
    }
  }

  /** A key no registration writes keeps whatever it had. */
  lemma {:induction false} GgbUntouched(r: Reg, es: seq<Registration>, k: string)
    requires AllNamed(es)
    requires forall j :: 0 <= j < |es| ==> !WritesGgb(es[j], k)
    ensures (k in Load(r, es).ggb <==> k in r.ggb)
    ensures k in r.ggb ==> Load(r, es).ggb[k] == r.ggb[k]
  {
    if es != [] {
      GgbUntouched(r, es[..|es| - 1], k);
    }
  }

  lemma {:induction false} ElementUntouched(r: Reg, es: seq<Registration>, k: string)
    requires AllNamed(es)
    requires forall j :: 0 <= j < |es| ==> !WritesElement(es[j], k)
    ensures (k in Load(r, es).elements <==> k in r.elements)
    ensures k in r.elements ==> Load(r, es).elements[k] == r.elements[k]
  {
    if es != [] {
      ElementUntouched(r, es[..|es| - 1], k);
    }
  }

  lemma {:induction false} LoadAppend(r: Reg, a: seq<Registration>, b: seq<Registration>)
    requires AllNamed(a) && AllNamed(b)
    ensures AllNamed(a + b) && Load(r, a + b) == Load(Load(r, a), b)
  {
    if b != [] {
      LoadAppend(r, a, b[..|b| - 1]);
      assert (a + b)[..|a + b| - 1] == a + b[..|b| - 1];
    } else {
      assert a + b == a;
    }
  }

  // ---- the registrations of the table that decide contested keys ----

  /** The two line-style classes share the tag 'lineStyle'; `LineStyle` is
      then registered by hand under 'linestyle'. */
  const LineStyleRegistrations: seq<Registration> := [
    GgbClass("EVLineStyle", "lineStyle", EVLineStyle),
    GgbClass("ElementLineStyle", "lineStyle", ElementLineStyle),
    Alias("linestyle", LineStyle)
  ]

  /** The element classes, in the order they are created. */
  const ElementRegistrations: seq<Registration> := [
    ElementClass("Boolean", "", Boolean),
    ElementClass("FunctionNVar", "functionNVar", FunctionNVar),
    ElementClass("List", "", List),
    ElementClass("Numeric", "", Numeric),
    ElementClass("Point", "", Point),
    ElementClass("Polygon", "", Polygon),
    ElementClass("Segment", "", Segment),
    ElementClass("TextField", "", TextField),
    ElementClass("Vector", "", Vector),
    ElementClass("Vector3D", "", Vector3D)
  ]

  /** Of the two classes tagged 'lineStyle' the later, `ElementLineStyle`,
      keeps the key; `LineStyle` is found only under 'linestyle'. */
  lemma LineStyleKeys(r: Reg)
    ensures AllNamed(LineStyleRegistrations)
    ensures "lineStyle" in Load(r, LineStyleRegistrations).ggb
    ensures Load(r, LineStyleRegistrations).ggb["lineStyle"] == ElementLineStyle
    ensures "linestyle" in Load(r, LineStyleRegistrations).ggb
    ensures Load(r, LineStyleRegistrations).ggb["linestyle"] == LineStyle
  {
    var es := LineStyleRegistrations;
    assert AllNamed(es);
    GgbLastWins(r, es, 1, "lineStyle");
    GgbLastWins(r, es, 2, "linestyle");
  }

  /** Every element class overwrites 'element', so the last one, `Vector3D`,
      keeps it. */
  lemma ElementKeyIsVector3D(r: Reg)
    ensures AllNamed(ElementRegistrations)
    ensures "element" in Load(r, ElementRegistrations).ggb
    ensures Load(r, ElementRegistrations).ggb["element"] == Vector3D
  {
    assert AllNamed(ElementRegistrations);
    GgbLastWins(r, ElementRegistrations, 9, "element");
  }

  /** No element class after `Point` takes the type 'point'. */
  lemma PointIsLastPoint()
    ensures forall j :: 4 < j < |ElementRegistrations| ==> !WritesElement(ElementRegistrations[j], "point")
  {
    forall j | 4 < j < |ElementRegistrations| ensures !WritesElement(ElementRegistrations[j], "point") {
      var e := ElementRegistrations[j];
      assert e.ElementClass? && e.typ == [] && |e.name| != 5;
    }
  }

  /** No element class takes the type 'element'. */
  lemma NoElementType()
    ensures forall j :: 0 <= j < |ElementRegistrations| ==> !WritesElement(ElementRegistrations[j], "element")
  {
    forall j | 0 <= j < |ElementRegistrations| ensures !WritesElement(ElementRegistrations[j], "element") {
      var e := ElementRegistrations[j];
      assert e.ElementClass? && (e.typ == [] ==> e.name[0] != 'E' && e.name[0] != 'e') && e.typ != "element";
    }
  }

  /** `Point` is registered under the element type 'point'. */
  lemma PointType(r: Reg)
    ensures AllNamed(ElementRegistrations)
    ensures "point" in Load(r, ElementRegistrations).elements
    ensures Load(r, ElementRegistrations).elements["point"] == Point
  {
    var es := ElementRegistrations;
    assert AllNamed(es);
    assert WritesElement(es[4], "point") by { assert Lower("Point") == "point"; }
    PointIsLastPoint();
    ElementLastWins(r, es, 4, "point");
  }

  /** No element class takes the type 'element', so its entry in
      `element_classes` is whatever it was. */
  lemma ElementTypeUntouched(r: Reg)
    ensures AllNamed(ElementRegistrations)
    ensures "element" in Load(r, ElementRegistrations).elements <==> "element" in r.elements
  {
    assert AllNamed(ElementRegistrations);
    NoElementType();
    ElementUntouched(r, ElementRegistrations, "element");
  }

  /** The module-level dicts, and the functions that fill them. */
  class Registries {
    var ggb: map<string, ClassDef>
    var elements: map<string, ClassDef>

    function Contents(): Reg
      reads this
    {
      Reg(ggb, elements)
    }

    constructor()
      ensures ggb == map[] && elements == map[]
    {
      ggb := map[];
      elements := map[];
    }

    /** `create_ggb_class`: registers the class under its tag, replacing any
        class registered there before. */
    method CreateGgbClass(name: string, tag: string, c: ClassDef) returns (t: string)
      requires tag != [] || name != []
      modifies this
      ensures t == ClassTag(name, tag)
      ensures ggb == old(ggb)[t := c] && elements == old(elements)
      ensures t in ggb && ggb[t] == c
      ensures forall k :: k != t ==> (k in ggb <==> k in old(ggb)) && (k in ggb ==> ggb[k] == old(ggb)[k])
    {
      t := ClassTag(name, tag);
      ggb := ggb[t := c];
    }

    /** `create_element_class`: registers the class under 'element' (through
        `create_ggb_class`), then under its type in both dicts. */
    method CreateElementClass(name: string, typ: string, c: ClassDef) returns (t: string)
      modifies this
      ensures t == ElementType(name, typ)
      ensures ggb == old(ggb)["element" := c][t := c] && elements == old(elements)[t := c]
    {
      t := ElementType(name, typ);
      var _ := CreateGgbClass(name, "element", c);
      elements := elements[t := c];
      ggb := ggb[t := c];
    }

    /** One registering statement. */
    method Register(e: Registration)
      requires Named(e)
      modifies this
      ensures Contents() == Apply(old(Contents()), e)
    {
      match e
      case GgbClass(name, tag, c) =>
        var _ := CreateGgbClass(name, tag, c);
      case ElementClass(name, typ, c) =>
        var _ := CreateElementClass(name, typ, c);
      case Alias(key, c) =>
        ggb := ggb[key := c];
    }

    /** Running registering statements one after another. */
    method RegisterAll(es: seq<Registration>)
      requires AllNamed(es)
      modifies this
      ensures Contents() == Load(old(Contents()), es)
    {
      var i := 0;
      while i < |es|
        invariant 0 <= i <= |es|
        invariant Contents() == Load(old(Contents()), es[..i])
      {
        assert es[..i + 1][..i] == es[..i];
        Register(es[i]);
        i := i + 1;
      }
      assert es[..i] == es;
    }
  }
}
