/** Serialising a tree of instances back to XML text: `indented_xml_repr`
    and `xml_repr` of lib/__init__.py, with the attribute rendering every
    class of the table inherits from `GGBObject.attr_repr_of`
    (lib/curated_ggb_classes.py), which escapes the string values of the
    map it is given in place, and the root's own `attr_repr`
    (lib/styling_logic.py), which renders a copy with the schema
    namespace attributes. */
module Render {
  import opened Wrappers
  import opened Strings
  import opened Codec
  import opened OrderedMap
  import opened Escape
  import opened Schema
  import opened Objects

  // ---- the escaping attr_repr_of ----

  /** A string value escaped with `html_string_repr`; other values pass. */
  function EscapeValue(v: Value): Value
  {
    if v.VStr? then VStr(HtmlStringRepr(v.s)) else v
  }

  /** The map `GGBObject.attr_repr_of` leaves behind. */
  function EscapeAttrs(attrs: Attrs): Attrs
  {
    MapValues(attrs, EscapeValue)
  }

  /** Escaping keeps the keys and leaves no special character in a
      string value. */
  lemma EscapeAttrsSpec(attrs: Attrs)
    ensures Keys(EscapeAttrs(attrs)) == Keys(attrs)
    ensures forall i :: 0 <= i < |attrs| && attrs[i].1.VStr? ==>
      EscapeAttrs(attrs)[i].1.VStr? && NoSpecial(EscapeAttrs(attrs)[i].1.s)
  {
    MapValuesKeys(attrs, EscapeValue);
    forall i | 0 <= i < |attrs| && attrs[i].1.VStr?
      ensures EscapeAttrs(attrs)[i].1.VStr? && NoSpecial(EscapeAttrs(attrs)[i].1.s)
    {
      EscapedHasNoSpecial(attrs[i].1.s);
    }
  }

  /** A second escaping pass changes nothing. */
  lemma EscapeAttrsIdempotent(attrs: Attrs)
    ensures EscapeAttrs(EscapeAttrs(attrs)) == EscapeAttrs(attrs)
  {
    var e := EscapeAttrs(attrs);
    var ee := EscapeAttrs(e);
    forall i | 0 <= i < |ee| ensures ee[i] == e[i] {
      if attrs[i].1.VStr? {
        HtmlStringReprIdempotent(attrs[i].1.s);
      }
    }
  }

  // ---- GeoGebra.attr_repr ----

  const ClarkKey: string := "{http://www.w3.org/2001/XMLSchema-instance}noNamespaceSchemaLocation"
  const XsiKey: string := "xsi:noNamespaceSchemaLocation"
  const XmlnsKey: string := "xmlns:xsi"
  const XsiNamespace: string := "http://www.w3.org/2001/XMLSchema-instance"

  /** The copy `GeoGebra.attr_repr` renders: `xmlns:xsi` set, the schema
      location moved from its namespaced key to `xsi:`, the namespaced key
      deleted. A missing namespaced key is a `KeyError`. */
  function NamespacedAttrs(attrs: Attrs): Result<Attrs>
  {
    var a := Put(attrs, XmlnsKey, VStr(XsiNamespace));
    match Lookup(a, ClarkKey)
    case None => Err(MissingKey(ClarkKey))
    case Some(v) => Delete(Put(a, XsiKey, v), ClarkKey)
  }

  /** For a map without repeated keys: the copy exists exactly when the
      namespaced key is there; it has `xmlns:xsi`, carries the schema
      location under `xsi:noNamespaceSchemaLocation`, no longer has the
      namespaced key, and agrees with the map on every other key. */
  lemma NamespacedAttrsSpec(attrs: Attrs, k: string)
    requires Unique(attrs)
    ensures NamespacedAttrs(attrs).Ok? <==> HasKey(attrs, ClarkKey)
    ensures NamespacedAttrs(attrs).Ok? ==>
      var r := NamespacedAttrs(attrs).value;
      && Unique(r)
      && Lookup(r, k) == (if k == ClarkKey then None
                          else if k == XmlnsKey then Some(VStr(XsiNamespace))
                          else if k == XsiKey then Lookup(attrs, ClarkKey)
                          else Lookup(attrs, k))
  {
    var a := Put(attrs, XmlnsKey, VStr(XsiNamespace));
    PutUnique(attrs, XmlnsKey, VStr(XsiNamespace));
    PutLookup(attrs, XmlnsKey, VStr(XsiNamespace), ClarkKey);
    if HasKey(attrs, ClarkKey) {
      var v := Lookup(a, ClarkKey).value;
      var b := Put(a, XsiKey, v);
      PutUnique(a, XsiKey, v);
      PutLookup(a, XsiKey, v, ClarkKey);
      PutLookup(a, XsiKey, v, k);
      PutLookup(attrs, XmlnsKey, VStr(XsiNamespace), k);
      DeleteSpec(b, ClarkKey, k);
    }
  }

  // ---- indented_xml_repr ----

  /** The class statement `GeoGebra`, whose `attr_repr` renders the
      namespaced copy. */
  predicate UsesNamespaces(c: ClassDef)
  {
    c.name == "GeoGebra" && c.declared
  }

  /** `self.attr_repr()` */
  function AttrRepr(o: Obj): Result<string>
  {
    if UsesNamespaces(o.cls) then
      var a :- NamespacedAttrs(o.attrs);
      Ok(AttrReprOf(EscapeAttrs(a)))
    else Ok(AttrReprOf(EscapeAttrs(o.attrs)))
  }

  /** `indent * '    '` */
  function Indent(indent: nat): (r: string)
    ensures |r| == 4 * indent
    ensures forall i :: 0 <= i < |r| ==> r[i] == ' '
  {
    if indent == 0 then "" else "    " + Indent(indent - 1)
  }

  /** `indented_xml_repr(indent)` once the attributes and the children
      are rendered: a self-closing line for an instance with neither
      children nor content, the content inline between the tags when there
      are no children, otherwise a block with the content (unless it is
      '') on its own line and the children below. */
  function Layout(o: Obj, attrs: string, body: string, indent: nat): string
  {
    var pad := Indent(indent);
    var rest :=
      if o.children == [] && o.content == VNone then "/>\n"
      else if o.children == [] then ">" + PyStr(o.content) + "</" + o.tag + ">\n"
      else
        var text := if o.content != VNone && o.content != VStr("") then pad + PyRepr(o.content) + "\n" else "";
        ">\n" + text + body + pad + "</" + o.tag + ">\n";
    pad + "<" + o.tag + attrs + rest
  }

  /** `indented_xml_repr(indent)`, every child one level deeper. */
  function IndentedXmlRepr(o: Obj, indent: nat): Result<string>
    decreases o, 1
  {
    var a :- AttrRepr(o);
    if o.children == [] then Ok(Layout(o, a, "", indent))
    else
      var body :- ChildrenRepr(o.children, |o.children|, indent + 1);
      Ok(Layout(o, a, body, indent))
  }

  /** The first `k` children rendered one after the other; the first
      child that fails fails the whole. */
  function ChildrenRepr(children: seq<Obj>, k: nat, indent: nat): Result<string>
    requires k <= |children|
    decreases children, 0, k
  {
    if k == 0 then Ok("")
    else
      var before :- ChildrenRepr(children, k - 1, indent);
      var last :- IndentedXmlRepr(children[k - 1], indent);
      Ok(before + last)
  }

  const Declaration: string := "<?xml version=\"1.0\" encoding=\"utf-8\"?>\n"

  lemma PrefixStartsWith(p: string, t: string)
    ensures StartsWith(p + t, p)
  {
    assert (p + t)[..|p|] == p;
  }

  /** A text whose second character is not '?' does not start with the
      declaration. */
  lemma NotDeclaration(t: string)
    requires |t| >= 2 && t[1] != '?'
    ensures !StartsWith(t, Declaration)
  {
    assert Declaration[1] == '?';
  }

  /** `xml_repr()`: the XML declaration for an instance whose class is
      named 'GeoGebra', then the indented text. */
  function XmlRepr(o: Obj): Result<string>
  {
    var body :- IndentedXmlRepr(o, 0);
    Ok((if o.cls.name == "GeoGebra" then Declaration else "") + body)
  }

  /** Plain attributes (and the roles) are not serialised. */
  lemma FieldsNotSerialised(o: Obj, fields: OMap<Field>, roles: OMap<ClassDef>, indent: nat)
    ensures IndentedXmlRepr(o.(fields := fields, roles := roles), indent) == IndentedXmlRepr(o, indent)
  {
    var o' := o.(fields := fields, roles := roles);
    assert o'.cls == o.cls && o'.attrs == o.attrs && o'.children == o.children;
    assert AttrRepr(o') == AttrRepr(o);
  }

  /** In the block form an empty-string content is left out, as if there
      were none. */
  lemma EmptyContentOmitted(o: Obj, indent: nat)
    requires o.children != [] && o.content == VStr("")
    ensures IndentedXmlRepr(o, indent) == IndentedXmlRepr(o.(content := VNone), indent)
  {
  }

  /** The text opens with '<' and then the tag, a space before the
      attributes, or the end of the opening tag. */
  lemma LayoutOpens(o: Obj, attrs: string, body: string, indent: nat)
    requires attrs == "" || attrs[0] == ' '
    ensures var t, n := Layout(o, attrs, body, indent), 4 * indent;
      |t| >= n + 2 && t[n] == '<'
      && t[n + 1] in (if o.tag != [] then [o.tag[0]] else [' ', '/', '>'])
  {
    var pad := Indent(indent);
    var t := Layout(o, attrs, body, indent);
    var rest := t[|pad + "<" + o.tag + attrs|..];
    assert t == pad + "<" + (o.tag + attrs + rest);
    assert rest[0] in ['/', '>'];
  }

  /** So does every rendering. */
  lemma OpeningTag(o: Obj, indent: nat)
    requires IndentedXmlRepr(o, indent).Ok?
    ensures var body, n := IndentedXmlRepr(o, indent).value, 4 * indent;
      |body| >= n + 2 && body[n] == '<'
      && body[n + 1] in (if o.tag != [] then [o.tag[0]] else [' ', '/', '>'])
  {
    var a := AttrRepr(o).value;
    assert a == "" || a[0] == ' ' by {
      if UsesNamespaces(o.cls) {
        AttrReprOfLeadingSpace(EscapeAttrs(NamespacedAttrs(o.attrs).value));
      } else {
        AttrReprOfLeadingSpace(EscapeAttrs(o.attrs));
      }
    }
    if o.children == [] {
      LayoutOpens(o, a, "", indent);
    } else {
      LayoutOpens(o, a, ChildrenRepr(o.children, |o.children|, indent + 1).value, indent);
    }
  }

  /** `xml_repr` writes the XML declaration exactly for an instance of a
      class named 'GeoGebra' (a tag never starts with '?'). */
  lemma DeclarationIff(o: Obj)
    requires XmlRepr(o).Ok? && (o.tag == [] || o.tag[0] != '?')
    ensures StartsWith(XmlRepr(o).value, Declaration) <==> o.cls.name == "GeoGebra"
  {
    var body := IndentedXmlRepr(o, 0).value;
    if o.cls.name == "GeoGebra" {
      assert XmlRepr(o).value == Declaration + body;
      PrefixStartsWith(Declaration, body);
    } else {
      assert XmlRepr(o).value == body;
      OpeningTag(o, 0);
      NotDeclaration(body);
    }
  }

  // ---- what serialising leaves behind ----

  /** The tree after a serialisation: every instance except one of the
      class `GeoGebra` (which renders a copy) has had the string values of
      its `xml_attrs` escaped in place. */
  function Escaped(o: Obj): Obj
    decreases o, 1
  {
    o.(attrs := if UsesNamespaces(o.cls) then o.attrs else EscapeAttrs(o.attrs),
       children := EscapedAll(o.children, |o.children|))
  }

  function EscapedAll(children: seq<Obj>, k: nat): (r: seq<Obj>)
    requires k <= |children|
    ensures |r| == k && forall i :: 0 <= i < k ==> r[i] == Escaped(children[i])
    decreases children, 0, k
  {
    if k == 0 then [] else EscapedAll(children, k - 1) + [Escaped(children[k - 1])]
  }

  /** Serialising changes the tree only once: a second pass leaves it as
      the first left it. */
  lemma {:induction false} EscapedIdempotent(o: Obj)
    ensures Escaped(Escaped(o)) == Escaped(o)
    decreases o
  {
    var e := Escaped(o);
    forall i | 0 <= i < |o.children| ensures Escaped(e.children[i]) == e.children[i] {
      EscapedIdempotent(o.children[i]);
    }
    if !UsesNamespaces(o.cls) {
      EscapeAttrsIdempotent(o.attrs);
    }
  }

  /** So serialising the tree again gives the same text. */
  lemma {:induction false} RenderEscaped(o: Obj, indent: nat)
    ensures IndentedXmlRepr(Escaped(o), indent) == IndentedXmlRepr(o, indent)
    decreases o, 1
  {
    var e := Escaped(o);
    if !UsesNamespaces(o.cls) {
      EscapeAttrsIdempotent(o.attrs);
    }
    assert AttrRepr(e) == AttrRepr(o);
    RenderEscapedChildren(o.children, |o.children|, |o.children|, indent + 1);
  }

  lemma {:induction false} RenderEscapedChildren(children: seq<Obj>, n: nat, k: nat, indent: nat)
    requires k <= n <= |children|
    ensures ChildrenRepr(EscapedAll(children, n), k, indent) == ChildrenRepr(children, k, indent)
    decreases children, 0, k
  {
    if k > 0 {
      var es := EscapedAll(children, n);
      var c := children[k - 1];
      RenderEscapedChildren(children, n, k - 1, indent);
      RenderEscaped(c, indent);
      assert es[k - 1] == Escaped(c);
      ChildrenReprStep(es, children, k, indent);
    }
  }

  /** `ChildrenRepr` one child further, for two lists that agree so far. */
  lemma ChildrenReprStep(a: seq<Obj>, b: seq<Obj>, k: nat, indent: nat)
    requires 0 < k <= |a| && k <= |b|
    requires ChildrenRepr(a, k - 1, indent) == ChildrenRepr(b, k - 1, indent)
    requires IndentedXmlRepr(a[k - 1], indent) == IndentedXmlRepr(b[k - 1], indent)
    ensures ChildrenRepr(a, k, indent) == ChildrenRepr(b, k, indent)
  {
  }

  /** Serialising the whole document again gives the same text. */
  lemma XmlReprStable(o: Obj)
    ensures XmlRepr(Escaped(o)) == XmlRepr(o)
  {
    RenderEscaped(o, 0);
  }
}
