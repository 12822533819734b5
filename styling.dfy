/** The styling pass of lib/styling_logic.py: the root class `GeoGebra`,
    which reads a layout loaded from JSON and rewrites the tree in place
    (background colour, captions, hidden-line style, axes).

    The tree is a value (`Objects.Obj`); an assignment through an attribute
    chain such as `ev.settings.axes = v` is modelled by finding where
    `__getattribute__` found `ev.settings` (`Locate`) and writing the
    changed object back there. */
module Styling {
  import opened Wrappers
  import opened Strings
  import opened Codec
  import opened OrderedMap
  import opened Schema
  import opened Objects
  import opened Json
  import Tex

  // ---- reading the layout ----

  /** `self.layout.group.name` */
  function Setting(layout: PyVal, group: string, name: string): Result<PyVal>
  {
    var g :- GetField(layout, group);
    GetField(g, name)
  }

  /** A layout value assigned to an XML attribute is stored as it is: a
      scalar becomes the matching attribute value. */
  function ToValue(v: PyVal): (r: Result<Value>)
    ensures r.Ok? <==> IsScalar(v)
    ensures v.PBool? ==> r == Ok(VBool(v.b))
    ensures v.PInt? ==> r == Ok(VInt(v.i))
    ensures v.PStr? ==> r == Ok(VStr(v.s))
  {
    match v
    case PNone => Ok(VNone)
    case PBool(b) => Ok(VBool(b))
    case PInt(i) => Ok(VInt(i))
    case PFloat(t) => Ok(VFloat(t))
    case PStr(s) => Ok(VStr(s))
    case _ => Err(MalformedValue("layout value"))
  }

  /** The empty layout `JSONObject()` the constructor starts with. */
  const EmptyLayout: PyVal := PObject([("attr_dict", PNone)])

  // ---- colours ----

  /** The (r, g, b) `Color.__init__` loads from its one argument
      (lib/curated_ggb_classes.py:156-168): a list must hold three values,
      anything that is neither a list nor a `Color` gives black. A layout
      never holds a `Color` instance. */
  function ColorRgb(x: PyVal): (r: Result<Attrs>)
    ensures x.PList? && |x.items| != 3 ==> r.Err?
    ensures !x.PList? ==> r == Ok(ZeroRgb)
  {
    if x.PList? then
      if |x.items| != 3 then Err(MalformedValue("list of color values must contain 3 values"))
      else
        var r :- ToValue(x.items[0]);
        var g :- ToValue(x.items[1]);
        var b :- ToValue(x.items[2]);
        Ok(RgbAttrs(r, g, b))
    else Ok(ZeroRgb)
  }

  /** `parse_color(rgb_or_name)` (lib/styling_logic.py:56-60): a string is
      a palette name, anything else is handed to `Color`. */
  function ParseColor(colors: OMap<PyVal>, v: PyVal): (r: Result<Obj>)
    ensures r.Ok? ==> r.value.cls == Color
  {
    var rgb :- if v.PStr? then
                 match Lookup(colors, v.s)
                 case None => Err(MissingKey(v.s))
                 case Some(x) => ColorRgb(x)
               else ColorRgb(v);
    Ok(New(Color, [], rgb))
  }

  /** One component `color.r` of a colour handed to another colour class. */
  function Component(o: Obj, name: string): Result<Value>
  {
    var f :- Get(o, name);
    if f.FValue? then Ok(f.v) else Err(MalformedValue(name))
  }

  /** `[color.r, color.g, color.b]` loaded by `Color.__init__` when it is
      given a `Color`. */
  function CopyRgb(c: Obj): Result<Attrs>
  {
    var r :- Component(c, "r");
    var g :- Component(c, "g");
    var b :- Component(c, "b");
    Ok(RgbAttrs(r, g, b))
  }

  /** `cls(color)` for a colour subclass such as `BGColor` or `AxesColor`. */
  function ColorOf(cls: ClassDef, c: Obj): (r: Result<Obj>)
    ensures r.Ok? ==> r.value.cls == cls
  {
    var rgb :- CopyRgb(c);
    Ok(New(cls, [], rgb))
  }

  // ---- assignment through an attribute chain ----

  /** Where `o.name` is found: a value (an `xml_attrs` entry, None for a
      role without an instance, or a plain value), the one child that is an
      instance of the role's class, or an object held as a plain
      attribute. */
  datatype Place = Plain(v: Value) | Child(index: nat) | InField

  /** The index of the first child that is an instance of `c`, or -1. */
  function FirstInstance(ch: seq<Obj>, c: ClassDef): (r: int)
    ensures -1 <= r < |ch|
    ensures r >= 0 ==> IsInstance(ch[r].cls, c)
    ensures InstancesOf(ch, c) != [] ==> r >= 0 && InstancesOf(ch, c)[0] == ch[r]
  {
    if ch == [] then -1
    else if IsInstance(ch[0].cls, c) then 0
    else
      var k := FirstInstance(ch[1..], c);
      if k < 0 then -1 else k + 1
  }

  /** `__getattribute__(o, name)` answered with the place it reads. */
  function Locate(o: Obj, name: string): (r: Result<Place>)
    ensures r.Ok? && r.value.Child? ==> r.value.index < |o.children|
    ensures r.Ok? && r.value.InField? ==> Lookup(o.fields, name).Some? && Lookup(o.fields, name).value.FObj?
  {
    if HasKey(o.attrs, name) then Ok(Plain(Lookup(o.attrs, name).value))
    else if HasKey(o.roles, name) then
      var c := Lookup(o.roles, name).value;
      var m := InstancesOf(o.children, c);
      if |m| == 0 then Ok(Plain(VNone))
      else if |m| == 1 then Ok(Child(FirstInstance(o.children, c)))
      else Err(AmbiguousChild(name))
    else
      var f: Option<Field> := Lookup(o.fields, name);
      match f
      case Some(FObj(_)) => Ok(InField)
      case Some(FValue(v)) => Ok(Plain(v))
      case None => Err(MissingAttribute(name))
  }

  /** `o.name.attr = f`: the object `o.name` is changed where it was found.
      Assigning an attribute of a value (None, a number, a string) raises
      AttributeError. */
  function SetThrough(o: Obj, name: string, attr: string, f: Field): (r: Result<Obj>)
  {
    var p :- Locate(o, name);
    match p
    case Plain(_) => Err(MissingAttribute(attr))
    case Child(i) =>
      var x :- Set(o.children[i], attr, f);
      Ok(o.(children := o.children[i := x]))
    case InField =>
      var x :- Set(Lookup(o.fields, name).value.o, attr, f);
      Ok(o.(fields := Put(o.fields, name, FObj(x))))
  }

  // ---- the loops of the pass ----

  /** The step of a loop at index `j`, applied to the first `n` children in
      order; the first failure ends the loop. */
  function Sweep(ch: seq<Obj>, n: nat, f: (nat, Obj) -> Result<Obj>): (r: Result<seq<Obj>>)
    requires n <= |ch|
    ensures r.Ok? ==> |r.value| == |ch|
    decreases n
  {
    if n == 0 then Ok(ch)
    else
      var prev :- Sweep(ch, n - 1, f);
      var x :- f(n - 1, ch[n - 1]);
      Ok(prev[n - 1 := x])
  }

  lemma {:induction false} SweepSticky(ch: seq<Obj>, n: nat, m: nat, f: (nat, Obj) -> Result<Obj>)
    requires n <= m <= |ch| && Sweep(ch, n, f).Err?
    ensures Sweep(ch, m, f) == Sweep(ch, n, f)
    decreases m
  {
    if n < m {
      SweepSticky(ch, n, m - 1, f);
    }
  }

  lemma SweepNext(ch: seq<Obj>, i: nat, f: (nat, Obj) -> Result<Obj>, out: seq<Obj>, x: Obj)
    requires i < |ch| && Sweep(ch, i, f) == Ok(out) && f(i, ch[i]) == Ok(x)
    ensures Sweep(ch, i + 1, f) == Ok(out[i := x])
  {
  }

  /** A loop over a list of children that applies `f` to each in place. */
  method SweepLoop(ch: seq<Obj>, f: (nat, Obj) -> Result<Obj>) returns (r: Result<seq<Obj>>)
    ensures r == Sweep(ch, |ch|, f)
  {
    var out := ch;
    var i := 0;
    while i < |ch|
      invariant 0 <= i <= |ch|
      invariant Sweep(ch, i, f) == Ok(out)
    {
      var x := f(i, ch[i]);
      if x.Err? {
        SweepSticky(ch, i + 1, |ch|, f);
        return Err(x.error);
      }
      out := out[i := x.value];
      i := i + 1;
    }
    r := Ok(out);
  }

  /** A loop over the children of `self.construction`, written back where
      the construction was found; iterating None raises TypeError. */
  function OverConstruction(tree: Obj, f: (nat, Obj) -> Result<Obj>): Result<Obj>
  {
    var p :- Locate(tree, "construction");
    match p
    case Plain(_) => Err(MalformedValue("construction"))
    case Child(i) =>
      var cons := tree.children[i];
      var kids :- Sweep(cons.children, |cons.children|, f);
      Ok(tree.(children := tree.children[i := cons.(children := kids)]))
    case InField =>
      var cons := Lookup(tree.fields, "construction").value.o;
      var kids :- Sweep(cons.children, |cons.children|, f);
      Ok(tree.(fields := Put(tree.fields, "construction", FObj(cons.(children := kids)))))
  }

  method OverConstructionLoop(tree: Obj, f: (nat, Obj) -> Result<Obj>) returns (r: Result<Obj>)
    ensures r == OverConstruction(tree, f)
  {
    var p :- Locate(tree, "construction");
    match p
    case Plain(_) =>
      r := Err(MalformedValue("construction"));
    case Child(i) =>
      var cons := tree.children[i];
      var kids :- SweepLoop(cons.children, f);
      r := Ok(tree.(children := tree.children[i := cons.(children := kids)]));
    case InField =>
      var cons := Lookup(tree.fields, "construction").value.o;
      var kids :- SweepLoop(cons.children, f);
      r := Ok(tree.(fields := Put(tree.fields, "construction", FObj(cons.(children := kids)))));
  }

  // ---- GeoGebra.__init__ ----

  /** The `format` fix of `GeoGebra.__init__` (lib/styling_logic.py:30-32):
      an int version number becomes `str(float(n))`. */
  function FixFormat(o: Obj): Obj
  {
    var format: Option<Value> := Lookup(o.attrs, "format");
    match format
    case Some(VInt(n)) => o.(attrs := Put(o.attrs, "format", VStr(IntRepr(n) + ".0")))
    case _ => o
  }

  /** The children of a construction whose tag is 'element', in order. */
  function ElementsOf(ch: seq<Obj>): (r: seq<Obj>)
    ensures |r| <= |ch|
    ensures forall x :: x in r <==> x in ch && IsElement(x)
  {
    if ch == [] then []
    else ElementsOf(ch[..|ch| - 1]) + (if IsElement(ch[|ch| - 1]) then [ch[|ch| - 1]] else [])
  }

  /** `self.elements = [c for c in self.construction if c.tag == 'element']`
      (lib/styling_logic.py:33). `self.construction` reads None when the
      root has no construction child, and iterating None raises TypeError;
      two construction children make the read itself fail. */
  function Elements(tree: Obj): (r: Result<seq<Obj>>)
    ensures r.Ok? <==> Get(tree, "construction").Ok? && Get(tree, "construction").value.FObj?
    ensures Get(tree, "construction").Err? ==> r == Err(Get(tree, "construction").error)
    ensures r.Ok? ==> forall x :: x in r.value <==> x in Get(tree, "construction").value.o.children && IsElement(x)
  {
    var c :- Get(tree, "construction");
    if c.FValue? then Err(MalformedValue("construction")) else Ok(ElementsOf(c.o.children))
  }

  /** The `euclidianViews` property (lib/styling_logic.py:44-46): the
      children whose class name starts with `EuclidianView`. */
  predicate IsEuclidianView(c: Obj)
  {
    StartsWith(c.cls.name, "EuclidianView")
  }

  function EuclidianViews(ch: seq<Obj>): (r: seq<Obj>)
    ensures forall i :: 0 <= i < |r| ==> IsEuclidianView(r[i])
    ensures forall i :: 0 <= i < |ch| && IsEuclidianView(ch[i]) ==> ch[i] in r
    ensures |r| <= |ch|
  {
    if ch == [] then []
    else EuclidianViews(ch[..|ch| - 1]) + (if IsEuclidianView(ch[|ch| - 1]) then [ch[|ch| - 1]] else [])
  }

  /** `self.elements`: the children of the construction tagged `element`. */
  predicate IsElement(c: Obj)
  {
    c.tag == "element"
  }

  // ---- set_bg_color ----

  /** `BGColor(self.parse_color(self.layout.background_color))` */
  function BgColor(layout: PyVal, colors: OMap<PyVal>): (r: Result<Obj>)
    ensures r.Ok? ==> r.value.cls == BGColor
  {
    var name :- GetField(layout, "background_color");
    var c :- ParseColor(colors, name);
    ColorOf(BGColor, c)
  }

  /** The step of the loop over the Euclidian views. */
  function BgStep(bg: Obj, c: Obj): Result<Obj>
  {
    if IsEuclidianView(c) then Set(c, "bgColor", FObj(bg)) else Ok(c)
  }

  /** `set_bg_color()` as `apply_layout` calls it
      (lib/styling_logic.py:62-67): the colour argument is a `Color`
      without children, hence false, so the views are all Euclidian views;
      each gets the one `BGColor` built from the layout's background
      colour, and so does `self.euclidianView3D`. */
  function BgPass(tree: Obj, layout: PyVal, colors: OMap<PyVal>): Result<Obj>
  {
    var bg :- BgColor(layout, colors);
    var kids :- Sweep(tree.children, |tree.children|, (j: nat, x: Obj) => BgStep(bg, x));
    SetThrough(tree.(children := kids), "euclidianView3D", "bgColor", FObj(bg))
  }

  // ---- set_caption_style ----

  /** The caption object of an element, after the fallback of
      lib/styling_logic.py:73-77: when reading `el.caption` raises
      AttributeError, a `Caption` with `val` '%n' is assigned. */
  function WithCaption(el: Obj): Result<Obj>
  {
    match Locate(el, "caption")
    case Err(MissingAttribute(_)) =>
      Set(el, "caption", FObj(New(Caption, [("val", VStr("%n"))], ZeroRgb)))
    case Err(e) => Err(e)
    case Ok(_) => Ok(el)
  }

  /** The caption text `caption.val`, which `strip_tex` needs to be a
      string. */
  function CaptionVal(el: Obj): Result<string>
  {
    var cap :- Get(el, "caption");
    if cap.FValue? then Err(MissingAttribute("val"))
    else
      var v :- Get(cap.o, "val");
      if v.FValue? && v.v.VStr? then Ok(v.v.s) else Err(MalformedValue("val"))
  }

  /** The body of the loop of `set_caption_style` for one element. */
  function CaptionOf(el: Obj, tex: bool, bold: bool): Result<Obj>
  {
    var el1 :- WithCaption(el);
    var text :- CaptionVal(el1);
    SetThrough(el1, "caption", "val", FValue(VStr(Tex.CaptionText(text, tex, bold))))
  }

  function CaptionStep(tex: bool, bold: bool, c: Obj): Result<Obj>
  {
    if IsElement(c) then CaptionOf(c, tex, bold) else Ok(c)
  }

  /** `set_caption_style()` (lib/styling_logic.py:69-83). */
  function CaptionPass(tree: Obj, layout: PyVal): Result<Obj>
  {
    var tex :- Setting(layout, "default_caption_style", "tex");
    var bold :- Setting(layout, "default_caption_style", "bold");
    OverConstruction(tree, (j: nat, x: Obj) => CaptionStep(Truthy(tex), Truthy(bold), x))
  }

  // ---- set_hidden_line_style ----

  /** The hidden-line style number (lib/styling_logic.py:86-94). */
  function HiddenStyle(s: PyVal): (k: int)
    ensures 0 <= k <= 2
    ensures k == 0 <==> s == PStr("invisible")
    ensures k == 1 <==> s == PStr("dotted")
  {
    if s == PStr("invisible") then 0
    else if s == PStr("dotted") then 1
    else if s == PStr("unchanged") then 2
    else 2
  }

  /** `el.lineStyle.typeHidden = style`, any failure skipped. */
  function HiddenStep(style: int, c: Obj): Result<Obj>
  {
    match SetThrough(c, "lineStyle", "typeHidden", FValue(VInt(style)))
    case Ok(x) => Ok(x)
    case Err(_) => Ok(c)
  }

  /** `set_hidden_line_style()` (lib/styling_logic.py:85-100). */
  function HiddenPass(tree: Obj, layout: PyVal): Result<Obj>
  {
    var s :- Setting(layout, "line_style", "hidden_style");
    OverConstruction(tree, (j: nat, x: Obj) => HiddenStep(HiddenStyle(s), x))
  }

  // ---- set_axes_style ----

  /** The body of the loop over the axes of one view
      (lib/styling_logic.py:109-114). */
  function StyleAxis(axes: PyVal, show: Value, a: Obj): Result<Obj>
  {
    var a1 :- Set(a, "show", FValue(show));
    var ticks :- GetField(axes, "show_ticks");
    var a2 :- if !Truthy(ticks) then Set(a1, "tickStyle", FValue(VInt(0))) else Ok(a1);
    AxisFlags(axes, a2)
  }

  /** The last two assignments to an axis: `showNumbers` and
      `positiveAxisOnly`. */
  function AxisFlags(axes: PyVal, a: Obj): Result<Obj>
  {
    var numbers :- GetField(axes, "show_numbers");
    var n :- ToValue(numbers);
    var a1 :- Set(a, "showNumbers", FValue(n));
    var positive :- GetField(axes, "positive_axis_only");
    var p :- ToValue(positive);
    Set(a1, "positiveAxisOnly", FValue(p))
  }

  function AxisStep(axes: PyVal, show: Value, c: Obj): Result<Obj>
  {
    if IsInstance(c.cls, Axis) then StyleAxis(axes, show, c) else Ok(c)
  }

  /** Where `self.euclidianView3D` is among the root's children, if it is
      one of them. */
  function View3DIndex(tree: Obj): Result<Option<nat>>
  {
    var p :- Locate(tree, "euclidianView3D");
    if p.Child? then Ok(Some(p.index)) else Ok(None)
  }

  /** The body of the loop over the Euclidian views for the view at index
      `j` (lib/styling_logic.py:105-114). */
  function StyleView(layout: PyVal, colors: OMap<PyVal>, view3D: Result<Option<nat>>, j: nat, ev: Obj): Result<Obj>
  {
    var axes :- GetField(layout, "axes");
    var show :- GetField(axes, "show");
    var s :- ToValue(show);
    var e1 :- SetThrough(ev, "settings", "axes", FValue(s));
    var k :- view3D;
    var e2 :- if k != Some(j) then
                var name :- GetField(axes, "color");
                var c :- ParseColor(colors, name);
                var ac :- ColorOf(AxesColor, c);
                Set(e1, "axesColor", FObj(ac))
              else Ok(e1);
    var kids :- Sweep(e2.children, |e2.children|, (i: nat, x: Obj) => AxisStep(axes, s, x));
    Ok(e2.(children := kids))
  }

  function ViewStep(layout: PyVal, colors: OMap<PyVal>, view3D: Result<Option<nat>>, j: nat, c: Obj): Result<Obj>
  {
    if IsEuclidianView(c) then StyleView(layout, colors, view3D, j, c) else Ok(c)
  }

  /** `set_axes_style()` (lib/styling_logic.py:102-114). */
  function AxesPass(tree: Obj, layout: PyVal, colors: OMap<PyVal>): Result<Obj>
  {
    var view3D := View3DIndex(tree);
    var kids :- Sweep(tree.children, |tree.children|, (j: nat, x: Obj) => ViewStep(layout, colors, view3D, j, x));
    Ok(tree.(children := kids))
  }

  /** The body of the loop over the views, with the loop over its axes. */
  method StyleViewLoop(layout: PyVal, colors: OMap<PyVal>, view3D: Result<Option<nat>>, j: nat, ev: Obj)
    returns (r: Result<Obj>)
    ensures r == StyleView(layout, colors, view3D, j, ev)
  {
    var axes :- GetField(layout, "axes");
    var show :- GetField(axes, "show");
    var s :- ToValue(show);
    var e :- SetThrough(ev, "settings", "axes", FValue(s));
    var k :- view3D;
    if k != Some(j) {
      var name :- GetField(axes, "color");
      var c :- ParseColor(colors, name);
      var ac :- ColorOf(AxesColor, c);
      e :- Set(e, "axesColor", FObj(ac));
    }
    var kids :- SweepLoop(e.children, (i: nat, x: Obj) => AxisStep(axes, s, x));
    r := Ok(e.(children := kids));
  }

  /** One child of the tree: a Euclidian view is styled, anything else
      is passed over. */
  method ViewStepLoop(layout: PyVal, colors: OMap<PyVal>, view3D: Result<Option<nat>>, j: nat, c: Obj)
    returns (r: Result<Obj>)
    ensures r == ViewStep(layout, colors, view3D, j, c)
  {
    if IsEuclidianView(c) {
      r := StyleViewLoop(layout, colors, view3D, j, c);
    } else {
      r := Ok(c);
    }
  }

  /** The loop over the Euclidian views, each with its loop over its
      axes. */
  method StyleViewsLoop(ch: seq<Obj>, layout: PyVal, colors: OMap<PyVal>, view3D: Result<Option<nat>>)
    returns (r: Result<seq<Obj>>)
    ensures r == Sweep(ch, |ch|, (j: nat, x: Obj) => ViewStep(layout, colors, view3D, j, x))
  {
    ghost var f := (j: nat, x: Obj) => ViewStep(layout, colors, view3D, j, x);
    var out := ch;
    var i := 0;
    while i < |ch|
      invariant 0 <= i <= |ch|
      invariant Sweep(ch, i, f) == Ok(out)
    {
      var x := ViewStepLoop(layout, colors, view3D, i, ch[i]);
      assert x == f(i, ch[i]);
      if x.Err? {
        SweepSticky(ch, i + 1, |ch|, f);
        return Err(x.error);
      }
      SweepNext(ch, i, f, out, x.value);
      out := out[i := x.value];
      i := i + 1;
    }
    r := Ok(out);
  }

  // ---- apply_layout ----

  /** How far `apply_layout` got: the tree after the last step that
      finished, and the error that stopped it, if any. */
  datatype Progress = Progress(tree: Obj, err: Option<Error>)

  function Then(p: Progress, step: Obj -> Result<Obj>): Progress
  {
    if p.err.Some? then p
    else match step(p.tree)
      case Ok(t) => Progress(t, None)
      case Err(e) => Progress(p.tree, Some(e))
  }

  /** `self.colors = self.layout.color_palette.__dict__` */
  function Palette(layout: PyVal): Result<OMap<PyVal>>
  {
    var p :- GetField(layout, "color_palette");
    if p.PObject? then Ok(p.fields) else Err(MissingAttribute("__dict__"))
  }

  /** The four steps of `apply_layout` (lib/styling_logic.py:48-54) over
      the layout and palette already read. */
  function Styled(tree: Obj, layout: PyVal, colors: OMap<PyVal>): Progress
  {
    var first := match GetField(layout, "background_color")
                 case Err(e) => Err(e)
                 case Ok(v) => ParseColor(colors, v);
    var start := Progress(tree, if first.Err? then Some(first.error) else None);
    var p1 := Then(start, (t: Obj) => BgPass(t, layout, colors));
    var p2 := Then(p1, (t: Obj) => CaptionPass(t, layout));
    var p3 := Then(p2, (t: Obj) => HiddenPass(t, layout));
    Then(p3, (t: Obj) => AxesPass(t, layout, colors))
  }

  /** An instance of the root class `GeoGebra`: its tree, its layout and
      its colour palette. `self.elements` is not kept as a separate list:
      its entries are the construction's own children, and the caption
      pass reaches them there. */
  class Document {
    var tree: Obj
    var layout: PyVal
    var colors: OMap<PyVal>

    /** `GeoGebra.__init__` after the generated constructors have built
        `root` (lib/styling_logic.py:28-35), once its construction has been
        read; `Open` is the call that can fail. */
    constructor(root: Obj)
      requires root.cls == GeoGebra && Elements(FixFormat(root)).Ok?
      ensures tree == FixFormat(root) && layout == EmptyLayout && colors == []
    {
      tree := FixFormat(root);
      layout := EmptyLayout;
      colors := [];
    }

    /** `GeoGebra(node=root)`: the `format` fix, then the read of
        `self.construction`, which raises when the construction is missing
        or ambiguous, then the empty layout and palette. */
    static method Open(root: Obj) returns (r: Result<Document>)
      requires root.cls == GeoGebra
      ensures r.Ok? <==> Elements(FixFormat(root)).Ok?
      ensures r.Err? ==> r.error == Elements(FixFormat(root)).error
      ensures r.Ok? ==> fresh(r.value) && r.value.tree == FixFormat(root)
      ensures r.Ok? ==> r.value.layout == EmptyLayout && r.value.colors == []
    {
      var elements := Elements(FixFormat(root));
      if elements.Err? {
        return Err(elements.error);
      }
      var d := new Document(root);
      r := Ok(d);
    }

    method SetBgColor() returns (r: Result<()>)
      modifies this
      ensures layout == old(layout) && colors == old(colors)
      ensures var s := BgPass(old(tree), layout, colors);
        (s.Ok? ==> r == Ok(()) && tree == s.value) && (s.Err? ==> r == Err(s.error) && tree == old(tree))
    {
      var bg :- BgColor(layout, colors);
      var kids :- SweepLoop(tree.children, (j: nat, x: Obj) => BgStep(bg, x));
      var t :- SetThrough(tree.(children := kids), "euclidianView3D", "bgColor", FObj(bg));
      tree := t;
      r := Ok(());
    }

    method SetCaptionStyle() returns (r: Result<()>)
      modifies this
      ensures layout == old(layout) && colors == old(colors)
      ensures var s := CaptionPass(old(tree), layout);
        (s.Ok? ==> r == Ok(()) && tree == s.value) && (s.Err? ==> r == Err(s.error) && tree == old(tree))
    {
      var tex :- Setting(layout, "default_caption_style", "tex");
      var bold :- Setting(layout, "default_caption_style", "bold");
      var t :- OverConstructionLoop(tree, (j: nat, x: Obj) => CaptionStep(Truthy(tex), Truthy(bold), x));
      tree := t;
      r := Ok(());
    }

    method SetHiddenLineStyle() returns (r: Result<()>)
      modifies this
      ensures layout == old(layout) && colors == old(colors)
      ensures var s := HiddenPass(old(tree), layout);
        (s.Ok? ==> r == Ok(()) && tree == s.value) && (s.Err? ==> r == Err(s.error) && tree == old(tree))
    {
      var style :- Setting(layout, "line_style", "hidden_style");
      var t :- OverConstructionLoop(tree, (j: nat, x: Obj) => HiddenStep(HiddenStyle(style), x));
      tree := t;
      r := Ok(());
    }

    method SetAxesStyle() returns (r: Result<()>)
      modifies this
      ensures layout == old(layout) && colors == old(colors)
      ensures var s := AxesPass(old(tree), layout, colors);
        (s.Ok? ==> r == Ok(()) && tree == s.value) && (s.Err? ==> r == Err(s.error) && tree == old(tree))
    {
      var kids :- StyleViewsLoop(tree.children, layout, colors, View3DIndex(tree));
      tree := tree.(children := kids);
      r := Ok(());
    }

    /** `apply_layout(filename)` over the dict read from the file
        (lib/styling_logic.py:48-54). */
    method ApplyLayout(d: OMap<PyVal>) returns (r: Result<()>)
      modifies this
      ensures layout == LoadJson(d)
      ensures Palette(layout).Err? ==> r == Err(Palette(layout).error) && tree == old(tree) && colors == old(colors)
      ensures Palette(layout).Ok? ==> colors == Palette(layout).value
      ensures Palette(layout).Ok? ==>
        (var p := Styled(old(tree), layout, colors);
         tree == p.tree && (p.err.None? ==> r == Ok(())) && (p.err.Some? ==> r == Err(p.err.value)))
    {
      layout := LoadJson(d);
      var palette :- Palette(layout);
      colors := palette;
      var name :- GetField(layout, "background_color");
      var first :- ParseColor(colors, name);
      var u :- SetBgColor();
      u :- SetCaptionStyle();
      u :- SetHiddenLineStyle();
      u :- SetAxesStyle();
      r := Ok(());
    }
  }
}
