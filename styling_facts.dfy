/** What the styling pass of lib/styling_logic.py promises, proved about
    the model in module Styling: the loops stop at the first failure and
    change each child by its step, an assignment through an attribute chain
    is read back by the same chain, and each pass writes what its layout
    setting says. */
module StylingFacts {
  import opened Wrappers
  import opened OrderedMap
  import opened Strings
  import opened Codec
  import opened Schema
  import opened Objects
  import opened Json
  import opened Styling

  // ---- the loops ----

  /** A loop over children succeeds exactly when every step does; then each
      child is replaced by its step's result and the children the loop has
      not reached stay; otherwise the error is the first failing step's. */
  lemma {:induction false} SweepSpec(ch: seq<Obj>, n: nat, f: (nat, Obj) -> Result<Obj>)
    requires n <= |ch|
    ensures Sweep(ch, n, f).Ok? <==> forall k :: 0 <= k < n ==> f(k, ch[k]).Ok?
    ensures Sweep(ch, n, f).Ok? ==>
      (forall k :: 0 <= k < n ==> f(k, ch[k]) == Ok(Sweep(ch, n, f).value[k]))
      && (forall k :: n <= k < |ch| ==> Sweep(ch, n, f).value[k] == ch[k])
    ensures Sweep(ch, n, f).Err? ==>
      exists k :: 0 <= k < n && f(k, ch[k]).Err? && Sweep(ch, n, f) == Err(f(k, ch[k]).error)
        && forall j :: 0 <= j < k ==> f(j, ch[j]).Ok?
    decreases n
  {
    if n > 0 {
      SweepSpec(ch, n - 1, f);
      var prev := Sweep(ch, n - 1, f);
      if prev.Err? {
        var k :| 0 <= k < n - 1 && f(k, ch[k]).Err? && prev == Err(f(k, ch[k]).error)
          && forall j :: 0 <= j < k ==> f(j, ch[j]).Ok?;
        assert Sweep(ch, n, f) == prev;
      } else if f(n - 1, ch[n - 1]).Err? {
        assert Sweep(ch, n, f) == Err(f(n - 1, ch[n - 1]).error);
      }
    }
  }

  // ---- reading and writing through an attribute chain ----

  /** `Locate` finds what `__getattribute__` reads: it fails exactly when
      the read fails, with the same error, and the place it names holds the
      value read. */
  lemma LocateGet(o: Obj, name: string)
    ensures Locate(o, name).Err? <==> Get(o, name).Err?
    ensures Locate(o, name).Err? ==> Locate(o, name).error == Get(o, name).error
    ensures Locate(o, name).Ok? ==>
      match Locate(o, name).value
      case Plain(v) => Get(o, name) == Ok(FValue(v))
      case Child(i) => Get(o, name) == Ok(FObj(o.children[i]))
      case InField => Get(o, name) == Ok(Lookup(o.fields, name).value)
  {
  }

  /** The one child that is an instance of `c`, replaced by an object of
      the same class, is still the one. */
  lemma InstancesReplace(ch: seq<Obj>, c: ClassDef, i: nat, x: Obj)
    requires i < |ch| && InstancesOf(ch, c) == [ch[i]] && FirstInstance(ch, c) == i
    requires x.cls == ch[i].cls
    ensures InstancesOf(ch[i := x], c) == [x]
  {
    forall j | 0 <= j < |ch| && j != i ensures !IsInstance(ch[j].cls, c) {
      if IsInstance(ch[j].cls, c) {
        if j < i { InstancesTwo(ch, c, j, i); } else { InstancesTwo(ch, c, i, j); }
      }
    }
    InstancesOne(ch[i := x], c, i);
  }

  /** `Set` keeps the class of the object it changes. */
  lemma SetKeepsClass(o: Obj, name: string, f: Field)
    requires Set(o, name, f).Ok?
    ensures Set(o, name, f).value.cls == o.cls
    ensures Set(o, name, f).value.roles == o.roles && Set(o, name, f).value.tag == o.tag
  {
  }

  /** After `o.name.attr = f`, reading `o.name` gives the object `o.name`
      with `attr` set: the assignment lands where the read finds it. The
      outer object keeps its attributes, its tag and its number of
      children. */
  lemma SetThroughReadBack(o: Obj, name: string, attr: string, f: Field)
    requires SetThrough(o, name, attr, f).Ok?
    ensures Get(o, name).Ok? && Get(o, name).value.FObj?
    ensures var y := Get(o, name).value.o;
      var o' := SetThrough(o, name, attr, f).value;
      Set(y, attr, f).Ok? && Get(o', name) == Ok(FObj(Set(y, attr, f).value))
      && o'.attrs == o.attrs && o'.tag == o.tag && |o'.children| == |o.children|
  {
    LocateGet(o, name);
    var p := Locate(o, name).value;
    match p
    case Child(i) =>
      var y := o.children[i];
      var x := Set(y, attr, f).value;
      SetKeepsClass(y, attr, f);
      var c := Lookup(o.roles, name).value;
      InstancesReplace(o.children, c, i, x);
    case InField =>
      var x := Set(Lookup(o.fields, name).value.o, attr, f).value;
      PutLookup(o.fields, name, FObj(x), name);
  }

  /** Assigning a value to a name that is not a role is read back. */
  lemma SetValueGet(o: Obj, name: string, v: Value)
    requires !HasKey(o.roles, name)
    ensures Set(o, name, FValue(v)).Ok?
    ensures Get(Set(o, name, FValue(v)).value, name) == Ok(FValue(v))
  {
    if HasKey(o.attrs, name) {
      SetAttr(o, name, v);
    } else {
      SetPlain(o, name, FValue(v));
    }
  }

  /** Assigning a value to a name that is not a role leaves what every
      other name reads. */
  lemma SetValueOther(o: Obj, name: string, v: Value, other: string)
    requires !HasKey(o.roles, name) && other != name
    ensures Get(Set(o, name, FValue(v)).value, other) == Get(o, other)
    ensures Set(o, name, FValue(v)).value.children == o.children
  {
    var o' := Set(o, name, FValue(v)).value;
    if HasKey(o.attrs, name) {
      PutLookup(o.attrs, name, v, other);
      assert o' == o.(attrs := Put(o.attrs, name, v));
      assert HasKey(o'.attrs, other) == HasKey(o.attrs, other);
    } else {
      PutLookup(o.fields, name, FValue(v), other);
      assert o' == o.(fields := Put(o.fields, name, FValue(v)));
      assert HasKey(o'.fields, other) == HasKey(o.fields, other);
    }
  }

  /** Assigning a value to a name that is not a role is read back, every
      other name reads as before, and the children, roles and class stay. */
  lemma SetValueFacts(o: Obj, name: string, v: Value)
    requires !HasKey(o.roles, name)
    ensures Set(o, name, FValue(v)).Ok?
    ensures var o' := Set(o, name, FValue(v)).value;
      && Get(o', name) == Ok(FValue(v))
      && (forall other :: other != name ==> Get(o', other) == Get(o, other))
      && o'.children == o.children && o'.roles == o.roles && o'.cls == o.cls
  {
    SetValueGet(o, name, v);
    forall other | other != name
      ensures Get(Set(o, name, FValue(v)).value, other) == Get(o, other)
    {
      SetValueOther(o, name, v, other);
    }
  }

  /** A loop over `self.construction` succeeds exactly when the
      construction reads as an object and the loop over its children
      succeeds; reading `self.construction` afterwards gives the same
      object with the children the loop produced. */
  lemma OverConstructionSpec(tree: Obj, f: (nat, Obj) -> Result<Obj>)
    ensures OverConstruction(tree, f).Ok? <==>
      Get(tree, "construction").Ok? && Get(tree, "construction").value.FObj?
      && Sweep(Get(tree, "construction").value.o.children, |Get(tree, "construction").value.o.children|, f).Ok?
    ensures OverConstruction(tree, f).Ok? ==>
      var cons := Get(tree, "construction").value.o;
      var t := OverConstruction(tree, f).value;
      && Get(t, "construction") == Ok(FObj(cons.(children := Sweep(cons.children, |cons.children|, f).value)))
      && t.attrs == tree.attrs && t.tag == tree.tag && |t.children| == |tree.children|
  {
    LocateGet(tree, "construction");
    if Locate(tree, "construction").Ok? {
      match Locate(tree, "construction").value
      case Plain(_) =>
      case Child(i) =>
        var cons := tree.children[i];
        var kids := Sweep(cons.children, |cons.children|, f);
        if kids.Ok? {
          InstancesReplace(tree.children, Lookup(tree.roles, "construction").value, i, cons.(children := kids.value));
        }
      case InField =>
        var cons := Lookup(tree.fields, "construction").value.o;
        var kids := Sweep(cons.children, |cons.children|, f);
        if kids.Ok? {
          PutLookup(tree.fields, "construction", FObj(cons.(children := kids.value)), "construction");
        }
    }
  }

  // ---- GeoGebra.__init__ ----

  /** After the `format` fix no `format` attribute is an int; an int
      version n is replaced, at its place, by the text of float n; every
      other attribute and the rest of the object stay. Fixing twice is
      fixing once. */
  lemma FormatFixed(o: Obj)
    ensures var f := FixFormat(o);
      && Keys(f.attrs) == Keys(o.attrs)
      && !(Lookup(f.attrs, "format").Some? && Lookup(f.attrs, "format").value.VInt?)
      && (forall k :: k != "format" ==> Lookup(f.attrs, k) == Lookup(o.attrs, k))
      && f.(attrs := o.attrs) == o
      && FixFormat(f) == f
    ensures forall n: int :: Lookup(o.attrs, "format") == Some(VInt(n)) ==>
      Lookup(FixFormat(o).attrs, "format") == Some(VStr(IntRepr(n) + ".0"))
  {
    var fmt: Option<Value> := Lookup(o.attrs, "format");
    match fmt
    case Some(VInt(n)) =>
      var v := VStr(IntRepr(n) + ".0");
      forall k ensures Lookup(Put(o.attrs, "format", v), k) == if k == "format" then Some(v) else Lookup(o.attrs, k) {
        PutLookup(o.attrs, "format", v, k);
      }
    case _ =>
  }

  // ---- colours ----

  /** A palette name stands for its palette entry; an unknown name is a
      KeyError; a list of three scalars gives those components; anything
      that is neither a name nor a list gives black. */
  lemma ParseColorSpec(colors: OMap<PyVal>, v: PyVal)
    ensures v.PStr? && Lookup(colors, v.s).None? ==> ParseColor(colors, v) == Err(MissingKey(v.s))
    ensures v.PStr? && Lookup(colors, v.s).Some? && !Lookup(colors, v.s).value.PStr? ==>
      ParseColor(colors, v) == ParseColor([], Lookup(colors, v.s).value)
    ensures !v.PStr? && !v.PList? ==> ParseColor(colors, v) == Ok(New(Color, [], ZeroRgb))
    ensures v.PList? && |v.items| != 3 ==> ParseColor(colors, v).Err?
    ensures v.PList? && |v.items| == 3 && IsScalar(v.items[0]) && IsScalar(v.items[1]) && IsScalar(v.items[2]) ==>
      ParseColor(colors, v) ==
        Ok(New(Color, [], RgbAttrs(ToValue(v.items[0]).value, ToValue(v.items[1]).value, ToValue(v.items[2]).value)))
  {
  }

  // ---- set_bg_color ----

  /** After `set_bg_color` every Euclidian view among the root's children
      has its `bgColor` set to the one background colour and every other
      child stays; then `self.euclidianView3D`, read from the changed
      children, gets it too. The root's attributes and tag stay. */
  lemma BgPassSpec(tree: Obj, layout: PyVal, colors: OMap<PyVal>, bg: Obj)
    requires BgColor(layout, colors) == Ok(bg)
    requires BgPass(tree, layout, colors).Ok?
    ensures bg.cls == BGColor
    ensures Sweep(tree.children, |tree.children|, (j: nat, x: Obj) => BgStep(bg, x)).Ok?
    ensures var kids := Sweep(tree.children, |tree.children|, (j: nat, x: Obj) => BgStep(bg, x)).value;
      && (forall k :: 0 <= k < |tree.children| && IsEuclidianView(tree.children[k]) ==>
            Set(tree.children[k], "bgColor", FObj(bg)) == Ok(kids[k]))
      && (forall k :: 0 <= k < |tree.children| && !IsEuclidianView(tree.children[k]) ==>
            kids[k] == tree.children[k])
      && Get(tree.(children := kids), "euclidianView3D").Ok?
      && Get(tree.(children := kids), "euclidianView3D").value.FObj?
      && Set(Get(tree.(children := kids), "euclidianView3D").value.o, "bgColor", FObj(bg)).Ok?
    ensures var kids := Sweep(tree.children, |tree.children|, (j: nat, x: Obj) => BgStep(bg, x)).value;
      var v := Get(tree.(children := kids), "euclidianView3D").value.o;
      var t := BgPass(tree, layout, colors).value;
      Get(t, "euclidianView3D") == Ok(FObj(Set(v, "bgColor", FObj(bg)).value))
      && t.attrs == tree.attrs && t.tag == tree.tag
  {
    var f := (j: nat, x: Obj) => BgStep(bg, x);
    SweepSpec(tree.children, |tree.children|, f);
    var kids := Sweep(tree.children, |tree.children|, f).value;
    SetThroughReadBack(tree.(children := kids), "euclidianView3D", "bgColor", FObj(bg));
  }

  // ---- set_hidden_line_style ----

  /** The step for one child never fails: a child whose `lineStyle` cannot
      take `typeHidden` is left as it is; otherwise its line style reads
      back with `typeHidden` set, and, when `typeHidden` is not a child
      role of the line style, reads back the style number. */
  lemma HiddenStepSpec(style: int, c: Obj)
    ensures HiddenStep(style, c).Ok?
    ensures SetThrough(c, "lineStyle", "typeHidden", FValue(VInt(style))).Err? ==> HiddenStep(style, c) == Ok(c)
    ensures SetThrough(c, "lineStyle", "typeHidden", FValue(VInt(style))).Ok? ==>
      Get(c, "lineStyle").Ok? && Get(c, "lineStyle").value.FObj?
      && var ls := Get(c, "lineStyle").value.o;
         var x := HiddenStep(style, c).value;
         && Get(x, "lineStyle") == Ok(FObj(Set(ls, "typeHidden", FValue(VInt(style))).value))
         && (!HasKey(ls.roles, "typeHidden") ==>
               Get(Set(ls, "typeHidden", FValue(VInt(style))).value, "typeHidden") == Ok(FValue(VInt(style))))
  {
    if SetThrough(c, "lineStyle", "typeHidden", FValue(VInt(style))).Ok? {
      SetThroughReadBack(c, "lineStyle", "typeHidden", FValue(VInt(style)));
      var ls := Get(c, "lineStyle").value.o;
      if !HasKey(ls.roles, "typeHidden") {
        SetValueGet(ls, "typeHidden", VInt(style));
      }
    }
  }

  /** `set_hidden_line_style` fails exactly when the layout has no
      `line_style.hidden_style` or the construction does not read as an
      object: the loop over the construction never fails. Then every child
      of the construction is its step's result. */
  lemma HiddenPassSpec(tree: Obj, layout: PyVal)
    ensures HiddenPass(tree, layout).Ok? <==>
      Setting(layout, "line_style", "hidden_style").Ok?
      && Get(tree, "construction").Ok? && Get(tree, "construction").value.FObj?
    ensures HiddenPass(tree, layout).Ok? ==>
      var style := HiddenStyle(Setting(layout, "line_style", "hidden_style").value);
      var cons := Get(tree, "construction").value.o;
      var t := HiddenPass(tree, layout).value;
      Get(t, "construction").Ok? && Get(t, "construction").value.FObj?
      && var cons' := Get(t, "construction").value.o;
         && |cons'.children| == |cons.children|
         && forall k :: 0 <= k < |cons.children| ==> Ok(cons'.children[k]) == HiddenStep(style, cons.children[k])
  {
    var s := Setting(layout, "line_style", "hidden_style");
    if s.Ok? {
      var f := (j: nat, x: Obj) => HiddenStep(HiddenStyle(s.value), x);
      assert HiddenPass(tree, layout) == OverConstruction(tree, f);
      OverConstructionSpec(tree, f);
      if Get(tree, "construction").Ok? && Get(tree, "construction").value.FObj? {
        var cons := Get(tree, "construction").value.o;
        forall k | 0 <= k < |cons.children| ensures f(k, cons.children[k]).Ok? {
          HiddenStepSpec(HiddenStyle(s.value), cons.children[k]);
        }
        SweepSpec(cons.children, |cons.children|, f);
      }
    }
  }

  // ---- set_caption_style ----

  /** An element whose `caption` reads is kept as it is. One whose
      `caption` is missing gets a new `Caption` with `val` '%n' as a plain
      attribute: its XML attributes, children, tag and content stay, so
      its serialised form does not change. */
  lemma WithCaptionSpec(el: Obj)
    ensures Get(el, "caption").Ok? ==> WithCaption(el) == Ok(el)
    ensures Get(el, "caption").Err? && Get(el, "caption").error.MissingAttribute? ==>
      WithCaption(el).Ok?
      && var el' := WithCaption(el).value;
         && el'.attrs == el.attrs && el'.children == el.children && el'.tag == el.tag
         && el'.content == el.content && el'.cls == el.cls
         && Get(el', "caption") == Ok(FObj(New(Caption, [("val", VStr("%n"))], ZeroRgb)))
    ensures Get(el, "caption").Err? && !Get(el, "caption").error.MissingAttribute? ==>
      WithCaption(el) == Err(Get(el, "caption").error)
  {
    LocateGet(el, "caption");
    if Get(el, "caption").Err? && Get(el, "caption").error.MissingAttribute? {
      WithCaptionAdded(el);
    }
  }

  lemma WithCaptionAdded(el: Obj)
    requires Locate(el, "caption").Err? && Locate(el, "caption").error.MissingAttribute?
    ensures WithCaption(el).Ok?
    ensures var el' := WithCaption(el).value;
      && el'.attrs == el.attrs && el'.children == el.children && el'.tag == el.tag
      && el'.content == el.content && el'.cls == el.cls
      && Get(el', "caption") == Ok(FObj(New(Caption, [("val", VStr("%n"))], ZeroRgb)))
  {
    var cap := New(Caption, [("val", VStr("%n"))], ZeroRgb);
    SetMissing(el, "caption", FObj(cap));
  }

  /** Writing a name that does not resolve adds it as a plain attribute. */
  lemma SetMissing(el: Obj, name: string, f: Field)
    requires Locate(el, name).Err? && Locate(el, name).error.MissingAttribute?
    ensures Set(el, name, f).Ok?
    ensures var el' := Set(el, name, f).value;
      && el'.attrs == el.attrs && el'.children == el.children && el'.tag == el.tag
      && el'.content == el.content && el'.cls == el.cls
      && Get(el', name) == Ok(f)
  {
    SetPlain(el, name, f);
  }

  /** When the caption of an element has been styled, the element's
      caption reads back with `val` set to the styled text of the caption
      it had (or of the '%n' fallback); when `val` is not a child role of
      the caption, `el.caption.val` reads that text. */
  lemma CaptionOfSpec(el: Obj, tex: bool, bold: bool)
    requires CaptionOf(el, tex, bold).Ok?
    ensures WithCaption(el).Ok? && CaptionVal(WithCaption(el).value).Ok?
    ensures var el1 := WithCaption(el).value;
      var text := Tex.CaptionText(CaptionVal(el1).value, tex, bold);
      var cap := Get(el1, "caption").value.o;
      var el' := CaptionOf(el, tex, bold).value;
      && Get(el', "caption") == Ok(FObj(Set(cap, "val", FValue(VStr(text))).value))
      && (!HasKey(cap.roles, "val") ==> CaptionVal(el') == Ok(text))
  {
    var el1 := WithCaption(el).value;
    var text := Tex.CaptionText(CaptionVal(el1).value, tex, bold);
    SetThroughReadBack(el1, "caption", "val", FValue(VStr(text)));
    var cap := Get(el1, "caption").value.o;
    if !HasKey(cap.roles, "val") {
      SetValueGet(cap, "val", VStr(text));
    }
  }

  /** `set_caption_style` succeeds exactly when the layout has both caption
      settings, the construction reads as an object and the caption of
      every element among its children can be styled. */
  lemma CaptionPassOk(tree: Obj, layout: PyVal, tex: PyVal, bold: PyVal)
    requires Setting(layout, "default_caption_style", "tex") == Ok(tex)
    requires Setting(layout, "default_caption_style", "bold") == Ok(bold)
    ensures CaptionPass(tree, layout).Ok? <==>
      Get(tree, "construction").Ok? && Get(tree, "construction").value.FObj?
      && var cons := Get(tree, "construction").value.o;
         forall k :: 0 <= k < |cons.children| && IsElement(cons.children[k]) ==>
           CaptionOf(cons.children[k], Truthy(tex), Truthy(bold)).Ok?
  {
    var f := (j: nat, x: Obj) => CaptionStep(Truthy(tex), Truthy(bold), x);
    assert CaptionPass(tree, layout) == OverConstruction(tree, f);
    OverConstructionSpec(tree, f);
    if Get(tree, "construction").Ok? && Get(tree, "construction").value.FObj? {
      var cons := Get(tree, "construction").value.o;
      SweepSpec(cons.children, |cons.children|, f);
    }
  }

  /** After `set_caption_style` the construction reads back with each
      element's caption styled and every other child as it was. */
  lemma CaptionPassSpec(tree: Obj, layout: PyVal, tex: PyVal, bold: PyVal)
    requires Setting(layout, "default_caption_style", "tex") == Ok(tex)
    requires Setting(layout, "default_caption_style", "bold") == Ok(bold)
    requires CaptionPass(tree, layout).Ok?
    ensures Get(tree, "construction").Ok? && Get(tree, "construction").value.FObj?
    ensures var t := CaptionPass(tree, layout).value;
      Get(t, "construction").Ok? && Get(t, "construction").value.FObj?
    ensures var cons := Get(tree, "construction").value.o;
      var cons' := Get(CaptionPass(tree, layout).value, "construction").value.o;
      && |cons'.children| == |cons.children|
      && (forall k :: 0 <= k < |cons.children| && IsElement(cons.children[k]) ==>
            CaptionOf(cons.children[k], Truthy(tex), Truthy(bold)) == Ok(cons'.children[k]))
      && (forall k :: 0 <= k < |cons.children| && !IsElement(cons.children[k]) ==>
            cons'.children[k] == cons.children[k])
  {
    var f := (j: nat, x: Obj) => CaptionStep(Truthy(tex), Truthy(bold), x);
    assert CaptionPass(tree, layout) == OverConstruction(tree, f);
    OverConstructionSpec(tree, f);
    var cons := Get(tree, "construction").value.o;
    SweepSpec(cons.children, |cons.children|, f);
  }

  // ---- set_axes_style ----

  /** Names an axis object does not hold as child roles. */
  predicate PlainAxisNames(a: Obj)
  {
    !HasKey(a.roles, "show") && !HasKey(a.roles, "tickStyle")
    && !HasKey(a.roles, "showNumbers") && !HasKey(a.roles, "positiveAxisOnly")
  }

  /** The flags of one axis are set exactly when both layout values are
      there and scalar. */
  lemma AxisFlagsOk(axes: PyVal, a: Obj)
    requires PlainAxisNames(a)
    ensures AxisFlags(axes, a).Ok? <==>
      GetField(axes, "show_numbers").Ok? && IsScalar(GetField(axes, "show_numbers").value)
      && GetField(axes, "positive_axis_only").Ok? && IsScalar(GetField(axes, "positive_axis_only").value)
  {
    if GetField(axes, "show_numbers").Ok? && IsScalar(GetField(axes, "show_numbers").value) {
      var n := ToValue(GetField(axes, "show_numbers").value).value;
      SetKeepsClass(a, "showNumbers", FValue(n));
    }
  }

  /** The flags of one axis read back as the layout says; `show` and
      `tickStyle` read as before. */
  lemma AxisFlagsSpec(axes: PyVal, a: Obj, numbers: PyVal, positive: PyVal)
    requires PlainAxisNames(a)
    requires GetField(axes, "show_numbers") == Ok(numbers) && IsScalar(numbers)
    requires GetField(axes, "positive_axis_only") == Ok(positive) && IsScalar(positive)
    ensures AxisFlags(axes, a).Ok?
    ensures var a' := AxisFlags(axes, a).value;
      && Get(a', "showNumbers") == Ok(FValue(ToValue(numbers).value))
      && Get(a', "positiveAxisOnly") == Ok(FValue(ToValue(positive).value))
      && Get(a', "show") == Get(a, "show") && Get(a', "tickStyle") == Get(a, "tickStyle")
      && a'.children == a.children && a'.cls == a.cls
  {
    var n := ToValue(numbers).value;
    var p := ToValue(positive).value;
    SetValueFacts(a, "showNumbers", n);
    var a1 := Set(a, "showNumbers", FValue(n)).value;
    SetValueOther(a, "showNumbers", n, "show");
    SetValueOther(a, "showNumbers", n, "tickStyle");
    SetValueFacts(a1, "positiveAxisOnly", p);
    var a2 := Set(a1, "positiveAxisOnly", FValue(p)).value;
    SetValueOther(a1, "positiveAxisOnly", p, "show");
    SetValueOther(a1, "positiveAxisOnly", p, "tickStyle");
    SetValueOther(a1, "positiveAxisOnly", p, "showNumbers");
    assert AxisFlags(axes, a) == Ok(a2);
  }

  /** Styling one axis succeeds exactly when the layout's `axes` group has
      `show_ticks` and scalar `show_numbers` and `positive_axis_only`. */
  lemma StyleAxisOk(axes: PyVal, show: Value, a: Obj)
    requires PlainAxisNames(a)
    ensures StyleAxis(axes, show, a).Ok? <==>
      GetField(axes, "show_ticks").Ok?
      && GetField(axes, "show_numbers").Ok? && IsScalar(GetField(axes, "show_numbers").value)
      && GetField(axes, "positive_axis_only").Ok? && IsScalar(GetField(axes, "positive_axis_only").value)
  {
    SetValueFacts(a, "show", show);
    var a1 := Set(a, "show", FValue(show)).value;
    if GetField(axes, "show_ticks").Ok? {
      var ticks := GetField(axes, "show_ticks").value;
      var a2 := if !Truthy(ticks) then Set(a1, "tickStyle", FValue(VInt(0))).value else a1;
      if !Truthy(ticks) {
        SetValueFacts(a1, "tickStyle", VInt(0));
      }
      assert PlainAxisNames(a2);
      assert StyleAxis(axes, show, a) == AxisFlags(axes, a2);
      AxisFlagsOk(axes, a2);
    }
  }

  /** A styled axis shows `show`, its numbers and positive-only flag read
      as the layout says, its tick style is 0 when `show_ticks` is false
      and is left as it was otherwise, and its children stay. */
  lemma StyleAxisSpec(axes: PyVal, show: Value, a: Obj, ticks: PyVal, numbers: PyVal, positive: PyVal)
    requires PlainAxisNames(a)
    requires GetField(axes, "show_ticks") == Ok(ticks)
    requires GetField(axes, "show_numbers") == Ok(numbers) && IsScalar(numbers)
    requires GetField(axes, "positive_axis_only") == Ok(positive) && IsScalar(positive)
    ensures StyleAxis(axes, show, a).Ok?
    ensures var a' := StyleAxis(axes, show, a).value;
      && Get(a', "show") == Ok(FValue(show))
      && Get(a', "showNumbers") == Ok(FValue(ToValue(numbers).value))
      && Get(a', "positiveAxisOnly") == Ok(FValue(ToValue(positive).value))
      && (!Truthy(ticks) ==> Get(a', "tickStyle") == Ok(FValue(VInt(0))))
      && (Truthy(ticks) ==> Get(a', "tickStyle") == Get(a, "tickStyle"))
      && a'.children == a.children && a'.cls == a.cls
  {
    SetValueFacts(a, "show", show);
    var a1 := Set(a, "show", FValue(show)).value;
    var a2 := if !Truthy(ticks) then Set(a1, "tickStyle", FValue(VInt(0))).value else a1;
    if !Truthy(ticks) {
      SetValueFacts(a1, "tickStyle", VInt(0));
      assert Get(a2, "tickStyle") == Ok(FValue(VInt(0)));
    } else {
      assert Get(a2, "tickStyle") == Get(a, "tickStyle");
    }
    assert Get(a2, "show") == Ok(FValue(show));
    assert PlainAxisNames(a2);
    assert StyleAxis(axes, show, a) == AxisFlags(axes, a2);
    AxisFlagsSpec(axes, a2, numbers, positive);
    var a' := AxisFlags(axes, a2).value;
    assert Get(a', "tickStyle") == Get(a2, "tickStyle");
    assert Get(a', "show") == Get(a2, "show");
  }

  /** `ev is self.euclidianView3D` is decided by position: the index found
      is where `self.euclidianView3D` reads from. */
  lemma View3DIndexSpec(tree: Obj)
    ensures View3DIndex(tree).Err? <==> Get(tree, "euclidianView3D").Err?
    ensures View3DIndex(tree).Ok? && View3DIndex(tree).value.Some? ==>
      View3DIndex(tree).value.value < |tree.children|
      && Get(tree, "euclidianView3D") == Ok(FObj(tree.children[View3DIndex(tree).value.value]))
  {
    LocateGet(tree, "euclidianView3D");
  }

  /** The 3D view gets no axes colour: its styling does not consult the
      palette. */
  lemma StyleViewPalette(layout: PyVal, colors: OMap<PyVal>, view3D: Result<Option<nat>>, j: nat, ev: Obj)
    ensures view3D == Ok(Some(j)) ==>
      StyleView(layout, colors, view3D, j, ev) == StyleView(layout, [], view3D, j, ev)
  {
  }

  /** When one view's styling succeeds, each of its steps does: the layout
      holds `axes.show` as a scalar, `settings.axes` can be written, and a
      view other than the 3D one gets an `axesColor` built from the layout's
      axes colour. */
  lemma StyleViewSteps(layout: PyVal, colors: OMap<PyVal>, view3D: Result<Option<nat>>, j: nat, ev: Obj)
    requires StyleView(layout, colors, view3D, j, ev).Ok?
    ensures GetField(layout, "axes").Ok? && view3D.Ok?
    ensures var axes := GetField(layout, "axes").value;
      GetField(axes, "show").Ok? && ToValue(GetField(axes, "show").value).Ok?
    ensures var axes := GetField(layout, "axes").value;
      var s := ToValue(GetField(axes, "show").value).value;
      SetThrough(ev, "settings", "axes", FValue(s)).Ok?
    ensures var axes := GetField(layout, "axes").value;
      var s := ToValue(GetField(axes, "show").value).value;
      var e1 := SetThrough(ev, "settings", "axes", FValue(s)).value;
      view3D.value != Some(j) ==>
        && GetField(axes, "color").Ok?
        && ParseColor(colors, GetField(axes, "color").value).Ok?
        && ColorOf(AxesColor, ParseColor(colors, GetField(axes, "color").value).value).Ok?
        && Set(e1, "axesColor", FObj(ColorOf(AxesColor, ParseColor(colors, GetField(axes, "color").value).value).value)).Ok?
  {
  }

  /** What one view's styling does when it succeeds: after `settings.axes`
      and (for a view other than the 3D one) `axesColor` are written, each
      `Axis` child is styled by `StyleAxis` and every other child stays. */
  lemma StyleViewSpec(layout: PyVal, colors: OMap<PyVal>, view3D: Result<Option<nat>>, j: nat, ev: Obj)
    requires StyleView(layout, colors, view3D, j, ev).Ok?
    ensures GetField(layout, "axes").Ok? && view3D.Ok?
    ensures var axes := GetField(layout, "axes").value;
      GetField(axes, "show").Ok? && ToValue(GetField(axes, "show").value).Ok?
      && SetThrough(ev, "settings", "axes", FValue(ToValue(GetField(axes, "show").value).value)).Ok?
    ensures var axes := GetField(layout, "axes").value;
      var s := ToValue(GetField(axes, "show").value).value;
      var e1 := SetThrough(ev, "settings", "axes", FValue(s)).value;
      var e2 := if view3D.value != Some(j)
        then Set(e1, "axesColor", FObj(ColorOf(AxesColor, ParseColor(colors, GetField(axes, "color").value).value).value)).value
        else e1;
      var e := StyleView(layout, colors, view3D, j, ev).value;
      && e == e2.(children := e.children)
      && |e.children| == |e2.children|
      && (forall k :: 0 <= k < |e2.children| && IsInstance(e2.children[k].cls, Axis) ==>
            StyleAxis(axes, s, e2.children[k]) == Ok(e.children[k]))
      && (forall k :: 0 <= k < |e2.children| && !IsInstance(e2.children[k].cls, Axis) ==>
            e.children[k] == e2.children[k])
  {
    StyleViewSteps(layout, colors, view3D, j, ev);
    var axes := GetField(layout, "axes").value;
    var s := ToValue(GetField(axes, "show").value).value;
    var e1 := SetThrough(ev, "settings", "axes", FValue(s)).value;
    var e2 := if view3D.value != Some(j)
      then Set(e1, "axesColor", FObj(ColorOf(AxesColor, ParseColor(colors, GetField(axes, "color").value).value).value)).value
      else e1;
    SweepSpec(e2.children, |e2.children|, (i: nat, x: Obj) => AxisStep(axes, s, x));
  }

  /** `set_axes_style` succeeds exactly when every Euclidian view among the
      root's children is styled. */
  lemma AxesPassOk(tree: Obj, layout: PyVal, colors: OMap<PyVal>)
    ensures AxesPass(tree, layout, colors).Ok? <==>
      forall k :: 0 <= k < |tree.children| && IsEuclidianView(tree.children[k]) ==>
        StyleView(layout, colors, View3DIndex(tree), k, tree.children[k]).Ok?
  {
    var f := (j: nat, x: Obj) => ViewStep(layout, colors, View3DIndex(tree), j, x);
    SweepSpec(tree.children, |tree.children|, f);
  }

  /** After `set_axes_style` each Euclidian view among the root's children
      is replaced by its styled form; every other child and the rest of the
      root stay. */
  lemma AxesPassSpec(tree: Obj, layout: PyVal, colors: OMap<PyVal>)
    requires AxesPass(tree, layout, colors).Ok?
    ensures var t := AxesPass(tree, layout, colors).value;
      && t == tree.(children := t.children)
      && |t.children| == |tree.children|
      && (forall k :: 0 <= k < |tree.children| && IsEuclidianView(tree.children[k]) ==>
            StyleView(layout, colors, View3DIndex(tree), k, tree.children[k]) == Ok(t.children[k]))
      && (forall k :: 0 <= k < |tree.children| && !IsEuclidianView(tree.children[k]) ==>
            t.children[k] == tree.children[k])
  {
    var f := (j: nat, x: Obj) => ViewStep(layout, colors, View3DIndex(tree), j, x);
    SweepSpec(tree.children, |tree.children|, f);
  }
}
