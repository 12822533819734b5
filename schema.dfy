/** The schema table of lib/curated_ggb_classes.py and lib/styling_logic.py.
    Every class `create_ggb_class` makes has a tag, an ordered table of
    default attributes and an ordered table of child roles (role name to
    child class); element classes first run `Element`'s part, and the
    `Color` subclasses first run `Color`'s.

    `create_xml_class` returns a generated class; where the source wraps
    that result in a `class` statement (`Color`, `EuclidianView3D`,
    `EuclidianView`, `GeoGebra`), the generated class is kept apart as
    `...Base`: the registries hold the generated one, so a parsed
    `<euclidianView3D>` is not an instance of the class a role names. */
module Schema {
  import opened Codec
  import opened OrderedMap

  /** One step of initialising an instance: the body of a generated
      `__init__` (its tag, default attributes and roles), or the body of
      `Color.__init__` after its `super` call. */
  datatype Step =
    | Seed(tag: string, defaults: Attrs, roles: OMap<ClassDef>)
    | ColorInit

  /** A class: its `__name__`, whether the source declares it with a
      `class` statement, its direct bases, and the steps its initialisation
      runs, base first. Two classes of the table never agree on both name
      and `declared`, so equal values are the same class. */
  datatype ClassDef = ClassDef(name: string, declared: bool, bases: seq<ClassDef>, steps: seq<Step>)

  /** `isinstance` for an instance of class `c`: `c` itself or one of its
      bases, transitively. */
  predicate IsInstance(c: ClassDef, t: ClassDef)
    decreases c
  {
    c == t || exists i :: 0 <= i < |c.bases| && IsInstance(c.bases[i], t)
  }

  /** The class statement `LineStyle`, known by its name as every class is. */
  predicate IsLineStyle(c: ClassDef)
  {
    c.name == "LineStyle" && c.declared
  }

  /** The steps that run when an instance of `c` is initialised from a node
      with attribute names `keys` (none without a node). `LineStyle` runs
      only its first part, `EVLineStyle`'s, for a node with `axes` or `grid`
      but none of `thickness`, `type`, `typeHidden`, and its full order
      otherwise. */
  function Chain(c: ClassDef, keys: seq<string>): (r: seq<Step>)
    ensures forall i :: 0 <= i < |r| ==> r[i] in c.steps
  {
    if IsLineStyle(c) && c.steps != []
      && !("thickness" in keys || "type" in keys || "typeHidden" in keys)
      && ("axes" in keys || "grid" in keys)
    then c.steps[..1]
    else c.steps
  }

  /** For the table's `LineStyle` the short chain is `EVLineStyle`'s and
      the full one runs `EVLineStyle`'s part, then `ElementLineStyle`'s. */
  lemma LineStyleChains(keys: seq<string>)
    ensures IsLineStyle(LineStyle)
    ensures Chain(LineStyle, keys) ==
      if !("thickness" in keys || "type" in keys || "typeHidden" in keys) && ("axes" in keys || "grid" in keys)
      then EVLineStyle.steps
      else EVLineStyle.steps + ElementLineStyle.steps
  {
  }

  /** The role classes of a step of `c` are smaller values than `c`, which
      is what makes building default children terminate. */
  lemma RolesOfStep(s: Step, c: ClassDef)
    requires s.Seed? && s in c.steps
    ensures forall i :: 0 <= i < |s.roles| ==> s.roles[i].1 < c
  {
    forall i | 0 <= i < |s.roles|
      ensures s.roles[i].1 < c
    {
      assert s.roles[i] in s.roles;
    }
  }

  // ---- the table, in the order the source creates the classes ----

  const AbsoluteScreenLocation: ClassDef := ClassDef("AbsoluteScreenLocation", false, [], [Seed("absoluteScreenLocation", [("x", VInt(0)), ("y", VInt(0))], [])])
  const AlgebraStyle: ClassDef := ClassDef("AlgebraStyle", false, [], [Seed("algebraStyle", [("val", VInt(3)), ("spreadsheet", VInt(0))], [])])
  const AngleStyle: ClassDef := ClassDef("AngleStyle", false, [], [Seed("angleStyle", [("val", VInt(0))], [])])
  const AngleUnit: ClassDef := ClassDef("AngleUnit", false, [], [Seed("angleUnit", [("val", VStr("degree"))], [])])
  const Animation: ClassDef := ClassDef("Animation", false, [], [Seed("animation", [("speed", VInt(1)), ("type", VInt(1)), ("playing", VBool(false)), ("step", VNone)], [])])
  const ArcSize: ClassDef := ClassDef("ArcSize", false, [], [Seed("arcSize", [("val", VInt(40))], [])])
  const Auxiliary: ClassDef := ClassDef("Auxiliary", false, [], [Seed("auxiliary", [("val", VBool(false))], [])])
  const Axis: ClassDef := ClassDef("Axis", false, [], [Seed("axis", [("id", VInt(0)), ("show", VBool(true)), ("label", VStr("")), ("unitLabel", VStr("1")), ("tickStyle", VInt(1)), ("showNumbers", VBool(true)), ("tickDistance", VNone), ("tickExpression", VNone), ("positiveAxis", VNone), ("selectionAllowed", VNone)], [])])
  const ColorBase: ClassDef := ClassDef("Color", false, [], [Seed("color", [("r", VInt(0)), ("g", VInt(0)), ("b", VInt(0))], [])])
  const Color: ClassDef := ClassDef("Color", true, [ColorBase], ColorBase.steps + [ColorInit])
  const AxesColor: ClassDef := ClassDef("AxesColor", false, [Color], Color.steps + [Seed("axesColor", [], [])])
  const BGColor: ClassDef := ClassDef("BGColor", false, [Color], Color.steps + [Seed("bgColor", [], [])])
  const GridColor: ClassDef := ClassDef("GridColor", false, [Color], Color.steps + [Seed("gridColor", [], [])])
  const ObjColor: ClassDef := ClassDef("ObjColor", false, [Color], Color.steps + [Seed("objColor", [("alpha", VNone)], [])])
  const Caption: ClassDef := ClassDef("Caption", false, [], [Seed("caption", [("val", VStr("%n"))], [])])
  const Checkbox: ClassDef := ClassDef("Checkbox", false, [], [Seed("checkbox", [("fixed", VBool(true))], [])])
  const Clipping: ClassDef := ClassDef("Clipping", false, [], [Seed("clipping", [("use", VBool(true)), ("show", VBool(false)), ("size", VInt(1))], [])])
  const Coefficients: ClassDef := ClassDef("Coefficients", false, [], [Seed("coefficients", [("rep", VStr("array")), ("data", VStr("[]"))], [])])
  const Collapsed: ClassDef := ClassDef("Collapsed", false, [], [Seed("collapsed", [("val", VInt(0))], [])])
  const Condition: ClassDef := ClassDef("Condition", false, [], [Seed("condition", [("showObject", VStr("true"))], [])])
  const Construction: ClassDef := ClassDef("Construction", false, [], [Seed("construction", [("title", VStr("")), ("author", VStr("")), ("date", VStr(""))], [])])
  const Continuous: ClassDef := ClassDef("Continuous", false, [], [Seed("continuous", [("val", VBool(false))], [])])
  const Coords: ClassDef := ClassDef("Coords", false, [], [Seed("coords", [("x", VInt(0)), ("y", VInt(0)), ("z", VInt(0)), ("w", VNone), ("ox", VNone), ("oy", VNone), ("oz", VNone), ("ow", VNone), ("vx", VNone), ("vy", VNone), ("vz", VNone), ("vw", VNone)], [])])
  const CoordStyle: ClassDef := ClassDef("CoordStyle", false, [], [Seed("coordStyle", [("style", VNone), ("val", VNone)], [])])
  const CoordSystem: ClassDef := ClassDef("CoordSystem", false, [], [Seed("coordSystem", [("xZero", VInt(640)), ("yZero", VInt(380)), ("scale", VInt(50)), ("yscale", VNone), ("zZero", VNone), ("xAngle", VNone), ("zAngle", VNone)], [])])
  const CurveParam: ClassDef := ClassDef("CurveParam", false, [], [Seed("curveParam", [("t", VInt(0))], [])])
  const Decimals: ClassDef := ClassDef("Decimals", false, [], [Seed("decimals", [("val", VInt(2))], [])])
  const Decoration: ClassDef := ClassDef("Decoration", false, [], [Seed("decoration", [("type", VInt(4))], [])])
  const DockBar: ClassDef := ClassDef("DockBar", false, [], [Seed("dockBar", [("show", VBool(false)), ("east", VBool(false))], [])])
  const EigenVectors: ClassDef := ClassDef("EigenVectors", false, [], [Seed("eigenvectors", [("x0", VInt(1)), ("y0", VInt(0)), ("z0", VInt(0)), ("x1", VInt(0)), ("y1", VInt(1)), ("z1", VInt(0)), ("x2", VInt(0)), ("y2", VInt(0)), ("z2", VInt(1))], [])])
  const Entry: ClassDef := ClassDef("Entry", false, [], [Seed("entry", [("key", VStr("")), ("val", VStr(""))], [])])
  const CASMap: ClassDef := ClassDef("CASMap", false, [], [Seed("cASMap", [], [("entry", Entry)])])
  const EqnStyle: ClassDef := ClassDef("EqnStyle", false, [], [Seed("eqnStyle", [("style", VStr("user")), ("parameter", VStr("t"))], [])])
  const EVSettings: ClassDef := ClassDef("EVSettings", false, [], [Seed("evSettings", [("axes", VBool(true)), ("grid", VBool(false)), ("gridIsBold", VBool(false)), ("pointCapturing", VInt(3)), ("rightAngleStyle", VInt(1)), ("checkboxSize", VInt(26)), ("gridType", VInt(3))], [])])
  const Expression: ClassDef := ClassDef("Expression", false, [], [Seed("expression", [("label", VStr("")), ("exp", VStr("")), ("type", VNone), ("value", VNone), ("eval", VNone), ("evalCmd", VNone), ("native", VNone)], [])])
  const Fading: ClassDef := ClassDef("Fading", false, [], [Seed("fading", [("val", VFloat("0.1"))], [])])
  const Fixed: ClassDef := ClassDef("Fixed", false, [], [Seed("fixed", [("val", VBool(true))], [])])
  const Font: ClassDef := ClassDef("Font", false, [], [Seed("font", [("size", VInt(16)), ("serif", VNone), ("sizeM", VNone), ("style", VNone)], [])])
  const GGBScript: ClassDef := ClassDef("GGBScript", false, [], [Seed("ggbscript", [("val", VNone), ("onUpdate", VNone)], [])])
  const Grid: ClassDef := ClassDef("Grid", false, [], [Seed("grid", [("distX", VInt(2)), ("distY", VInt(2)), ("distTheta", VFloat("0.5235987755982988"))], [])])
  const Input: ClassDef := ClassDef("Input", false, [], [Seed("input", [("a0", VNone), ("show", VNone), ("cmd", VNone), ("top", VNone)], [])])
  const InputCell: ClassDef := ClassDef("InputCell", false, [], [Seed("inputCell", [], [("expression", Expression)])])
  const IsLatex: ClassDef := ClassDef("IsLatex", false, [], [Seed("isLaTeX", [("val", VBool(false))], [])])
  const JavaScript: ClassDef := ClassDef("JavaScript", false, [], [Seed("javascript", [("val", VNone), ("onUpdate", VNone)], [])])
  const KeepTypeOnTransform: ClassDef := ClassDef("KeepTypeOnTransform", false, [], [Seed("keepTypeOnTransform", [("val", VBool(true))], [])])
  const LabelingStyle: ClassDef := ClassDef("LabelingStyle", false, [], [Seed("labelingStyle", [("val", VInt(0))], [])])
  const LabelMode: ClassDef := ClassDef("LabelMode", false, [], [Seed("labelMode", [("val", VInt(0))], [])])
  const LabelOffset: ClassDef := ClassDef("LabelOffset", false, [], [Seed("labelOffset", [("x", VInt(-15)), ("y", VInt(15))], [])])
  const LabelStyle: ClassDef := ClassDef("LabelStyle", false, [], [Seed("labelStyle", [("axes", VInt(1)), ("serif", VBool(false))], [])])
  const Layer: ClassDef := ClassDef("Layer", false, [], [Seed("layer", [("val", VInt(0))], [])])
  const Length: ClassDef := ClassDef("Length", false, [], [Seed("length", [("val", VInt(0))], [])])
  const EVLineStyle: ClassDef := ClassDef("EVLineStyle", false, [], [Seed("lineStyle", [("axes", VInt(1)), ("grid", VInt(0))], [])])
  const ElementLineStyle: ClassDef := ClassDef("ElementLineStyle", false, [], [Seed("lineStyle", [("thickness", VNone), ("type", VNone), ("typeHidden", VNone), ("opacity", VNone)], [])])
  const LineStyle: ClassDef := ClassDef("LineStyle", true, [ElementLineStyle, EVLineStyle], EVLineStyle.steps + ElementLineStyle.steps)
  const LinkedGeo: ClassDef := ClassDef("LinkedGeo", false, [], [Seed("linkedGeo", [("exp", VStr(""))], [])])
  const Matrix: ClassDef := ClassDef("Matrix", false, [], [Seed("matrix", [("A0", VInt(1)), ("A1", VInt(1)), ("A2", VInt(0)), ("A3", VInt(0)), ("A4", VInt(0)), ("A5", VInt(0))], [])])
  const Mode: ClassDef := ClassDef("Mode", false, [], [Seed("mode", [("val", VInt(1))], [])])
  const AlgebraView: ClassDef := ClassDef("AlgebraView", false, [], [Seed("algebraView", [], [("mode", Mode), ("collapsed", Collapsed)])])
  const OutlyingIntersections: ClassDef := ClassDef("OutlyingIntersections", false, [], [Seed("outlyingIntersections", [("val", VBool(false))], [])])
  const Output: ClassDef := ClassDef("Output", false, [], [Seed("output", [("a0", VStr(""))], [])])
  const Command: ClassDef := ClassDef("Command", false, [], [Seed("command", [("name", VStr("")), ("var", VNone)], [("input", Input), ("output", Output)])])
  const OutputCell: ClassDef := ClassDef("OutputCell", false, [], [Seed("outputCell", [], [("expression", Expression)])])
  const CellPair: ClassDef := ClassDef("CellPair", false, [], [Seed("cellPair", [], [("inputCell", InputCell), ("outputCell", OutputCell)])])
  const CASCell: ClassDef := ClassDef("CASCell", false, [], [Seed("cASCell", [("casLabel", VStr(""))], [("cellPair", CellPair)])])
  const Pane: ClassDef := ClassDef("Pane", false, [], [Seed("pane", [("location", VStr("")), ("divider", VFloat("0.5")), ("orientation", VInt(0))], [])])
  const Panes: ClassDef := ClassDef("Panes", false, [], [Seed("panes", [], [])])
  const Perspectives: ClassDef := ClassDef("Perspectives", false, [], [Seed("perspectives", [], [])])
  const Plate: ClassDef := ClassDef("Plate", false, [], [Seed("plate", [("show", VBool(false))], [])])
  const PointSize: ClassDef := ClassDef("PointSize", false, [], [Seed("pointSize", [("val", VInt(5))], [])])
  const PointStyle: ClassDef := ClassDef("PointStyle", false, [], [Seed("pointStyle", [("val", VInt(0))], [])])
  const PrefCellSize: ClassDef := ClassDef("PrefCellSize", false, [], [Seed("prefCellSize", [("width", VInt(70)), ("height", VInt(35))], [])])
  const Projection: ClassDef := ClassDef("Projection", false, [], [Seed("projection", [("type", VInt(0))], [])])
  const EuclidianView3DBase: ClassDef := ClassDef("EuclidianView3D", false, [], [Seed("euclidianView3D", [], [("plate", Plate), ("clipping", Clipping), ("projection", Projection), ("settings", EVSettings), ("bgColor", BGColor), ("coordSystem", CoordSystem)])])
  const EuclidianView3D: ClassDef := ClassDef("EuclidianView3D", true, [EuclidianView3DBase], EuclidianView3DBase.steps)
  const Scripting: ClassDef := ClassDef("Scripting", false, [], [Seed("scripting", [("blocked", VBool(false)), ("disabled", VBool(false))], [])])
  const Selection: ClassDef := ClassDef("Selection", false, [], [Seed("selection", [("hScroll", VInt(0)), ("vScroll", VInt(0)), ("column", VInt(-1)), ("row", VInt(-1))], [])])
  const SelectionAllowed: ClassDef := ClassDef("SelectionAllowed", false, [], [Seed("selectionAllowed", [("val", VBool(false))], [])])
  const Show: ClassDef := ClassDef("Show", false, [], [Seed("show", [("object", VBool(false)), ("label", VBool(true)), ("ev", VInt(4)), ("axes", VNone), ("grid", VNone)], [])])
  const Element: ClassDef := ClassDef("Element", false, [], [Seed("element", [("label", VStr("")), ("type", VStr("element"))], [("color", ObjColor), ("show", Show), ("layer", Layer), ("labelMode", LabelMode), ("animation", Animation), ("lineStyle", ElementLineStyle)])])
  const Size: ClassDef := ClassDef("Size", false, [], [Seed("size", [("width", VInt(1310)), ("height", VInt(513))], [])])
  const Slider: ClassDef := ClassDef("Slider", false, [], [Seed("slider", [("min", VInt(0)), ("max", VInt(100)), ("absoluteScreenLocation", VBool(true)), ("width", VInt(200)), ("fixed", VBool(false)), ("horizontal", VBool(true)), ("showAlgebra", VBool(true)), ("x", VNone), ("y", VNone)], [])])
  const SpreadsheetView: ClassDef := ClassDef("SpreadsheetView", false, [], [Seed("spreadsheetView", [], [("size", Size), ("prefCellSize", PrefCellSize), ("selection", Selection)])])
  const StartPoint: ClassDef := ClassDef("StartPoint", false, [], [Seed("startPoint", [("exp", VStr("")), ("x", VNone), ("y", VNone), ("z", VNone), ("w", VNone)], [])])
  const Symbolic: ClassDef := ClassDef("Symbolic", false, [], [Seed("symbolic", [("val", VBool(true))], [])])
  const TableView: ClassDef := ClassDef("TableView", false, [], [Seed("tableview", [("min", VInt(-2)), ("max", VInt(2)), ("step", VInt(1))], [])])
  const ToolBar: ClassDef := ClassDef("ToolBar", false, [], [Seed("toolbar", [("show", VBool(true)), ("items", VStr("0 73 62 | 1 501 67 , 5 19 , 72 75 76 | 2 15 45 , 18 65 , 7 37 | 4 3 8 9 , 13 44 , 58 , 47 | 16 51 64 , 70 | 10 34 53 11 , 24  20 22 , 21 23 | 55 56 57 , 12 | 36 46 , 38 49  50 , 71  14  68 | 30 29 54 32 31 33 | 25 17 26 60 52 61 | 40 41 42 , 27 28 35 , 6")), ("position", VInt(1)), ("help", VBool(false))], [])])
  const Trace: ClassDef := ClassDef("Trace", false, [], [Seed("trace", [("val", VBool(true))], [])])
  const UsePathAndRegionParameters: ClassDef := ClassDef("UsePathAndRegionParameters", false, [], [Seed("usePathAndRegionParameters", [("val", VBool(true))], [])])
  const UserInput: ClassDef := ClassDef("UserInput", false, [], [Seed("userInput", [("show", VBool(false))], [])])
  const Uses3D: ClassDef := ClassDef("Uses3D", false, [], [Seed("uses3D", [("val", VBool(true))], [])])
  const Kernel: ClassDef := ClassDef("Kernel", false, [], [Seed("kernel", [], [("uses3D", Uses3D), ("usePathAndRegionParameters", UsePathAndRegionParameters), ("coordStyle", CoordStyle), ("angleUnit", AngleUnit), ("continuous", Continuous), ("algebraStyle", AlgebraStyle), ("decimals", Decimals)])])
  const Value: ClassDef := ClassDef("Value", false, [], [Seed("value", [("val", VInt(0))], [])])
  const VectorStartPoint: ClassDef := ClassDef("VectorStartPoint", false, [], [Seed("startPoint", [("exp", VStr("")), ("x", VNone), ("y", VNone), ("z", VNone), ("w", VNone)], [])])
  const View: ClassDef := ClassDef("View", false, [], [Seed("view", [("id", VInt(1)), ("visible", VBool(false)), ("inframe", VBool(false)), ("stylebar", VBool(false)), ("location", VStr("1,1,1")), ("size", VInt(500)), ("window", VStr("100,100,600,400")), ("toolbar", VNone)], [])])
  const ViewNumber: ClassDef := ClassDef("ViewNumber", false, [], [Seed("viewNumber", [("viewNo", VInt(1))], [])])
  const EuclidianViewBase: ClassDef := ClassDef("EuclidianView", false, [], [Seed("euclidianView", [], [("size", Size), ("settings", EVSettings), ("axesColor", AxesColor), ("lineStyle", LineStyle), ("gridColor", GridColor), ("grid", Grid), ("labelStyle", LabelStyle), ("bgColor", BGColor), ("viewNumber", ViewNumber), ("coordSystem", CoordSystem)])])
  const EuclidianView: ClassDef := ClassDef("EuclidianView", true, [EuclidianViewBase], EuclidianViewBase.steps)
  const Views: ClassDef := ClassDef("Views", false, [], [Seed("views", [], [])])
  const Perspective: ClassDef := ClassDef("Perspective", false, [], [Seed("perspective", [("id", VStr("tmp"))], [("views", Views), ("toolBar", ToolBar), ("input", Input), ("dockBar", DockBar), ("panes", Panes)])])
  const Window: ClassDef := ClassDef("Window", false, [], [Seed("window", [("width", VInt(1310)), ("height", VInt(1103))], [])])
  const GUI: ClassDef := ClassDef("GUI", false, [], [Seed("gui", [], [("labelingStyle", LabelingStyle), ("window", Window), ("font", Font), ("perspectives", Perspectives)])])
  const Boolean: ClassDef := ClassDef("Boolean", false, [Element], Element.steps + [Seed("element", [("type", VStr("boolean"))], [("value", Value), ("checkbox", Checkbox)])])
  const FunctionNVar: ClassDef := ClassDef("FunctionNVar", false, [Element], Element.steps + [Seed("element", [("type", VStr("functionNVar"))], [])])
  const List: ClassDef := ClassDef("List", false, [Element], Element.steps + [Seed("element", [("type", VStr("list"))], [("pointSize", PointSize), ("pointStyle", PointStyle)])])
  const Numeric: ClassDef := ClassDef("Numeric", false, [Element], Element.steps + [Seed("element", [("type", VStr("numeric"))], [("value", Value), ("symbolic", Symbolic), ("slider", Slider)])])
  const Point: ClassDef := ClassDef("Point", false, [Element], Element.steps + [Seed("element", [("type", VStr("point"))], [("auxiliary", Auxiliary), ("coords", Coords), ("label_offset", LabelOffset), ("size", PointSize), ("style", PointStyle), ("caption", Caption), ("javascript", JavaScript)])])
  const Polygon: ClassDef := ClassDef("Polygon", false, [Element], Element.steps + [Seed("element", [("type", VStr("polygon"))], [])])
  const Segment: ClassDef := ClassDef("Segment", false, [Element], Element.steps + [Seed("element", [("type", VStr("segment"))], [("auxiliary", Auxiliary), ("coords", Coords), ("outlying_intersections", OutlyingIntersections), ("keep_type_on_transform", KeepTypeOnTransform)])])
  const TextField: ClassDef := ClassDef("TextField", false, [Element], Element.steps + [Seed("element", [("type", VStr("textfield"))], [("fixed", Fixed), ("lined_geo", LinkedGeo)])])
  const Vector: ClassDef := ClassDef("Vector", false, [Element], Element.steps + [Seed("element", [("type", VStr("vector"))], [("start_point", VectorStartPoint)])])
  const Vector3D: ClassDef := ClassDef("Vector3D", false, [Element], Element.steps + [Seed("element", [("type", VStr("vector3d"))], [])])
  const GeoGebraBase: ClassDef := ClassDef("GeoGebra", false, [], [Seed("geogebra", [("app", VStr("classic")), ("platform", VStr("w")), ("format", VStr("5.0")), ("version", VStr("5.0.528.0")), ("id", VStr("")), ("{http://www.w3.org/2001/XMLSchema-instance}noNamespaceSchemaLocation", VStr("http://www.geogebra.org/ggb.xsd"))], [("algebraView", AlgebraView), ("construction", Construction), ("scripting", Scripting), ("euclidianView3D", EuclidianView3D), ("gui", GUI), ("kernel", Kernel), ("tableView", TableView), ("spreadsheetView", SpreadsheetView)])])
  const GeoGebra: ClassDef := ClassDef("GeoGebra", true, [GeoGebraBase], GeoGebraBase.steps)
}
