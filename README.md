# ggb-style-sheets in Dafny

ggb-style-sheets restyles GeoGebra worksheets. It reads the worksheet's
XML into instances of generated Python classes, one class per XML tag. It
then applies a layout read from JSON: background colour, caption style,
hidden-line style and axes. Finally it writes the XML back. A separate
extractor reads a worksheet and generates the `create_ggb_class`
declarations from which such a class table can be written.

This project models that core and proves what it promises:

- `codec.dfy` (module `Codec`): `XMLObject.parse_string`, which decodes an
  attribute or a text, and `attr_repr_of`, which renders the attributes.
- `escape.dfy` (module `Escape`): `html_string_repr`, the entity escaping.
- `json.dfy` (module `Json`): `JSONObject` and `convert_to_object`, which
  hold the layout.
- `schema.dfy` (module `Schema`): the class table of
  lib/curated_ggb_classes.py. Each class lists the initialiser bodies of its
  class chain, base first, with each body's tag, default attributes and
  child roles.
- `registry.dfy` (module `Registry`): the `ggb_classes` and
  `element_classes` registries, filled by `create_ggb_class` and
  `create_element_class`.
- `objects.dfy` (module `Objects`): instances as values. This covers
  building an instance from a node (`xml2ggb_object` and the generated
  `__init__`s), and `__getattribute__`/`__setattr__` as `Get`/`Set`.
- `instances.dfy` (module `Instances`): class `Instance`, a typed object
  whose fields the operations update in place. This covers `load_dict`, the
  steps of the generated `__init__`, `__setattr__`, the children operations
  and serialisation.
- `render.dfy` (module `Render`): `indented_xml_repr`, `xml_repr`, the
  escaping `GGBObject.attr_repr_of` and `GeoGebra.attr_repr`.
- `styling.dfy` and `styling_facts.dfy` (modules `Styling` and
  `StylingFacts`): the `GeoGebra` root class of lib/styling_logic.py as
  class `Document`, with `parse_color`, the four styling passes and
  `apply_layout`, and what each pass promises.
- `tex.dfy` (module `Tex`): `strip_tex_cmd`, `strip_tex` and the caption
  text.
- `extractor.dfy` and `classgen.dfy` (modules `Extractor` and `ClassGen`):
  lib/ggb_class_extractor.py. This covers the per-tag attribute and
  child-tag surveys, the tables built from them, the dependency sort, the
  quoting of attribute values and the generated declarations.
- `wrappers.dfy`, `omap.dfy` and `strings.dfy` (modules `Wrappers`,
  `OrderedMap` and `Strings`): `Result`/`Option` with the source's
  exceptions as errors, dicts as insertion-ordered association lists, and
  the string methods the source calls.

Dicts are `seq<(string, V)>` in insertion order, because the order of
`xml_attrs` is the order of the XML output. Values are
`VInt | VFloat | VBool | VStr | VNone`. A float is kept as its canonical
decimal text. Python exceptions become `Err` values of a `Result`.

## Model

| member | source | states |
|---|---|---|
| Codec.ParseString | lib/__init__.py:151-167 | the result is never None; a number exactly when the text is a decimal literal, and an int exactly when its fraction is all zeros; a bool only for "true", "True", "false", "False", true exactly for the first two; any other text comes back stripped |
| Codec.ParseText | lib/__init__.py:122 | a node's content is None exactly when the node has no text |
| Codec.IntRoundTrip | lib/__init__.py:151-167 | an int rendered by `attr_repr_of` parses back to the same int |
| Codec.BoolRoundTrip | lib/__init__.py:151-167 | a bool rendered lowercased parses back to the same bool |
| Codec.StrRoundTrip | lib/__init__.py:159-165 | a stripped string that is neither a decimal nor a boolean spelling parses back to itself |
| Codec.IntegralCollapse | lib/__init__.py:154-156 | digits followed by a point and any number of zeros parse to the int |
| Codec.ThreeExamples | lib/__init__.py:154-156 | "3" and "3.0" both parse to the int 3 |
| Codec.BooleanSpellings | lib/__init__.py:160-163 | "True" and "False" are booleans; "TRUE" stays a string |
| Codec.PaddedTrueIsString | lib/__init__.py:159-165 | " true" is not a boolean: it comes back as the string "true" |
| Codec.NotDecimal | lib/__init__.py:154 | a text whose first character cannot begin a number is not a decimal |
| Codec.RenderAttrs | lib/__init__.py:221-236 | the accumulating loop produces one ` key="value"` per entry whose value is not None, in map order |
| Codec.AttrReprOfEmpty | lib/__init__.py:221-236 | the rendering is empty exactly when every value is None, so an empty map renders as "" |
| Codec.AttrReprOfLeadingSpace | lib/__init__.py:235 | a non-empty rendering starts with a space |
| Codec.SingleAttr | lib/__init__.py:226-235 | one entry renders as ` key="text"`, with '_' in the key becoming ':', a string verbatim, a bool lowercased and anything else through repr |
| Escape.HtmlStringReprIsPerChar | lib/curated_ggb_classes.py:48-59 | the chain of `replace` calls equals escaping each character on its own |
| Escape.ChainSingle | lib/curated_ggb_classes.py:57-58 | when no replacement text holds a later key, one character becomes the text of the first rule that matches it |
| Escape.HtmlRulesIndependent | lib/curated_ggb_classes.py:50-56 | no entity of the table contains a key of a later entry |
| Escape.ChainAppend | lib/curated_ggb_classes.py:57-58 | the replace chain distributes over concatenation |
| Escape.EscapedHasNoSpecial | lib/curated_ggb_classes.py:48-59 | the output holds no `'`, newline, `<`, `>` or `"` |
| Escape.NoSpecialUnchanged | lib/curated_ggb_classes.py:48-59 | a string without those characters is returned unchanged |
| Escape.HtmlStringReprIdempotent | lib/curated_ggb_classes.py:48-59 | escaping twice equals escaping once |
| Escape.AmpersandKept | lib/curated_ggb_classes.py:50-56 | `&` is not escaped: the text on either side is escaped and the `&` stays |
| Json.Convert | lib/__init__.py:17-25 | scalars pass through; a list stays a list of the same length; a dict, and only a dict, becomes a JSONObject; anything else becomes None |
| Json.ConvertList | lib/__init__.py:22-23 | a list is converted element by element |
| Json.ConvertRoundTrip | lib/__init__.py:9-31 | on every value `json.load` can produce that has no dict key named `attr_dict`, turning the objects back into dicts gives the input back |
| Json.DictObjectFields | lib/__init__.py:9-31 | a dict without a key named `attr_dict` becomes an object whose attributes are `attr_dict` followed by each entry converted, in order |
| Json.DictFields | lib/__init__.py:27-31 | each key of the dict reads back as its converted value, a key named `attr_dict` included |
| Json.RawDictField | lib/__init__.py:11 | for a dict without a key named `attr_dict`, that attribute holds the raw dict, or None for an empty one |
| Json.ConvertedUnique | lib/__init__.py:9-31 | for every dict, the converted object's attribute names are distinct |
| Json.AttrDictCollision | lib/__init__.py:9-31 | for any value v, `{"attr_dict": v}` converts to an object whose only attribute is `attr_dict`, holding v converted; turning it back gives `{}`, not the input |
| Json.LoadDictFresh | lib/__init__.py:27-31 | loading a dict whose keys are new appends its converted entries in order |
| Json.GetField | lib/styling_logic.py:70-71 | reading a layout attribute succeeds exactly on a JSONObject that has it; anything else is an AttributeError |
| OrderedMap.Put | lib/__init__.py:329 | assigning an existing key keeps the key order; a new key is appended |
| OrderedMap.PutLookup | lib/__init__.py:241-243 | after an assignment the key reads the new value and every other key reads as before |
| OrderedMap.PutAt | lib/__init__.py:328-329 | assigning an existing key replaces that entry in place |
| OrderedMap.PutIfAbsentSpec | lib/__init__.py:280-281 | a default is added only for a missing key; distinct keys stay distinct |
| OrderedMap.AddMissingSpec | lib/__init__.py:278-281 | adding defaults keeps the existing entries in front; a key reads its own value if present, else the default |
| OrderedMap.PutAllKeysPrefix | lib/__init__.py:133-137 | loading pairs keeps the existing keys in front, in order |
| OrderedMap.PutAllTwice | lib/ggb_base_object.py:30-32 | loading the same attributes a second time changes nothing |
| OrderedMap.DeleteSpec | lib/styling_logic.py:41 | deleting a present key removes exactly that key; a missing key is a KeyError |
| OrderedMap.MapValues | lib/__init__.py:135 | converting every value keeps the keys and their order |
| Strings.Strip | lib/__init__.py:165 | the result neither starts nor ends with whitespace |
| Strings.StripStripped | lib/__init__.py:165 | a string without outer whitespace is its own strip |
| Strings.NatReprValue | lib/__init__.py:234 | the decimal text of a number reads back as that number |
| Strings.Find | lib/styling_logic.py:122 | the first position where the pattern occurs, or -1 exactly when it occurs nowhere |
| Strings.Lower | lib/curated_ggb_classes.py:907 | every character lowercased, length kept |
| Strings.Capitalize | lib/ggb_class_extractor.py:134 | the first character uppercased and the rest lowercased |
| Strings.CamelCase | lib/__init__.py:264-265 | the first character lowercased and the rest kept |
| Strings.ReplaceAppend | lib/ggb_class_extractor.py:127 | replacing a character distributes over concatenation |
| Schema.LineStyleChains | lib/curated_ggb_classes.py:495-504 | a `LineStyle` node with only `axes` or `grid` among those keys runs `EVLineStyle`'s initialiser alone; any other node, or none, runs `EVLineStyle`'s then `ElementLineStyle`'s |
| Objects.AddDefaultsPrefix | lib/__init__.py:286-292 | the existing children stay in front, in order |
| Objects.AddDefaultsCovers | lib/__init__.py:286-292 | afterwards every role class has a child of exactly that class |
| Objects.AddDefaultsAppended | lib/__init__.py:286-292 | each appended child is a default instance of a role class that no original child had |
| Objects.AddDefaultsDistinct | lib/__init__.py:286-292 | no class is appended twice |
| Objects.RunStepFacts | lib/__init__.py:273-299 | one generated `__init__` body keeps the content and the plain attributes, only appends children, keeps the front of the attribute keys and sets the body's declared tag |
| Objects.RunStepsFacts | lib/__init__.py:273-299 | the whole chain does the same, and the tag is that of the last body run |
| Objects.DispatchOk | lib/curated_ggb_classes.py:21-31 | a node gets a class exactly when its `type` is an element type or its tag is registered (tag-only: the tag is in either registry); otherwise a KeyError for the tag |
| Objects.DispatchersAgree | lib/ggb_base_object.py:20-29 | the tag-only lookup and the type-then-tag lookup choose the same class when neither the type nor the tag is an element key |
| Objects.PointElementDispatch | lib/curated_ggb_classes.py:21-28 | with the curated registries, `<element type="point">` becomes a `Point`, the class registered for its type |
| Objects.BaseElementDispatch | lib/ggb_base_object.py:20-29 | with only the base module's registrations, no element type is registered and the tag lookup of `<element>` fails with a KeyError for 'element' |
| Objects.BaseLoadNoElements | lib/ggb_base_object.py:20-29 | registering only base classes never fills the element-type registry |
| Objects.FromNodeOk | lib/curated_ggb_classes.py:9-35 | a tree converts exactly when every node in it has a class |
| Objects.FromNodeShape | lib/curated_ggb_classes.py:9-35 | the instance has the dispatched class, the parsed text as content and the converted children first, in order; its tag is the declared tag of its class, not the node's |
| Objects.FromNodeAttrs | lib/curated_ggb_classes.py:32-34 | `xml_attrs` starts with the node's parsed attributes in document order, followed only by defaults for keys the node lacks; keys are distinct |
| Objects.Collect | lib/curated_ggb_classes.py:15 | the children convert exactly when each child does, giving their results in order |
| Objects.FirstOfClass | lib/__init__.py:332-335 | the first child of exactly that class, or -1 exactly when there is none |
| Objects.GetAttrFirst | lib/__init__.py:309-310 | an `xml_attrs` entry is read before any role or plain attribute of that name |
| Objects.GetRoleNone | lib/__init__.py:311-315 | a role with no `isinstance` match among the children reads None |
| Objects.GetRoleOne | lib/__init__.py:311-317 | a role with one match reads that child |
| Objects.GetRoleTwo | lib/__init__.py:318-319 | a role with two matches is an error |
| Objects.SetAttr | lib/__init__.py:328-329 | assigning an `xml_attrs` key overwrites only that entry, keeps the key order and is read back |
| Objects.SetRole | lib/__init__.py:330-335 | assigning a role replaces the first child of exactly the role's class at its index, and does nothing when there is none |
| Objects.SetRoleRoundTrip | lib/__init__.py:323-335 | when the replaced child was the role's one match, the role reads back the new child |
| Objects.SetPlain | lib/__init__.py:336-337 | any other name becomes a plain attribute that reads back, with the attributes, children, tag and content unchanged |
| Registry.ClassTag | lib/curated_ggb_classes.py:69-71 | the given tag, else the name with its first letter lowercased |
| Registry.ElementType | lib/curated_ggb_classes.py:907 | the given type, else the lowercased name |
| Registry.Registries.CreateGgbClass | lib/curated_ggb_classes.py:62-82 | the class is registered under its tag, replacing any earlier class; nothing else changes (lib/ggb_base_object.py:45-64 registers in the same way) |
| Registry.Registries.CreateElementClass | lib/curated_ggb_classes.py:904-922 | the class is registered under 'element' and under its type in `ggb_classes`, and under its type in `element_classes` |
| Registry.Registries.RegisterAll | lib/curated_ggb_classes.py:85-990 | running registering statements in order leaves the registries that replaying them gives |
| Registry.GgbLastWins | lib/curated_ggb_classes.py:81 | the last registration that writes a tag decides its class |
| Registry.ElementLastWins | lib/curated_ggb_classes.py:920 | the last registration that writes an element type decides its class |
| Registry.GgbUntouched | lib/curated_ggb_classes.py:81 | a tag that no registration writes keeps its entry |
| Registry.ElementUntouched | lib/curated_ggb_classes.py:920 | an element type that no registration writes keeps its entry |
| Registry.LineStyleKeys | lib/curated_ggb_classes.py:477-506 | 'lineStyle' ends up with `ElementLineStyle`; `LineStyle` is registered only under 'linestyle' |
| Registry.ElementKeyIsVector3D | lib/curated_ggb_classes.py:927-990 | after the element classes, `ggb_classes['element']` is `Vector3D` |
| Registry.PointType | lib/curated_ggb_classes.py:954-964 | `element_classes['point']` is `Point` |
| Registry.PointIsLastPoint | lib/curated_ggb_classes.py:966-990 | no later element class takes the type 'point' |
| Registry.NoElementType | lib/curated_ggb_classes.py:927-990 | no element class takes the type 'element' |
| Registry.ElementTypeUntouched | lib/curated_ggb_classes.py:904-922 | so `element_classes['element']` is left as it was |
| Instances.PyIndex | lib/__init__.py:179-189 | an index is valid exactly for -n <= i < n; a negative index counts from the end |
| Instances.AttribAsValues | lib/__init__.py:135 | loading a node's attributes parses `str(value)`, which is the attribute text itself |
| Instances.ZeroRgbParsed | lib/curated_ggb_classes.py:166-168 | the default colour 0, 0, 0 loads as itself |
| Instances.Instance.LoadDict | lib/__init__.py:133-137 | each pair is parsed from its `str` and assigned into `xml_attrs` in order; nothing else changes |
| Instances.Instance.AddDefaultAttrs | lib/__init__.py:278-281 | each default is added when its key is missing; nothing else changes |
| Instances.Instance.MergeRoles | lib/__init__.py:283-285 | the class's roles are merged into `child_classes`; nothing else changes |
| Instances.Instance.AddDefaultChildren | lib/__init__.py:286-292 | a default child is appended for each role with no child of exactly its class; nothing else changes |
| Instances.Instance.Seed | lib/__init__.py:273-299 | one generated `__init__` body leaves the state `RunStep` gives |
| Instances.Instance.RunChain | lib/__init__.py:273-299 | the bodies of a class chain, run in order, leave the state `RunSteps` gives |
| Instances.Instance.FromNode | lib/curated_ggb_classes.py:9-17 | constructing from a node and its converted children gives the instance `Build` describes |
| Instances.Instance.SetAttr | lib/__init__.py:323-337 | the instance becomes what `Set` gives, or stays as it was when the assignment fails |
| Instances.Instance.EscapedAttrRepr | lib/curated_ggb_classes.py:40-45 | the string values of `xml_attrs` are escaped in place, and the result renders the escaped map |
| Instances.Instance.Serialise | lib/__init__.py:197-218 | the text is `xml_repr`'s; on success every instance in the tree is left with escaped attributes, and on error nothing changes |
| Instances.Instance.AddChild | lib/__init__.py:148-149 | the child is appended; nothing else changes |
| Instances.Instance.Len | lib/__init__.py:176-177 | the number of children |
| Instances.Instance.GetItem | lib/__init__.py:179-180 | the child at a Python index, or IndexError exactly when the index is out of range |
| Instances.Instance.SetItem | lib/__init__.py:182-183 | the child at a valid index is replaced and the others stay; an invalid index changes nothing |
| Instances.Instance.DelItem | lib/__init__.py:188-189 | the child at a valid index is removed and the others keep their order; an invalid index changes nothing |
| Instances.Instance.Contains | lib/__init__.py:194-195 | true exactly when some child is structurally equal to the given one (Python compares identity, as `XMLObject` defines no `__eq__`) |
| Render.EscapeAttrsSpec | lib/curated_ggb_classes.py:40-45 | escaping keeps the keys, and every string value is left without special characters |
| Render.EscapeAttrsIdempotent | lib/curated_ggb_classes.py:40-45 | a second escaping pass changes nothing |
| Render.NamespacedAttrsSpec | lib/styling_logic.py:37-42 | succeeds exactly when the namespaced schema key is present; the copy has `xmlns:xsi` set to the schema namespace, `xsi:noNamespaceSchemaLocation` with the old value, no namespaced key, every other key as before, and distinct keys |
| Render.Indent | lib/__init__.py:206 | 4 × indent spaces |
| Render.FieldsNotSerialised | lib/__init__.py:204-218 | plain attributes and roles do not affect the text |
| Render.EmptyContentOmitted | lib/__init__.py:213-214 | with children, an empty-string content is rendered as no content |
| Render.OpeningTag | lib/__init__.py:204-208 | each form starts at its indent with `<` followed by the tag |
| Render.DeclarationIff | lib/__init__.py:197-202 | the text starts with the XML declaration exactly when the class is named GeoGebra |
| Render.EscapedIdempotent | lib/curated_ggb_classes.py:40-45 | escaping a whole tree twice equals escaping it once |
| Render.RenderEscaped | lib/__init__.py:204-218 | serialising the escaped tree gives the same text at every indent |
| Render.XmlReprStable | lib/__init__.py:197-202 | serialising a second time gives the same text, although the first run rewrote the attributes |
| Styling.ToValue | lib/styling_logic.py:110-114 | a layout scalar is stored as the value of the same kind; a list or object is refused |
| Styling.ColorRgb | lib/curated_ggb_classes.py:156-168 | a list of other than three values fails the assertion; a non-list gives 0, 0, 0 |
| Styling.FirstInstance | lib/__init__.py:311-317 | the first child that is an instance of the class, or -1 when there is none |
| Styling.EuclidianViews | lib/styling_logic.py:44-46 | only Euclidian views, and every Euclidian view among the children |
| Styling.HiddenStyle | lib/styling_logic.py:86-94 | 0 exactly for 'invisible', 1 exactly for 'dotted', 2 for anything else |
| Styling.SweepLoop | lib/styling_logic.py:96-100 | the loop over children computes `Sweep` |
| Styling.OverConstructionLoop | lib/styling_logic.py:96-100 | the loop over the construction's children computes `OverConstruction` |
| Styling.StyleViewLoop | lib/styling_logic.py:105-114 | the body of the loop over views, with its loop over axes, computes `StyleView` |
| Styling.ViewStepLoop | lib/styling_logic.py:104-114 | one step of the loop over the root's children computes `ViewStep` |
| Styling.StyleViewsLoop | lib/styling_logic.py:104-114 | the loop over the views computes `Sweep` of `ViewStep` |
| Styling.ElementsOf | lib/styling_logic.py:33 | exactly the children tagged 'element', no more of them than there are children |
| Styling.Elements | lib/styling_logic.py:33 | the elements list exists exactly when `construction` reads as one object; a failing read's error is passed on; the list holds exactly its children tagged 'element' |
| Styling.Document.constructor | lib/styling_logic.py:28-35 | for a root whose construction reads as one object: the tree with its int `format` fixed, an empty layout and an empty palette |
| Styling.Document.Open | lib/styling_logic.py:28-35 | fails exactly when `self.construction` cannot be read or iterated, with that error; otherwise a new document as the constructor builds it |
| Styling.Document.SetBgColor | lib/styling_logic.py:62-67 | the tree becomes the result of the background pass; on error it stays and the error is returned |
| Styling.Document.SetCaptionStyle | lib/styling_logic.py:69-83 | the tree becomes the result of the caption pass; on error it stays |
| Styling.Document.SetHiddenLineStyle | lib/styling_logic.py:85-100 | the tree becomes the result of the hidden-line pass; on error it stays |
| Styling.Document.SetAxesStyle | lib/styling_logic.py:102-114 | the tree becomes the result of the axes pass; on error it stays |
| Styling.Document.ApplyLayout | lib/styling_logic.py:48-54 | the layout is loaded and the palette taken from it (or its error returned); the four passes then run in order and stop at the first error |
| StylingFacts.SweepSpec | lib/styling_logic.py:96-100 | a loop over children succeeds exactly when every step does; then each child is its step's result; otherwise the error is that of the first failing step |
| StylingFacts.LocateGet | lib/__init__.py:301-321 | the place `a.b = …` writes to is where `a.b` reads from, and it fails exactly when the read does |
| StylingFacts.SetThroughReadBack | lib/styling_logic.py:98 | after `o.name.attr = v`, reading `o.name` gives that object with `attr` set; the outer attributes, tag and number of children stay |
| StylingFacts.SetValueFacts | lib/__init__.py:323-337 | assigning a value to a name that is not a role is read back, and every other name reads as before |
| StylingFacts.OverConstructionSpec | lib/styling_logic.py:96-100 | a loop over `self.construction` succeeds exactly when the construction is an object and every step succeeds; the construction then reads back with the new children |
| StylingFacts.FormatFixed | lib/styling_logic.py:30-32 | an int `format` n becomes the string "n.0"; no int `format` is left; other keys and the key order stay; fixing again changes nothing |
| StylingFacts.ParseColorSpec | lib/styling_logic.py:56-60 | a name missing from the palette is a KeyError; a name is resolved through the palette; a list of three scalars gives that colour; a list of other length fails; any other value gives black |
| StylingFacts.BgPassSpec | lib/styling_logic.py:62-67 | every Euclidian view gets `bgColor` set to the one BGColor; other children stay; `euclidianView3D` reads back with the same `bgColor`; the root's attributes and tag stay |
| StylingFacts.HiddenStepSpec | lib/styling_logic.py:97-100 | never fails; a child whose `lineStyle.typeHidden` cannot be assigned stays unchanged; otherwise its `lineStyle` reads back with `typeHidden` set |
| StylingFacts.HiddenPassSpec | lib/styling_logic.py:85-100 | succeeds exactly when the layout has `line_style.hidden_style` and the construction is an object; each construction child is then the result of its step |
| StylingFacts.WithCaptionSpec | lib/styling_logic.py:73-77 | an element with a caption keeps it; on AttributeError a new `Caption` with val '%n' is assigned and read back, and nothing else changes; any other error propagates |
| StylingFacts.CaptionOfSpec | lib/styling_logic.py:72-83 | the caption's `val` is set to the caption text built from the old value by `strip_tex` as written |
| StylingFacts.CaptionPassOk | lib/styling_logic.py:69-83 | the caption pass succeeds exactly when the construction is an object and every element in it is styled |
| StylingFacts.CaptionPassSpec | lib/styling_logic.py:69-83 | each element becomes its styled form, with the text from `strip_tex` as written, and every other construction child stays |
| StylingFacts.AxisFlagsOk | lib/styling_logic.py:113-114 | the last two axis assignments succeed exactly when `show_numbers` and `positive_axis_only` are scalars |
| StylingFacts.AxisFlagsSpec | lib/styling_logic.py:113-114 | `showNumbers` and `positiveAxisOnly` read back as the layout's values; `show` and `tickStyle` stay |
| StylingFacts.StyleAxisOk | lib/styling_logic.py:109-114 | one axis is styled exactly when the layout has `show_ticks` and scalar `show_numbers` and `positive_axis_only` |
| StylingFacts.StyleAxisSpec | lib/styling_logic.py:109-114 | `show` reads back; `tickStyle` becomes 0 exactly when `show_ticks` is falsy and otherwise stays; `showNumbers` and `positiveAxisOnly` read back |
| StylingFacts.View3DIndexSpec | lib/styling_logic.py:106 | `ev is self.euclidianView3D` is decided by the position `self.euclidianView3D` reads from |
| StylingFacts.StyleViewPalette | lib/styling_logic.py:106-107 | the 3D view's styling does not consult the palette |
| StylingFacts.StyleViewSteps | lib/styling_logic.py:105-107 | when a view is styled, `axes.show` is a scalar and `settings.axes` is written; a view other than the 3D one also gets an `axesColor` from a colour the palette resolves |
| StylingFacts.StyleViewSpec | lib/styling_logic.py:108-114 | after those two assignments, each `Axis` child of the view is styled by `StyleAxis` and every other child stays |
| StylingFacts.AxesPassOk | lib/styling_logic.py:102-114 | the axes pass succeeds exactly when every Euclidian view is styled |
| StylingFacts.AxesPassSpec | lib/styling_logic.py:102-114 | each Euclidian view becomes its styled form; every other child and the rest of the root stay |
| Tex.FirstClose | lib/styling_logic.py:125-134 | the first `}` at which the brace depth reaches -1, with the depth non-negative before it; None exactly when the depth never does |
| Tex.ScanClose | lib/styling_logic.py:125-134 | the counting loop finds that index, or 0 when there is none |
| Tex.BalancedCloses | lib/styling_logic.py:125-134 | after a balanced text, the next `}` is the closing one |
| Tex.StripTexCmd | lib/styling_logic.py:118-136 | as written: unchanged when the tag word is absent; each round shortens the string; the result no longer contains the tag word |
| Tex.StripCmd | lib/styling_logic.py:118-136 | the recursive method computes `StripTexCmd` |
| Tex.UndollarWrap | lib/styling_logic.py:142-143 | wrapping a text in `$…$` and removing the `$`s gives the text back |
| Tex.StripTex | lib/styling_logic.py:138-144 | a text not wrapped in `$` is unchanged; otherwise the `$`s are removed and `boldsymbol` stripped |
| Tex.StripTexBold | lib/styling_logic.py:138-144 | `$\boldsymbol{foo}$` gives `foo` |
| Tex.StripTexNested | lib/styling_logic.py:125-135 | `$\boldsymbol{a{b}c}$` gives `a{b}c`: inner braces are kept |
| Tex.BareTagErased | lib/styling_logic.py:120-124 | as written, `$boldsymbol$` gives the empty string |
| Tex.PrefixDropped | lib/styling_logic.py:122-124 | as written, `$a\boldsymbol{b}$` gives `b` |
| Tex.UnclosedLosesChar | lib/styling_logic.py:126-135 | as written, `$\boldsymbol{ab$` gives `b` |
| Tex.StripTexCmdFixed | lib/styling_logic.py:118-136 | corrected: unchanged when `\tag{` is absent; the result never contains `\tag{` |
| Tex.StripTexFixed | lib/styling_logic.py:138-144 | corrected `strip_tex`, with the same `$` handling |
| Tex.FixedUnwrap | lib/styling_logic.py:118-136 | corrected: `\tag{x}` with balanced x gives exactly x |
| Tex.FixedBold | lib/styling_logic.py:138-144 | corrected: `$\boldsymbol{foo}$` gives `foo` |
| Tex.FixedNested | lib/styling_logic.py:125-135 | corrected: `$\boldsymbol{a{b}c}$` gives `a{b}c` |
| Tex.FixedBareTagKept | lib/styling_logic.py:120-124 | corrected: `$boldsymbol$` gives `boldsymbol` |
| Tex.FixedPrefixKept | lib/styling_logic.py:122-124 | corrected: `$a\boldsymbol{b}$` gives `ab` |
| Tex.FixedUnclosed | lib/styling_logic.py:126-135 | corrected: `$\boldsymbol{ab$` gives `ab` |
| Tex.AsWrittenUnwrap | lib/styling_logic.py:118-136 | as written: `\tag{x}` gives exactly x when x balances and does not hold the tag word |
| Tex.CaptionText | lib/styling_logic.py:78-82 | the old caption through `strip_tex` as written; with tex on it is wrapped in `$…$`, with `\boldsymbol{…}` inside when bold is on |
| Tex.CaptionStable | lib/styling_logic.py:69-83 | with tex on, a second run changes nothing when the stripped text does not hold the word `boldsymbol` and, with bold on, its braces balance |
| Tex.CaptionStableNoBold | lib/styling_logic.py:69-83 | with tex on and bold off, a second run on a `$`-wrapped caption changes nothing |
| Tex.CaptionUnbalanced | lib/styling_logic.py:78-82 | with bold on, the caption `{` becomes `$\boldsymbol{{}$` and a second run changes it to `$\boldsymbol{}}$` |
| Tex.CaptionTextFixed | lib/styling_logic.py:78-82 | corrected: the same caption text over the corrected `strip_tex` |
| Tex.CaptionFixedStable | lib/styling_logic.py:69-83 | corrected: a second run changes nothing when the stripped text holds no `\boldsymbol{` and, with bold on, balances |
| Tex.CaptionTextsDiffer | lib/styling_logic.py:78 | with tex off, `$a\boldsymbol{b}$` becomes `b` as written and `ab` corrected |
| Extractor.MergeLookup | lib/ggb_class_extractor.py:22-28 | merging a subtree's table gives each tag both sides combined, and keys stay distinct |
| Extractor.SurveyKeys | lib/ggb_class_extractor.py:19-29 | one entry per distinct tag of the subtree |
| Extractor.AttrDictFirst | lib/ggb_class_extractor.py:19-29 | each tag of the subtree has exactly one entry; an attribute is present exactly when some node with that tag has it, and its value is the first such node's, in pre-order |
| Extractor.AddAttribsLeftWins | lib/ggb_class_extractor.py:24-26 | an attribute already found is never overwritten |
| Extractor.MergeFirst | lib/ggb_class_extractor.py:22-28 | after a merge each attribute holds the earlier value if there was one, else the later |
| Extractor.SurveyFirst | lib/ggb_class_extractor.py:19-29 | the recursive survey holds the first value found searching the tree |
| Extractor.AddMissingAttribs | lib/ggb_class_extractor.py:24-26 | the loop adds exactly the missing attributes |
| Extractor.MergeAttrDict | lib/ggb_class_extractor.py:22-28 | the loop over a subtree's table computes the merge |
| Extractor.AttrDictFromNode | lib/ggb_class_extractor.py:19-29 | the recursive procedure computes the survey of attributes |
| Extractor.OnceSpec | lib/ggb_class_extractor.py:33 | the filter keeps exactly the tags that occur once, in child order |
| Extractor.ChildTagsFromXmlElementSpec | lib/ggb_class_extractor.py:31-34 | one entry under the element's tag, listing its direct-child tags that occur exactly once, in order and without duplicates |
| Extractor.AppendMissingSpec | lib/ggb_class_extractor.py:41-43 | existing tags stay in front; the result holds exactly the tags of both lists; no duplicates are added |
| Extractor.MergeKeepsFront | lib/ggb_class_extractor.py:41-43 | a merge only appends to a tag's list |
| Extractor.MergeTagsListed | lib/ggb_class_extractor.py:39-45 | after a merge a tag lists a child tag exactly when either side did |
| Extractor.MergeTagsNoDup | lib/ggb_class_extractor.py:39-45 | a merge of duplicate-free lists is duplicate-free |
| Extractor.ChildTagsNoDup | lib/ggb_class_extractor.py:36-46 | no list of the child-tag table contains duplicates |
| Extractor.ChildTagsListed | lib/ggb_class_extractor.py:36-46 | a tag lists x exactly when some node with that tag has exactly one child tagged x |
| Extractor.OwnTagsFirst | lib/ggb_class_extractor.py:36-46 | the root's own unique child tags come first in its list, in order |
| Extractor.AppendMissingTags | lib/ggb_class_extractor.py:41-43 | the appending loop computes `AppendMissing` |
| Extractor.MergeChildTags | lib/ggb_class_extractor.py:39-45 | the loop over a subtree's table computes the merge |
| Extractor.ChildTagsFromNode | lib/ggb_class_extractor.py:36-46 | the recursive procedure computes the child-tag survey |
| ClassGen.WithoutLookup | lib/ggb_class_extractor.py:73-74 | skipping a tag loses exactly that key |
| ClassGen.TagAttrTable | lib/ggb_class_extractor.py:72-78 | the attribute table is the survey without 'element' |
| ClassGen.TagChildTable | lib/ggb_class_extractor.py:80-84 | the child-tag table is the survey itself |
| ClassGen.GetChildTagsAsWritten | lib/ggb_class_extractor.py:93-97 | as written, every tag has no child tags |
| ClassGen.CompareAsWritten | lib/ggb_class_extractor.py:100-110 | as written, every pair compares equal |
| ClassGen.GetChildTagsOnTree | lib/ggb_class_extractor.py:93-97 | corrected: a tag's child tags are exactly those some node with that tag has once, without duplicates |
| ClassGen.CompareOnTree | lib/ggb_class_extractor.py:100-110 | corrected: 1 exactly when the first tag is a listed child of the second, -1 exactly when only the reverse holds, and antisymmetric otherwise |
| ClassGen.ChildTagsFinding | lib/ggb_class_extractor.py:93-97 | on the table {construction: [expression]} the code gives [] and compare 0, where the corrected lookup gives [expression] and compare 1 |
| ClassGen.SortPermutes | lib/ggb_class_extractor.py:112-113 | sorting is a permutation |
| ClassGen.SortLookup | lib/ggb_class_extractor.py:112-114 | after sorting, every tag still maps to its own attributes and keys stay distinct |
| ClassGen.SortAsWrittenKeepsOrder | lib/ggb_class_extractor.py:112-114 | as written, the stable sort keeps the survey order |
| ClassGen.InsertAscending | lib/ggb_class_extractor.py:99-113 | inserting into a list in which no entry compares below its predecessor keeps that property |
| ClassGen.SortAscending | lib/ggb_class_extractor.py:99-113 | corrected: in the sorted list no entry compares below the one before it, so no tag is directly followed by a tag that lists it as a child unless it lists that tag too |
| ClassGen.SortParentFirst | lib/ggb_class_extractor.py:99-114 | corrected: with `construction` listing `expression` as child, `construction` is sorted before `expression` |
| ClassGen.QuoteRoundTrip | lib/ggb_class_extractor.py:127-128 | removing the quotes and restoring newlines gives back any value not already containing `&#xa;` |
| ClassGen.QuoteCollides | lib/ggb_class_extractor.py:127-128 | a newline and a literal `&#xa;` quote alike |
| ClassGen.QuoteShape | lib/ggb_class_extractor.py:127-128 | a quoted value starts and ends with `"` and holds no newline |
| ClassGen.QuoteValues | lib/ggb_class_extractor.py:126-128 | every attribute value of the table is quoted, keys kept |
| ClassGen.CallsAgree | lib/ggb_class_extractor.py:134-144 | the declaration as written and as intended differ exactly for a class without attributes, with child tags, whose tag changes when capitalised |
| ClassGen.CallSwapFinding | lib/ggb_class_extractor.py:141-142 | for `construction` with child tag `expression`, the code declares class name `construction` with tag `Construction` |
| ClassGen.GenerateCode | lib/ggb_class_extractor.py:117-144 | the generation loop emits one declaration per entry, skipping 'geogebra' |
| ClassGen.ExtractClasses | lib/ggb_class_extractor.py:69-144 | the whole extraction on a tree computes the corrected declarations |
| ClassGen.IntendedEntries | lib/ggb_class_extractor.py:72-120 | corrected: one entry per tag of the tree other than 'element' and 'geogebra', with that tag's surveyed attributes |
| ClassGen.IntendedCode | lib/ggb_class_extractor.py:112-144 | corrected: one declaration per such tag, named by the capitalised tag, with its quoted attributes (none when empty) and its child tags; no tag is declared twice |
| ClassGen.AsWrittenCode | lib/ggb_class_extractor.py:72-144 | as written: the declarations follow the survey order, each with capitalised name, the tag and its quoted attributes, and never any children |

## Left out

- Json.ConvertRoundTrip: not promised for a dict with a key named `attr_dict`. `load_dict` overwrites the raw-dict attribute with that entry (`Json.AttrDictCollision`), so the raw dict cannot be recovered.
- Json.DictObjectFields: not promised for a dict with a key named `attr_dict`. That entry replaces the raw dict in place instead of following it.
- Json.RawDictField: not promised for a dict with a key named `attr_dict`. The attribute then holds that entry's converted value.
- Reading and writing files: `XMLObject.load_xml` and `save`, `JSONObject.load_json` and `save`, and the JSON file read by `apply_layout`. `Json.LoadJson` and `Styling.Document.ApplyLayout` take the parsed dict.
- The command-line script, zip extraction and repacking, `os.rename`, `shutil.rmtree` and `exec` of generated code. These are I/O and orchestration.
- The `&#x8;` replacement in the file text (lib/ggb_class_extractor.py:62): it works on the raw file before parsing. The extractor takes the parsed tree.
- ElementTree parsing: the model takes a tree of tag, ordered attributes, text and children.
- lib/xsd_class_extractor.py is not part of this model: it is unfinished and reads a schema file at import time.
- Floating point: a float is its canonical decimal text. Exponent and underscore literals, `inf`/`nan`, rounding of long decimals and `repr` in exponent notation are not modelled.
- Whitespace, lowercasing and capitalising are ASCII only. Python's Unicode tables are not modelled.
- `sys.setrecursionlimit(100)`: the model has no recursion limit.
- The `axes`, `x_axis`, `y_axis` and `z_axis` properties of the Euclidian views: their comprehension raises `NameError`, and the styling pass does not use them.
- `JSONObject.indented_repr`: a pretty-printer reached only through `save`.
- Diagnostic `print` calls.
- Names starting with `__`, and assigning `xml_attrs` itself (lib/__init__.py:302-308, 324-327). These go to Python's own attribute machinery, which the model does not have.
- Internal names (`tag`, `content`, `children`) that also occur as XML attribute names: the routing of such a collision through `__setattr__` is not modelled.
- Keyword arguments to the constructors and to `load_dict`: the source's own callers pass none.
- `load_dict`'s copies of the values into the instance dict. A name in `xml_attrs` is always read from `xml_attrs`, so those copies are never observable through `Get`.
- `__missing__` and `__reversed__` (lib/__init__.py:185-192): nothing calls them, and `__reversed__` has a signature Python never calls.
- Objects.Set: assigning an object to an `xml_attrs` entry, or a plain value to a role, is refused with an error. Python would store it; the styling passes never do either.
- Aliasing: `attr_dict_from_node` stores a node's own `attrib` dict in its result and later adds to it. The quoting loop rewrites the table's dicts in place. `set_bg_color` puts one shared BGColor instance in every view. `self.elements` lists the same objects as the construction. The model works on values, so each view holds an equal BGColor and the caption pass reaches the elements through the construction.
- Partial updates when a pass raises: in Python, the assignments a pass made before the exception stay. The model keeps the tree as it was before a failing pass.
- The replay of all of lib/curated_ggb_classes.py's roughly 110 registrations as one straight-line run. The last-write-wins laws are proved for any sequence, and the line-style and element-class sections are replayed literally.
- `create_element_class` writes the type into its `attrs` argument: the class table holds that `type` default directly.
- Registry.ClassTag: requires a non-empty name or tag, because `camel_case('')` raises IndexError.
- Strings.CamelCase: requires a non-empty name, for the same reason.
- Non-scalar layout values (lists or objects where a flag is read) are refused by `Styling.ToValue`, where Python would store them.
- The generated declarations are `Call` records (variable, class name, tag, quoted attributes, child tags), not the source text that `format` builds.
- ClassGen.Sort: the comment at lib/ggb_class_extractor.py:99 promises an order by dependency, and the model does not prove one. With the corrected lookup, `compare` puts a parent before its child tags (`ClassGen.SortParentFirst`), so a class would be named before the classes of its children are declared. A comparison sort with this comparator does not give a dependency order in general, because the comparator is not transitive. Only the adjacent-pair property `ClassGen.SortAscending` is proved.
- Styling.Elements: a `construction` that reads as a plain value is refused with an error. Python would iterate a string value character by character. A worksheet's `construction` is always a child element.
- Sorting with the corrected comparator is a stable insertion sort. The order Timsort produces under a comparator that is not a total order is not modelled.
- The `update` branch of lib/ggb_class_extractor.py:78 and the `list(set(…))` branch of line 84 cannot run, because the survey's keys are distinct. The model proves these branches dead.

## Findings

| source | as written | input that shows it | evidently intended | confidence | as-written member | corrected member |
|---|---|---|---|---|---|---|
| lib/styling_logic.py:120-124 | the guard tests for the bare tag word; when `\tag{` is absent, `find` returns -1 and the slice still cuts `len(tag)+1` characters | `strip_tex("$boldsymbol$")` gives "" | text without the command is returned unchanged | not executed | Tex.BareTagErased | Tex.FixedBareTagKept |
| lib/styling_logic.py:122-124 | the slice keeps only the text after `\tag{`, dropping everything before the command | `strip_tex("$a\boldsymbol{b}$")` gives "b" | "ab" | not executed | Tex.PrefixDropped | Tex.FixedPrefixKept |
| lib/styling_logic.py:126-135 | when no brace closes the command, `close_brace_index` stays 0 and the first character of the argument is deleted | `strip_tex("$\boldsymbol{ab$")` gives "b" | "ab" | not executed | Tex.UnclosedLosesChar | Tex.FixedUnclosed |
| lib/ggb_class_extractor.py:93-97 | `get_child_tags` reads the unbound name `tag2`; the bare `except` turns the NameError into [] | with the table {construction: [expression]}, `get_child_tags('construction')` is [] and `compare` is 0 for every pair | return the table's list for `tag` | not executed | ClassGen.ChildTagsFinding | ClassGen.GetChildTagsOnTree |
| lib/ggb_class_extractor.py:142 | the branch without attributes but with children passes `tag` as the class name and `tag_cap` as the tag | `construction` with child tag `expression` is declared as `create_ggb_class('construction', tag='Construction', …)` | class name `tag_cap` and tag `tag`, as in the other branches | not executed | ClassGen.CallSwapFinding | ClassGen.IntendedCode |

The caption pass uses `strip_tex` as written (`Tex.CaptionText`); the caption text over the corrected `strip_tex` is `Tex.CaptionTextFixed`, and `Tex.CaptionTextsDiffer` shows an input on which the two differ. The branch at line 142 cannot run as written, because `get_child_tags` always gives [] (`ClassGen.AsWrittenCode`). It is reached once `get_child_tags` is corrected, and the corrected extraction (`ClassGen.ExtractClasses`) uses the intended argument order.
