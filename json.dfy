/** The JSON side of lib/__init__.py: `JSONObject.convert_to_object` and
    `load_dict`, which turn the result of `json.load` into objects whose
    attributes are the dict's keys. */
module Json {
  import opened Wrappers
  import opened OrderedMap

  /** The Python values `json.load` produces, plus the `JSONObject`s built
      from them and any other object. A float is carried by its `repr`. */
  datatype PyVal =
    | PNone
    | PBool(b: bool)
    | PInt(i: int)
    | PFloat(repr: string)
    | PStr(s: string)
    | PList(items: seq<PyVal>)
    | PDict(entries: OMap<PyVal>)
    | PObject(fields: OMap<PyVal>)
    | POther

  predicate IsScalar(v: PyVal)
  {
    v.PNone? || v.PBool? || v.PInt? || v.PFloat? || v.PStr?
  }

  /** `JSONObject.convert_to_object(v)` */
  function Convert(v: PyVal): (r: PyVal)
    ensures IsScalar(v) ==> r == v
    ensures v.PList? <==> r.PList?
    ensures v.PList? ==> |r.items| == |v.items|
    ensures v.PDict? <==> r.PObject?
    ensures v.PObject? || v.POther? ==> r == PNone
    decreases v, 1
  {
    match v
    case PList(items) => PList(ConvertList(items, v))
    case PDict(d) => PObject(LoadDict(RawField(d), d, v))
    case PObject(_) => PNone
    case POther => PNone
    case _ => v
  }

  function ConvertList(items: seq<PyVal>, ghost parent: PyVal): (r: seq<PyVal>)
    requires forall i :: 0 <= i < |items| ==> items[i] < parent
    ensures |r| == |items|
    ensures forall i :: 0 <= i < |items| ==> r[i] == Convert(items[i])
    decreases parent, 0, |items|
  {
    if items == [] then [] else ConvertList(items[..|items| - 1], parent) + [Convert(items[|items| - 1])]
  }

  /** `self.attr_dict = attr_dict or None`: the raw dict is kept under the
      key 'attr_dict', or None when it is empty. */
  function RawField(d: OMap<PyVal>): OMap<PyVal>
  {
    [("attr_dict", if d == [] then PNone else PDict(d))]
  }

  /** `load_dict`: `self.__dict__[key] = convert_to_object(value)` for each
      entry in order, on top of the attributes already there. */
  function LoadDict(fields: OMap<PyVal>, d: OMap<PyVal>, ghost parent: PyVal): (r: OMap<PyVal>)
    requires forall i :: 0 <= i < |d| ==> d[i].1 < parent
    decreases parent, 0
  {
    PutAll(fields, ConvertEntries(d, parent))
  }

  /** The entries of a dict with their values converted. */
  function ConvertEntries(d: OMap<PyVal>, ghost parent: PyVal): (r: OMap<PyVal>)
    requires forall i :: 0 <= i < |d| ==> d[i].1 < parent
    ensures |r| == |d|
    decreases parent, 0, |d|
  {
    if d == [] then [] else ConvertEntries(d[..|d| - 1], parent) + [(d[|d| - 1].0, Convert(d[|d| - 1].1))]
  }

  /** `JSONObject(filename=...)` on the dict read from the file: `attr_dict`
      is None and the file's entries follow. */
  function LoadJson(d: OMap<PyVal>): (r: PyVal)
    ensures r.PObject?
  {
    PObject(LoadDict([("attr_dict", PNone)], d, PDict(d)))
  }

  /** `getattr(obj, name)` on a `JSONObject`, AttributeError otherwise. */
  function GetField(obj: PyVal, name: string): (r: Result<PyVal>)
    ensures r.Ok? <==> obj.PObject? && HasKey(obj.fields, name)
  {
    if obj.PObject? then
      match Lookup(obj.fields, name)
      case Some(x) => Ok(x)
      case None => Err(MissingAttribute(name))
    else Err(MissingAttribute(name))
  }

  /** Python truthiness. */
  predicate Truthy(v: PyVal)
  {
    match v
    case PNone => false
    case PBool(b) => b
    case PInt(i) => i != 0
    case PFloat(t) => !IsZeroFloat(t)
    case PStr(s) => s != []
    case PList(items) => items != []
    case PDict(d) => d != []
    case _ => true
  }

  predicate IsZeroFloat(t: string)
  {
    t == "0.0" || t == "-0.0"
  }

  // ---- the round trip ----

  /** What `json.load` can produce (no objects, unique dict keys) without
      a key named 'attr_dict'. Such a key collides with the raw-dict
      attribute, and `AttrDictCollision` shows the round trip failing on it. */
  predicate JsonValue(v: PyVal)
    decreases v
  {
    match v
    case PList(items) => forall i :: 0 <= i < |items| ==> JsonValue(items[i])
    case PDict(d) =>
      Unique(d) && !HasKey(d, "attr_dict") && forall i :: 0 <= i < |d| ==> JsonValue(d[i].1)
    case PObject(_) => false
    case POther => false
    case _ => true
  }

  /** Back from objects to dicts: drop the 'attr_dict' attribute. */
  function ToPlain(v: PyVal): PyVal
    decreases v, 1
  {
    match v
    case PList(items) => PList(PlainList(items, v))
    case PObject(f) =>
      if f != [] && f[0].0 == "attr_dict" then PDict(PlainEntries(f[1..], v)) else PNone
    case _ => v
  }

  function PlainList(items: seq<PyVal>, ghost parent: PyVal): (r: seq<PyVal>)
    requires forall i :: 0 <= i < |items| ==> items[i] < parent
    ensures |r| == |items|
    ensures forall i :: 0 <= i < |items| ==> r[i] == ToPlain(items[i])
    decreases parent, 0, |items|
  {
    if items == [] then [] else PlainList(items[..|items| - 1], parent) + [ToPlain(items[|items| - 1])]
  }

  function PlainEntries(f: OMap<PyVal>, ghost parent: PyVal): (r: OMap<PyVal>)
    requires forall i :: 0 <= i < |f| ==> f[i].1 < parent
    ensures |r| == |f|
    ensures forall i :: 0 <= i < |f| ==> r[i] == (f[i].0, ToPlain(f[i].1))
    decreases parent, 0, |f|
  {
    if f == [] then [] else PlainEntries(f[..|f| - 1], parent) + [(f[|f| - 1].0, ToPlain(f[|f| - 1].1))]
  }

  lemma ConvertEntriesKeys(d: OMap<PyVal>, parent: PyVal)
    requires forall i :: 0 <= i < |d| ==> d[i].1 < parent
    ensures Keys(ConvertEntries(d, parent)) == Keys(d)
  {
    var r := ConvertEntries(d, parent);
    forall i | 0 <= i < |d| ensures Keys(r)[i] == Keys(d)[i] {
      ConvertEntriesAt(d, parent, i);
    }
  }

  lemma {:induction false} ConvertEntriesAt(d: OMap<PyVal>, parent: PyVal, i: nat)
    requires forall i :: 0 <= i < |d| ==> d[i].1 < parent
    requires i < |d|
    ensures ConvertEntries(d, parent)[i] == (d[i].0, Convert(d[i].1))
  {
    if i < |d| - 1 {
      ConvertEntriesAt(d[..|d| - 1], parent, i);
    }
  }

  /** Loading a dict whose keys are all new appends its converted entries. */
  lemma LoadDictFresh(fields: OMap<PyVal>, d: OMap<PyVal>, parent: PyVal)
    requires forall i :: 0 <= i < |d| ==> d[i].1 < parent
    requires Unique(d)
    requires forall i :: 0 <= i < |d| ==> d[i].0 !in Keys(fields)
    ensures LoadDict(fields, d, parent) == fields + ConvertEntries(d, parent)
  {
    var ce := ConvertEntries(d, parent);
    ConvertEntriesKeys(d, parent);
    assert Unique(ce);
    PutAllFresh(fields, ce);
  }

  /** The fields of the object a JSON dict converts to: the raw dict, then
      each entry with its value converted. */
  lemma DictObjectFields(d: OMap<PyVal>)
    requires Unique(d) && !HasKey(d, "attr_dict")
    ensures Convert(PDict(d)).fields == RawField(d) + ConvertEntries(d, PDict(d))
  {
    forall i | 0 <= i < |d|
      ensures d[i].0 !in Keys(RawField(d))
    {
      assert d[i].0 in Keys(d);
    }
    LoadDictFresh(RawField(d), d, PDict(d));
  }

  /** `convert_to_object` is undone by `ToPlain` on everything `json.load`
      returns: dicts become objects and lists stay lists, element by element. */
  lemma {:induction false} ConvertRoundTrip(v: PyVal)
    requires JsonValue(v)
    ensures ToPlain(Convert(v)) == v
    decreases v, 1
  {
    match v
    case PList(items) => ListRoundTrip(items, v);
    case PDict(d) => DictRoundTrip(d, v);
    case _ =>
  }

  lemma {:induction false} ListRoundTrip(items: seq<PyVal>, v: PyVal)
    requires v == PList(items) && JsonValue(v)
    ensures ToPlain(Convert(v)) == v
    decreases v, 0
  {
    var r := ConvertList(items, v);
    assert Convert(v) == PList(r);
    var p := PlainList(r, PList(r));
    forall i | 0 <= i < |items|
      ensures p[i] == items[i]
    {
      ConvertRoundTrip(items[i]);
    }
  }

  lemma {:induction false} DictRoundTrip(d: OMap<PyVal>, v: PyVal)
    requires v == PDict(d) && JsonValue(v)
    ensures ToPlain(Convert(v)) == v
    decreases v, 0
  {
    forall i | 0 <= i < |d|
      ensures ToPlain(Convert(d[i].1)) == d[i].1
    {
      ConvertRoundTrip(d[i].1);
    }
    DictObjectFields(d);
    PlainOfConverted(d, v, Convert(v));
  }

  lemma PlainOfConverted(d: OMap<PyVal>, v: PyVal, o: PyVal)
    requires v == PDict(d)
    requires o.PObject? && o.fields == RawField(d) + ConvertEntries(d, v)
    requires forall i :: 0 <= i < |d| ==> ToPlain(Convert(d[i].1)) == d[i].1
    ensures ToPlain(o) == v
  {
    var ce := ConvertEntries(d, v);
    assert o.fields[1..] == ce;
    var p := PlainEntries(ce, o);
    assert p == d by {
      forall i | 0 <= i < |d|
        ensures p[i] == d[i]
      {
        ConvertEntriesAt(d, v, i);
      }
    }
    assert ToPlain(o) == PDict(p) by {
      assert o.fields[0].0 == "attr_dict";
    }
  }

  /** Each key of a loaded dict reads back as its converted value. This
      holds for a key named 'attr_dict' too, whose entry overwrites the raw
      dict. */
  lemma DictFields(d: OMap<PyVal>, i: nat)
    requires Unique(d) && i < |d|
    ensures GetField(Convert(PDict(d)), d[i].0) == Ok(Convert(d[i].1))
  {
    var ce := ConvertEntries(d, PDict(d));
    ConvertEntriesKeys(d, PDict(d));
    assert Unique(ce);
    ConvertEntriesAt(d, PDict(d), i);
    PutAllLookup(RawField(d), ce, i);
  }

  /** Without a key named 'attr_dict', that attribute holds the raw dict
      (None for an empty one). */
  lemma RawDictField(d: OMap<PyVal>)
    requires Unique(d) && !HasKey(d, "attr_dict")
    ensures GetField(Convert(PDict(d)), "attr_dict") == Ok(if d == [] then PNone else PDict(d))
  {
    var f := Convert(PDict(d)).fields;
    ConvertedUnique(d);
    DictObjectFields(d);
    LookupUnique(f, 0);
  }

  /** The attribute names of a converted dict are distinct, for any dict. */
  lemma ConvertedUnique(d: OMap<PyVal>)
    ensures Unique(Convert(PDict(d)).fields)
  {
    PutAllUnique(RawField(d), ConvertEntries(d, PDict(d)));
  }

  /** A key named 'attr_dict' overwrites the raw dict in place:
      `{"attr_dict": v}` converts to an object whose only attribute is
      `attr_dict`, holding `v` converted, and turning it back gives `{}`
      instead of the input. */
  lemma AttrDictCollision(v: PyVal)
    ensures Convert(PDict([("attr_dict", v)])).fields == [("attr_dict", Convert(v))]
    ensures ToPlain(Convert(PDict([("attr_dict", v)]))) == PDict([])
    ensures PDict([]) != PDict([("attr_dict", v)])
  {
    CollisionFields(v);
    var o := Convert(PDict([("attr_dict", v)]));
    assert o.fields[1..] == [];
    assert PlainEntries(o.fields[1..], o) == [];
  }

  /** The entry for 'attr_dict' replaces the raw dict's entry. */
  lemma CollisionFields(v: PyVal)
    ensures Convert(PDict([("attr_dict", v)])).fields == [("attr_dict", Convert(v))]
  {
    var d := [("attr_dict", v)];
    var raw := RawField(d);
    SingleEntry(d);
    var x := Convert(v);
    assert PutAll(raw, [("attr_dict", x)]) == Put(raw, "attr_dict", x) by {
      assert [("attr_dict", x)][..0] == [];
    }
    PutOverOnly("attr_dict", raw[0].1, x);
  }

  lemma SingleEntry(d: OMap<PyVal>)
    requires |d| == 1
    ensures ConvertEntries(d, PDict(d)) == [(d[0].0, Convert(d[0].1))]
  {
    ConvertEntriesAt(d, PDict(d), 0);
  }

  lemma PutOverOnly(k: string, a: PyVal, b: PyVal)
    ensures Put([(k, a)], k, b) == [(k, b)]
  {
    assert [(k, a)][1..] == [];
  }
}
