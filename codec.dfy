/** The typed-value codec of lib/__init__.py: `XMLObject.parse_string`, which
    turns attribute and element text into Python values, and `attr_repr_of`,
    which renders an attribute map back into ` key="value"` text. */
module Codec {
  import opened Wrappers
  import opened Strings

  /** A Python value stored in `xml_attrs`. A float is carried by its `repr`
      text (for the floats the codec produces, the canonical decimal). */
  datatype Value =
    | VNone
    | VBool(b: bool)
    | VInt(i: int)
    | VFloat(repr: string)
    | VStr(s: string)

  /** The pieces of a decimal literal accepted by Python's `float()`:
      an optional sign, digits, an optional point and more digits. */
  datatype Decimal = Decimal(negative: bool, whole: string, frac: string)

  /** `float(s)` on decimal literals, after Python's own whitespace strip.
      None where `float()` raises or where the literal has no finite
      decimal reading (`inf`, `nan`), which `parse_string` treats alike. */
  function ParseDecimal(s: string): (r: Option<Decimal>)
    ensures r.Some? ==> AllDigits(r.value.whole) && AllDigits(r.value.frac)
  {
    var t := Strip(s);
    if t != [] && (t[0] == '-' || t[0] == '+') then DecimalBody(t[0] == '-', t[1..])
    else DecimalBody(false, t)
  }

  /** The unsigned part of a decimal literal: digits, or digits, a point and
      digits with at least one digit in all. */
  function DecimalBody(negative: bool, body: string): (r: Option<Decimal>)
    ensures r.Some? ==> AllDigits(r.value.whole) && AllDigits(r.value.frac)
  {
    var p := IndexOf(body, '.');
    if p < 0 then
      if body != [] && AllDigits(body) then Some(Decimal(negative, body, "")) else None
    else if AllDigits(body[..p]) && AllDigits(body[p + 1..]) && |body| > 1 then
      Some(Decimal(negative, body[..p], body[p + 1..]))
    else None
  }

  predicate AllZeros(s: string)
  {
    forall i :: 0 <= i < |s| ==> s[i] == '0'
  }

  function TrimLeadingZeros(s: string): (r: string)
    ensures r == [] || r[0] != '0'
    ensures AllDigits(s) ==> AllDigits(r)
  {
    if s != [] && s[0] == '0' then TrimLeadingZeros(s[1..]) else s
  }

  function TrimTrailingZeros(s: string): (r: string)
    ensures r == [] || r[|r| - 1] != '0'
    ensures AllDigits(s) ==> AllDigits(r)
    ensures AllZeros(s) <==> r == []
  {
    if s != [] && s[|s| - 1] == '0' then TrimTrailingZeros(s[..|s| - 1]) else s
  }

  /** `repr(float(text))` for a decimal whose fraction is not all zeros. */
  function FloatRepr(d: Decimal): string
    requires AllDigits(d.whole) && AllDigits(d.frac)
  {
    var w := TrimLeadingZeros(d.whole);
    (if d.negative then "-" else "") + (if w == [] then "0" else w) + "." + TrimTrailingZeros(d.frac)
  }

  /** `parse_string(s)` for a string `s`. */
  function ParseString(s: string): (r: Value)
    ensures r != VNone
    ensures r.VInt? || r.VFloat? <==> ParseDecimal(s).Some?
    ensures r.VInt? <==> ParseDecimal(s).Some? && AllZeros(ParseDecimal(s).value.frac)
    ensures r.VBool? ==> (s == "true" || s == "True" || s == "false" || s == "False")
    ensures r.VBool? ==> (r.b <==> (s == "true" || s == "True"))
    ensures r.VStr? ==> r.s == Strip(s)
  {
    match ParseDecimal(s)
    case Some(d) =>
      if AllZeros(d.frac) then
        var n: int := DigitsValue(d.whole);
        VInt(if d.negative then -n else n)
      else VFloat(FloatRepr(d))
    case None =>
      if s == "true" || s == "True" then VBool(true)
      else if s == "false" || s == "False" then VBool(false)
      else VStr(Strip(s))
  }

  /** `parse_string(node.text)`: ElementTree gives None for an element
      without text, and `parse_string` hands a non-string back unchanged. */
  function ParseText(text: Option<string>): (r: Value)
    ensures text.None? <==> r == VNone
  {
    match text
    case None => VNone
    case Some(s) => ParseString(s)
  }

  /** `str(v)` for the values the codec holds. */
  function PyStr(v: Value): string
  {
    match v
    case VNone => "None"
    case VBool(b) => if b then "True" else "False"
    case VInt(n) => IntRepr(n)
    case VFloat(t) => t
    case VStr(s) => s
  }

  /** One character of `repr` of a string quoted with `q`. */
  function ReprChar(c: char, q: char): string
  {
    if c == '\\' then "\\\\"
    else if c == q then ['\\', q]
    else if c == '\n' then "\\n"
    else if c == '\r' then "\\r"
    else if c == '\t' then "\\t"
    else if c as int < 32 || 127 <= c as int < 160 then
      var hex := "0123456789abcdef";
      ['\\', 'x', hex[c as int / 16], hex[c as int % 16]]
    else [c]
  }

  function ReprChars(s: string, q: char): string
  {
    if s == [] then [] else ReprChar(s[0], q) + ReprChars(s[1..], q)
  }

  /** `repr(v)`: strings are quoted with ' unless they hold a ' and no ". */
  function PyRepr(v: Value): string
  {
    match v
    case VStr(s) =>
      var q := if '\'' in s && '"' !in s then '"' else '\'';
      [q] + ReprChars(s, q) + [q]
    case _ => PyStr(v)
  }

  /** The text `attr_repr_of` writes between the quotes: a string verbatim,
      a bool lowercased, anything else through `repr`. */
  function AttrText(v: Value): string
  {
    match v
    case VStr(s) => s
    case VBool(b) => if b then "true" else "false"
    case _ => PyRepr(v)
  }

  /** Attribute keys are written with every '_' turned into ':'. */
  function KeyRepr(key: string): string
  {
    Replace(key, '_', ":")
  }

  /** What one entry of the map contributes: nothing for None. */
  function AttrEntry(key: string, v: Value): string
  {
    if v == VNone then "" else " " + KeyRepr(key) + "=\"" + AttrText(v) + "\""
  }

  type Attrs = seq<(string, Value)>

  /** `XMLObject.attr_repr_of`: the entries in map order. */
  function AttrReprOf(attrs: Attrs): string
  {
    if attrs == [] then ""
    else AttrReprOf(attrs[..|attrs| - 1]) + AttrEntry(attrs[|attrs| - 1].0, attrs[|attrs| - 1].1)
  }

  /** The accumulating loop of `attr_repr_of`. */
  method RenderAttrs(attrs: Attrs) returns (s: string)
    ensures s == AttrReprOf(attrs)
  {
    s := "";
    if |attrs| == 0 {
      return;
    }
    var i := 0;
    while i < |attrs|
      invariant 0 <= i <= |attrs|
      invariant s == AttrReprOf(attrs[..i])
    {
      var key, value := attrs[i].0, attrs[i].1;
      AttrReprOfSnoc(attrs, i);
      if value != VNone {
        s := s + AttrEntry(key, value);
      }
      i := i + 1;
    }
    assert attrs[..i] == attrs;
  }

  lemma AttrReprOfSnoc(attrs: Attrs, i: nat)
    requires i < |attrs|
    ensures AttrReprOf(attrs[..i + 1]) == AttrReprOf(attrs[..i]) + AttrEntry(attrs[i].0, attrs[i].1)
  {
    assert attrs[..i + 1][..i] == attrs[..i];
  }

  /** The rendering is empty exactly when every value is None. */
  lemma {:induction false} AttrReprOfEmpty(attrs: Attrs)
    ensures AttrReprOf(attrs) == "" <==> forall i :: 0 <= i < |attrs| ==> attrs[i].1 == VNone
  {
    if attrs != [] {
      var init := attrs[..|attrs| - 1];
      AttrReprOfEmpty(init);
      assert forall i :: 0 <= i < |init| ==> init[i] == attrs[i];
    }
  }

  /** A non-empty rendering starts with the space before its first key. */
  lemma {:induction false} AttrReprOfLeadingSpace(attrs: Attrs)
    ensures AttrReprOf(attrs) == "" || AttrReprOf(attrs)[0] == ' '
  {
    if attrs != [] {
      AttrReprOfLeadingSpace(attrs[..|attrs| - 1]);
    }
  }

  /** A single entry renders as ` key="value"` with '_' in the key turned to ':'. */
  lemma SingleAttr(key: string, v: Value)
    requires v != VNone
    ensures AttrReprOf([(key, v)]) == " " + KeyRepr(key) + "=\"" + AttrText(v) + "\""
  {
    assert [(key, v)][..0] == [];
  }

  // ---- round trips of the codec ----

  lemma NoPointInDigits(s: string)
    requires AllDigits(s)
    ensures IndexOf(s, '.') == -1
  {
    assert '.' !in s by {
      forall j | 0 <= j < |s| ensures s[j] != '.' {
        assert IsDigit(s[j]);
      }
    }
  }

  lemma DigitsStripped(s: string)
    requires AllDigits(s)
    ensures Strip(s) == s
  {
    if s != [] {
      assert IsDigit(s[0]) && IsDigit(s[|s| - 1]);
    }
    StripStripped(s);
  }

  lemma DigitsBody(negative: bool, r: string)
    requires r != [] && AllDigits(r)
    ensures DecimalBody(negative, r) == Some(Decimal(negative, r, ""))
  {
    NoPointInDigits(r);
  }

  lemma ParseDecimalOfNat(n: nat)
    ensures ParseDecimal(NatRepr(n)) == Some(Decimal(false, NatRepr(n), ""))
  {
    var r := NatRepr(n);
    DigitsStripped(r);
    assert Strip(r) == r;
    assert IsDigit(r[0]);
    assert r[0] != '-' && r[0] != '+';
    DigitsBody(false, r);
    assert DecimalBody(false, r) == Some(Decimal(false, r, ""));
  }

  lemma ParseDecimalOfNegative(n: nat)
    requires n > 0
    ensures ParseDecimal("-" + NatRepr(n)) == Some(Decimal(true, NatRepr(n), ""))
  {
    var r := NatRepr(n);
    var t := "-" + r;
    assert IsDigit(r[|r| - 1]);
    assert t[|t| - 1] == r[|r| - 1];
    StripStripped(t);
    assert t[1..] == r;
    DigitsBody(true, r);
  }

  /** An int written by `repr` reads back as the same int. */
  lemma IntRoundTrip(n: int)
    ensures ParseString(AttrText(VInt(n))) == VInt(n)
  {
    if n >= 0 {
      ParseDecimalOfNat(n);
      NatReprValue(n);
    } else {
      ParseDecimalOfNegative(-n);
      NatReprValue(-n);
    }
  }

  lemma BoolRoundTrip(b: bool)
    ensures ParseString(AttrText(VBool(b))) == VBool(b)
  {
    var w := if b then "true" else "false";
    assert !IsDigit(w[0]) && w[0] != '-' && w[0] != '+';
    StripStripped(w);
    assert ParseDecimal(w) == None;
  }

  /** A stripped string that is neither a decimal nor one of the four boolean
      spellings reads back as itself. */
  lemma StrRoundTrip(s: string)
    requires Stripped(s) && ParseDecimal(s).None?
    requires s != "true" && s != "True" && s != "false" && s != "False"
    ensures ParseString(AttrText(VStr(s))) == VStr(s)
  {
    StripStripped(s);
  }

  /** "3" and "3.0" (and "3.00", "3.") all read as the int 3. */
  lemma IntegralCollapse(n: nat, zeros: nat)
    ensures ParseString(NatRepr(n) + "." + Zeros(zeros)) == VInt(n)
  {
    var r := NatRepr(n);
    var t := r + "." + Zeros(zeros);
    PointAfterDigits(r, Zeros(zeros));
    assert ParseDecimal(t) == Some(Decimal(false, r, Zeros(zeros))) by {
      assert IsDigit(r[0]);
      assert t[0] == r[0];
      assert t[|t| - 1] == '0' || t[|t| - 1] == '.';
      StripStripped(t);
    }
    NatReprValue(n);
  }

  /** digits "." digits is a decimal body with those two parts. */
  lemma PointAfterDigits(whole: string, frac: string)
    requires whole != [] && AllDigits(whole) && AllDigits(frac)
    ensures DecimalBody(false, whole + "." + frac) == Some(Decimal(false, whole, frac))
  {
    var t := whole + "." + frac;
    NoPointInDigits(whole);
    var k := IndexOf(t, '.');
    assert t[|whole|] == '.';
    assert t[..|whole|] == whole;
    assert forall j :: 0 <= j < |whole| ==> t[j] == whole[j];
    assert k == |whole|;
    assert t[|whole| + 1..] == frac;
  }

  function Zeros(k: nat): (r: string)
    ensures |r| == k && AllZeros(r) && AllDigits(r)
  {
    if k == 0 then "" else "0" + Zeros(k - 1)
  }

  lemma ThreeExamples()
    ensures ParseString("3") == VInt(3)
    ensures ParseString("3.0") == VInt(3)
  {
    IntegralCollapse(3, 0);
    IntegralCollapse(3, 1);
    assert NatRepr(3) + "." + Zeros(0) == "3.";
    assert NatRepr(3) + "." + Zeros(1) == "3.0";
    IntRoundTrip(3);
  }

  /** Only the exact spellings are booleans: "TRUE" stays a string. */
  lemma BooleanSpellings()
    ensures ParseString("True") == VBool(true)
    ensures ParseString("False") == VBool(false)
    ensures ParseString("TRUE") == VStr("TRUE")
  {
    NotDecimal("True");
    NotDecimal("False");
    NotDecimal("TRUE");
    StripStripped("TRUE");
  }

  lemma NotDecimal(w: string)
    requires w != [] && !IsDigit(w[0]) && w[0] != '-' && w[0] != '+' && w[0] != '.' && !IsSpace(w[0])
    requires !IsSpace(w[|w| - 1])
    ensures ParseDecimal(w) == None
  {
    StripStripped(w);
    var p := IndexOf(w, '.');
    if p > 0 {
      assert w[..p][0] == w[0];
    }
  }

  /** Booleans are recognised before stripping, so " true" stays a string. */
  lemma PaddedTrueIsString()
    ensures ParseString(" true") == VStr("true")
  {
    assert " true"[1..] == "true";
    assert LStrip(" true") == LStrip("true");
    StripStripped("true");
    assert Strip(" true") == "true";
    NotDecimal("true");
  }
}
