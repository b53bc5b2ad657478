/** Colour handling of the lookup engine (app.py:42-79): a cell's
    `backgroundColor` record `{red, green, blue}` with fractional components is
    turned into an integer triple, which is then classified as blue, yellow or
    neither. */
module Colour {
  import opened Values

  datatype Rgb = Rgb(r: int, g: int, b: int)

  /** The two background colours that mark an available return round. */
  datatype ColorType = Blue | Yellow

  /** Python's `int()` of a float: truncation toward zero. */
  function Trunc(x: real): (n: int)
    ensures 0.0 <= x ==> 0 <= n && n as real <= x < n as real + 1.0
    ensures x < 0.0 ==> n <= 0 && n as real - 1.0 < x <= n as real
  {
    if x >= 0.0 then x.Floor else -((-x).Floor)
  }

  /** Python's `float()` of a decoded value, or None where it raises
      (`TypeError` for None, lists and dictionaries; strings are taken as
      unparseable). */
  function ToFloat(v: Value): (r: Option<real>)
    ensures r.Some? <==> v.VNum? || v.VBool?
    ensures v.VNum? ==> r == Some(v.x)
    ensures v.VBool? ==> r == Some(if v.b then 1.0 else 0.0)
  {
    match v
    case VNum(x, _) => Some(x)
    case VBool(b) => Some(if b then 1.0 else 0.0)
    case _ => None
  }

  /** `int(float(color_data.get(key, 0)) * 255)`, or None where it raises. */
  function Component(entries: seq<(string, Value)>, key: string): Option<int> {
    match ToFloat(GetOr(entries, key, VNum(0.0, "0")))
    case Some(x) => Some(Trunc(x * 255.0))
    case None => None
  }

  /** The component under `key` can be read: absent, or a number or a boolean. */
  predicate Readable(entries: seq<(string, Value)>, key: string) {
    match Get(entries, key)
    case None => true
    case Some(v) => v.VNum? || v.VBool?
  }

  /** The component `key` of a readable record, on the 0..255 scale. */
  ghost function Scaled(entries: seq<(string, Value)>, key: string): int {
    match Get(entries, key)
    case None => 0
    case Some(v) => if v.VNum? then Trunc(v.x * 255.0) else if v.VBool? && v.b then 255 else 0
  }

  /** normalize_color_to_rgb: a dictionary whose three components are
      readable gives the triple of truncated `x * 255` values, a missing
      component counting as 0; anything else gives None. */
  function NormalizeColorToRgb(c: Value): (r: Option<Rgb>)
    ensures !c.VDict? ==> r == None
    ensures c.VDict? ==>
      (r.Some? <==> Readable(c.entries, "red") && Readable(c.entries, "green") && Readable(c.entries, "blue"))
    ensures r.Some? ==>
      r.value == Rgb(Scaled(c.entries, "red"), Scaled(c.entries, "green"), Scaled(c.entries, "blue"))
  {
    if !c.VDict? then None
    else
      var r := Component(c.entries, "red");
      var g := Component(c.entries, "green");
      var b := Component(c.entries, "blue");
      if r.Some? && g.Some? && b.Some? then Some(Rgb(r.value, g.value, b.value)) else None
  }

  /** A fraction in [0, 1] lands in 0..255, with 0 at 0 and 255 exactly at 1. */
  lemma ScaledFractionInRange(x: real)
    requires 0.0 <= x <= 1.0
    ensures 0 <= Trunc(x * 255.0) <= 255
    ensures Trunc(x * 255.0) == 255 <==> x == 1.0
    ensures x == 0.0 ==> Trunc(x * 255.0) == 0
  {
    if x < 1.0 {
      assert x * 255.0 < 255.0;
    }
  }

  /** A colour record whose three components are fractions in [0, 1] yields a
      triple in 0..255. */
  lemma NormalizeFractionsInRange(c: Value)
    requires c.VDict?
    requires forall key | key in ["red", "green", "blue"] ::
      match Get(c.entries, key)
      case None => true
      case Some(v) => v.VNum? && 0.0 <= v.x <= 1.0
    ensures NormalizeColorToRgb(c).Some?
    ensures var rgb := NormalizeColorToRgb(c).value;
      0 <= rgb.r <= 255 && 0 <= rgb.g <= 255 && 0 <= rgb.b <= 255
  {
    var rgb := NormalizeColorToRgb(c).value;
    assert "red" in ["red", "green", "blue"];
    assert "green" in ["red", "green", "blue"];
    assert "blue" in ["red", "green", "blue"];
    if Get(c.entries, "red").Some? { ScaledFractionInRange(Get(c.entries, "red").value.x); }
    if Get(c.entries, "green").Some? { ScaledFractionInRange(Get(c.entries, "green").value.x); }
    if Get(c.entries, "blue").Some? { ScaledFractionInRange(Get(c.entries, "blue").value.x); }
  }

  predicate IsBlue(c: Rgb) {
    c.b >= 200 && c.g >= 200 && c.r <= 100
  }

  predicate IsYellow(c: Rgb) {
    c.r >= 200 && c.g >= 200 && c.b <= 100
  }

  /** The threshold rule of get_color_type on a normalised triple. Blue is
      tested first, but no triple is both. */
  function Classify(c: Rgb): (t: Option<ColorType>)
    ensures t == Some(Blue) <==> IsBlue(c)
    ensures t == Some(Yellow) <==> IsYellow(c)
    ensures t == None <==> !IsBlue(c) && !IsYellow(c)
  {
    if IsBlue(c) then Some(Blue)
    else if IsYellow(c) then Some(Yellow)
    else None
  }

  /** get_color_type: no normalised colour is no category. */
  function GetColorType(c: Value): (t: Option<ColorType>)
    ensures NormalizeColorToRgb(c).None? ==> t.None?
    ensures !c.VDict? ==> t.None?
    ensures NormalizeColorToRgb(c).Some? ==>
      (t == Some(Blue) <==> IsBlue(NormalizeColorToRgb(c).value)) &&
      (t == Some(Yellow) <==> IsYellow(NormalizeColorToRgb(c).value))
  {
    match NormalizeColorToRgb(c)
    case None => None
    case Some(rgb) => Classify(rgb)
  }

  /** Cyan and yellow are accepted; magenta and green are not. */
  lemma ClassifierBoundaries()
    ensures Classify(Rgb(0, 255, 255)) == Some(Blue)
    ensures Classify(Rgb(255, 255, 0)) == Some(Yellow)
    ensures Classify(Rgb(255, 0, 255)) == None
    ensures Classify(Rgb(0, 255, 0)) == None
    ensures Classify(Rgb(100, 200, 200)) == Some(Blue)
    ensures Classify(Rgb(101, 200, 200)) == None
  {
  }

  /** The fractional record `{red: 1.0, green: 1.0, blue: 0.0}` is yellow. */
  lemma FractionalYellow()
    ensures var c := VDict([("red", VNum(1.0, "1.0")), ("green", VNum(1.0, "1.0")), ("blue", VNum(0.0, "0.0"))]);
      NormalizeColorToRgb(c) == Some(Rgb(255, 255, 0)) && GetColorType(c) == Some(Yellow)
  {
    var c := VDict([("red", VNum(1.0, "1.0")), ("green", VNum(1.0, "1.0")), ("blue", VNum(0.0, "0.0"))]);
    assert Get(c.entries, "red") == Some(VNum(1.0, "1.0"));
    assert Get(c.entries, "green") == Some(VNum(1.0, "1.0"));
    assert Get(c.entries, "blue") == Some(VNum(0.0, "0.0"));
    assert Trunc(1.0 * 255.0) == 255;
  }

  /** The same colour written on the 0..255 scale is scaled by 255 once more:
      the code knows only the fractional convention. */
  lemma WholeNumberScaleNotRecognised()
    ensures var c := VDict([("red", VNum(255.0, "255")), ("green", VNum(255.0, "255")), ("blue", VNum(0.0, "0"))]);
      NormalizeColorToRgb(c) == Some(Rgb(65025, 65025, 0))
  {
    var c := VDict([("red", VNum(255.0, "255")), ("green", VNum(255.0, "255")), ("blue", VNum(0.0, "0"))]);
    assert Get(c.entries, "red") == Some(VNum(255.0, "255"));
    assert Get(c.entries, "green") == Some(VNum(255.0, "255"));
    assert Get(c.entries, "blue") == Some(VNum(0.0, "0"));
    assert Trunc(255.0 * 255.0) == 65025;
  }

  /** A missing component reads as 0: `{red: 1.0, green: 1.0}` is yellow too. */
  lemma MissingComponentIsZero()
    ensures GetColorType(VDict([("red", VNum(1.0, "1.0")), ("green", VNum(1.0, "1.0"))])) == Some(Yellow)
  {
    var c := VDict([("red", VNum(1.0, "1.0")), ("green", VNum(1.0, "1.0"))]);
    assert Get(c.entries, "red") == Some(VNum(1.0, "1.0"));
    assert Get(c.entries, "green") == Some(VNum(1.0, "1.0"));
    assert Get(c.entries, "blue") == None;
    assert Trunc(1.0 * 255.0) == 255;
  }

  /** Any one of red, green and blue that is a string or null makes the
      whole colour unreadable. */
  lemma UnreadableComponent(c: Value, key: string)
    requires key == "red" || key == "green" || key == "blue"
    requires c.VDict? && Get(c.entries, key).Some?
    requires Get(c.entries, key).value.VStr? || Get(c.entries, key).value.VNull?
    ensures NormalizeColorToRgb(c) == None && GetColorType(c) == None
  {
  }
}
