/** JSON values, and the value they mean: numbers compare by value whatever
    their spelling, booleans never equal numbers, objects forget key order. */
module Json {

  /** The number `significand / 2^scale` in lowest terms. These are exactly the
      integers and the finite binary floats. */
  datatype Fraction = Fraction(significand: int, scale: nat)

  type Number = x: Fraction | x.scale == 0 || x.significand % 2 != 0 witness Fraction(0, 0)

  function Power(n: nat): (p: nat)
    ensures p >= 1
  {
    if n == 0 then 1 else 2 * Power(n - 1)
  }

  /** Lowest terms are unique: numbers of one value are the same. */
  lemma {:induction false} SameNumber(x: Number, y: Number)
    requires x.significand * Power(y.scale) == y.significand * Power(x.scale)
    ensures x == y
  {
    if x.scale < y.scale {
      HalvesApart(y, x);
    } else if y.scale < x.scale {
      HalvesApart(x, y);
    } else {
      Cancel(x.significand, y.significand, Power(x.scale));
    }
  }

  /** An odd significand keeps its scale. */
  lemma {:induction false} HalvesApart(x: Number, y: Number)
    requires x.scale > y.scale
    ensures x.significand * Power(y.scale) != y.significand * Power(x.scale)
  {
    var p, more := Power(y.scale), Power(x.scale - y.scale - 1);
    PowerSum(y.scale, x.scale - y.scale);
    Regroup(y.significand, more, p);
    if x.significand * p == y.significand * Power(x.scale) { Cancel(x.significand, 2 * (y.significand * more), p); }
  }

  lemma {:induction false} Regroup(s: int, m: int, p: int)
    ensures s * (p * (2 * m)) == (2 * (s * m)) * p
  {
    calc {
      s * (p * (2 * m));
      (s * (2 * m)) * p;
      (2 * (s * m)) * p;
    }
  }

  lemma {:induction false} PowerSum(m: nat, n: nat)
    ensures Power(m + n) == Power(m) * Power(n)
  {
    if n > 0 { PowerSum(m, n - 1); }
  }

  lemma {:induction false} Cancel(a: int, b: int, p: nat)
    requires p >= 1 && a * p == b * p
    ensures a == b
  {
    assert (a - b) * p == 0;
  }

  datatype Value =
    | Null
    | Bool(flag: bool)
    | Int(i: int)
    | Float(x: Number)
    | Str(text: string)
    | Arr(items: seq<Value>)
    | Obj(fields: map<string, Value>)

  datatype Sem =
    | SNull
    | SBool(flag: bool)
    | SNum(number: Number)
    | SStr(text: string)
    | SArr(items: seq<Sem>)
    | SObj(fields: map<string, Sem>)

  /** `_semantic_value` */
  function Semantic(value: Value): Sem {
    match value
    case Null => SNull
    case Bool(flag) => SBool(flag)
    case Int(i) => SNum(Fraction(i, 0))
    case Float(x) => SNum(x)
    case Str(text) => SStr(text)
    case Arr(items) => SArr(seq(|items|, i requires 0 <= i < |items| => Semantic(items[i])))
    case Obj(fields) => SObj(map key | key in fields :: Semantic(fields[key]))
  }

  /** Some value of a given meaning. */
  function Spell(meaning: Sem): Value {
    match meaning
    case SNull => Null
    case SBool(flag) => Bool(flag)
    case SNum(number) => Float(number)
    case SStr(text) => Str(text)
    case SArr(items) => Arr(seq(|items|, i requires 0 <= i < |items| => Spell(items[i])))
    case SObj(fields) => Obj(map key | key in fields :: Spell(fields[key]))
  }

  lemma {:induction false} SpellMeans(meaning: Sem)
    ensures Semantic(Spell(meaning)) == meaning
  {
    match meaning
    case SArr(items) =>
      var spelled := Semantic(Spell(meaning)).items;
      assert |spelled| == |items|;
      forall i | 0 <= i < |items| ensures spelled[i] == items[i] { SpellMeans(items[i]); }
    case SObj(fields) =>
      var spelled := Semantic(Spell(meaning)).fields;
      assert spelled.Keys == Spell(meaning).fields.Keys == fields.Keys;
      forall key | key in fields ensures spelled[key] == fields[key] { SpellMeans(fields[key]); }
      assert spelled == fields;
    case _ =>
  }
}
