/** JavaScript values as they reach the layout components' props, and the
    coercions the style templates apply to them: truthiness, `String(v)`,
    `Number(v)`, division and React's default props. */
module JsValues {
  import opened Wrappers
  import opened Strings

  /** An ordered breakpoint table: the own keys of a JavaScript object in
      enumeration order, each with its threshold in pixels. */
  type Table = seq<(string, nat)>

  /** A prop value. Numbers are integers (every numeric prop of the
      components is); the only objects are breakpoint tables. */
  datatype Value =
    | Undefined
    | Null
    | Bool(b: bool)
    | Num(n: int)
    | Str(s: string)
    | Arr(items: seq<Value>)
    | Obj(entries: Table)

  /** A prop bag. A name the bag does not hold reads as `undefined`. */
  type Props = map<string, Value>

  /** The exceptions a style interpolation can throw. */
  datatype JsError =
    | ReduceOfEmptyArray  // TypeError: Reduce of empty array with no initial value
    | NotAFunction        // TypeError: x.reduce is not a function
    | NotAnObject         // TypeError: Cannot convert undefined or null to object
    | KeysOutsideModel    // Object.keys of a non-empty string or array (not modelled)

  function Get(p: Props, key: string): Value
  {
    if key in p then p[key] else Undefined
  }

  /** The prop name `<prefix>-<breakpoint>`, as in `props['col-' + breakPoint]`. */
  function Key(prefix: string, name: string): string
  {
    prefix + "-" + name
  }

  /** JavaScript truthiness: `undefined`, `null`, `false`, `0` and `''` are falsy. */
  predicate Truthy(v: Value)
  {
    match v
    case Undefined => false
    case Null => false
    case Bool(b) => b
    case Num(n) => n != 0
    case Str(s) => s != ""
    case Arr(_) => true
    case Obj(_) => true
  }

  function DigitChar(d: nat): char
    requires d < 10
  {
    (('0' as int) + d) as char
  }

  predicate IsDigit(c: char)
  {
    '0' <= c <= '9'
  }

  predicate AllDigits(s: string)
  {
    forall i :: 0 <= i < |s| ==> IsDigit(s[i])
  }

  /** The decimal numeral of `n`, without leading zeros. */
  function NatToDecimal(n: nat): string
    decreases n
  {
    if n < 10 then [DigitChar(n)] else NatToDecimal(n / 10) + [DigitChar(n % 10)]
  }

  /** `String(n)` for an integer `n`. */
  function IntToDecimal(n: int): string
  {
    if n < 0 then "-" + NatToDecimal(-n) else NatToDecimal(n)
  }

  /** The value of a string of decimal digits. */
  function DigitsValue(s: string): nat
    requires AllDigits(s)
    decreases |s|
  {
    if s == [] then 0 else DigitsValue(s[..|s| - 1]) * 10 + (s[|s| - 1] as int - '0' as int)
  }

  /** `String(v)`: what a template literal `${v}` and `+` with a string produce. */
  function ToText(v: Value): string
    decreases v
  {
    match v
    case Undefined => "undefined"
    case Null => "null"
    case Bool(b) => if b then "true" else "false"
    case Num(n) => IntToDecimal(n)
    case Str(s) => s
    case Arr(xs) =>
      // Array.prototype.toString: the elements joined by commas, with
      // `undefined` and `null` elements written as empty strings
      Join(seq(|xs|, i requires 0 <= i < |xs| =>
             if xs[i].Undefined? || xs[i].Null? then "" else ToText(xs[i])), ",")
    case Obj(_) => "[object Object]"
  }

  /** What styled-components writes for a value returned by a function
      interpolation: nothing for `undefined`, `null`, `false` and `''`. */
  function Interpolate(v: Value): (r: string)
    ensures v == Undefined || v == Null || v == Bool(false) || v == Str("") ==> r == ""
    ensures Truthy(v) ==> r == ToText(v)
    ensures v == Num(0) ==> r == "0"
  {
    if v == Undefined || v == Null || v == Bool(false) || v == Str("") then "" else ToText(v)
  }

  /** A JavaScript number, over exact reals (signed zero is not modelled). */
  datatype JsNumber = Finite(r: real) | PosInfinity | NegInfinity | NaN

  /** `Number(s)` for the empty string, a decimal integer with an optional sign,
      or anything else (NaN). */
  function StringToNumber(s: string): JsNumber
  {
    if s == "" then Finite(0.0)
    else if AllDigits(s) then Finite(DigitsValue(s) as real)
    else if |s| >= 2 && s[0] == '-' && AllDigits(s[1..]) then Finite(-(DigitsValue(s[1..]) as real))
    else if |s| >= 2 && s[0] == '+' && AllDigits(s[1..]) then Finite(DigitsValue(s[1..]) as real)
    else NaN
  }

  /** `Number(v)`: strings, arrays and objects go through their string form. */
  function ToNumber(v: Value): JsNumber
  {
    match v
    case Undefined => NaN
    case Null => Finite(0.0)
    case Bool(b) => Finite(if b then 1.0 else 0.0)
    case Num(n) => Finite(n as real)
    case _ => StringToNumber(ToText(v))
  }

  /** IEEE division `a / b`. */
  function Divide(a: JsNumber, b: JsNumber): JsNumber
  {
    match (a, b)
    case (NaN, _) => NaN
    case (_, NaN) => NaN
    case (Finite(x), Finite(y)) =>
      if y != 0.0 then Finite(x / y)
      else if x == 0.0 then NaN
      else if x > 0.0 then PosInfinity
      else NegInfinity
    case (Finite(_), _) => Finite(0.0)
    case (PosInfinity, Finite(y)) => if y < 0.0 then NegInfinity else PosInfinity
    case (NegInfinity, Finite(y)) => if y < 0.0 then PosInfinity else NegInfinity
    case (_, _) => NaN
  }

  /** `a * 100`. */
  function Times100(a: JsNumber): JsNumber
  {
    match a
    case Finite(x) => Finite(x * 100.0)
    case other => other
  }

  /** `(part / whole) * 100`, the column arithmetic of the box. */
  function Percentage(part: Value, whole: Value): JsNumber
  {
    Times100(Divide(ToNumber(part), ToNumber(whole)))
  }

  /** React's default props: every prop that is `undefined` and has a default
      takes the default; every other prop is kept. */
  function WithDefaults(p: Props, defaults: Props): (r: Props)
    ensures r.Keys == p.Keys + defaults.Keys
    ensures forall k :: k in defaults && Get(p, k) == Undefined ==> Get(r, k) == defaults[k]
    ensures forall k :: Get(p, k) != Undefined ==> Get(r, k) == Get(p, k)
    ensures forall k :: k !in defaults ==> Get(r, k) == Get(p, k)
  {
    map k | k in p.Keys + defaults.Keys :: if k in defaults && Get(p, k) == Undefined then defaults[k] else p[k]
  }

  /** `React.cloneElement(child, overrides)`: the child's props with every
      overriding prop replacing the child's own. */
  function CloneWith(child: Props, overrides: Props): (r: Props)
    ensures r.Keys == child.Keys + overrides.Keys
    ensures forall k :: k in overrides ==> Get(r, k) == overrides[k]
    ensures forall k :: k !in overrides ==> Get(r, k) == Get(child, k)
  {
    child + overrides
  }

  /** `React.Children.map(children, child => React.cloneElement(child, overrides))`. */
  function CloneAll(children: seq<Props>, overrides: Props): (r: seq<Props>)
    ensures |r| == |children|
    ensures forall i :: 0 <= i < |r| ==> r[i] == CloneWith(children[i], overrides)
  {
    seq(|children|, i requires 0 <= i < |children| => CloneWith(children[i], overrides))
  }

  // ---------------------------------------------------------------------
  // Properties of the coercions

  lemma {:induction false} NatToDecimalDigits(n: nat)
    ensures |NatToDecimal(n)| > 0 && AllDigits(NatToDecimal(n))
    ensures DigitsValue(NatToDecimal(n)) == n
    decreases n
  {
    if n >= 10 {
      NatToDecimalDigits(n / 10);
      var s := NatToDecimal(n);
      assert s[..|s| - 1] == NatToDecimal(n / 10);
    }
  }

  /** `Number(String(n)) == n` for every integer `n`. */
  lemma NumberOfString(n: int)
    ensures ToNumber(Str(ToText(Num(n)))) == Finite(n as real)
  {
    NatToDecimalDigits(if n < 0 then -n else n);
    if n < 0 {
      var s := IntToDecimal(n);
      assert s[1..] == NatToDecimal(-n);
      assert !AllDigits(s) by { assert !IsDigit(s[0]); }
    }
  }

  /** For integer operands with a non-zero whole, the percentage is the exact
      ratio `part * 100 / whole`. */
  lemma IntegerPercentage(part: int, whole: int)
    requires whole != 0
    ensures Percentage(Num(part), Num(whole)) == Finite((part as real) * 100.0 / (whole as real))
  {
    var x, y := part as real, whole as real;
    assert (x / y) * 100.0 == x * 100.0 / y;
  }

  /** A zero whole gives `Infinity` (or `NaN` for `0 / 0`), never a finite percentage. */
  lemma ZeroWholePercentage(part: int)
    ensures Percentage(Num(part), Num(0)) ==
      if part == 0 then NaN else if part > 0 then PosInfinity else NegInfinity
  {
  }

  /** Truthiness of the values whose output the components suppress. */
  lemma FalsyValues(v: Value)
    ensures !Truthy(v) <==> v in {Undefined, Null, Bool(false), Num(0), Str("")}
  {
  }
}
