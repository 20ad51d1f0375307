/**
 * The PHP values the plugin reads and writes, and the few PHP built-ins whose
 * exact behaviour the plugin relies on: truthiness (`if ($v)`, `?:`,
 * `empty()`, `array_filter`), the null-coalescing `??` chain, string
 * conversion, `implode` and `array_merge`.
 *
 * PHP arrays with string keys are modelled as maps; where the plugin depends
 * on the order of an array, the modules that need it use sequences instead.
 */
module PhpValues {

  datatype Option<+T> = None | Some(value: T)

  /** A PHP value: scalars, `null`, and (string-keyed) arrays. */
  datatype Value =
    | Null
    | Bool(b: bool)
    | Int(i: int)
    | Str(s: string)
    | Arr(m: map<string, Value>)

  /** What `if ($v)` tests; `empty($v)` is its negation. */
  predicate Truthy(v: Value) {
    match v
    case Null => false
    case Bool(b) => b
    case Int(i) => i != 0
    case Str(s) => s != "" && s != "0"
    case Arr(m) => m != map[]
  }

  /** PHP `empty()`: `null`, `false`, `0`, `""`, `"0"` and `[]`. */
  predicate Empty(v: Value) {
    !Truthy(v)
  }

  /** Truthiness of a string: only `""` and `"0"` are falsy. */
  predicate TruthyString(s: string) {
    s != "" && s != "0"
  }

  /** `$a[$k] ?? null`: a missing key reads as `null`. */
  function Get(a: map<string, Value>, k: string): (v: Value)
    ensures k !in a ==> v == Null
    ensures k in a ==> v == a[k]
  {
    if k in a then a[k] else Null
  }

  /** `$v[$k]` read on whatever `$v` holds: only an array has entries. */
  function Index(v: Value, k: string): (r: Value)
    ensures v.Arr? && k in v.m ==> r == v.m[k]
    ensures !v.Arr? || k !in v.m ==> r == Null
  {
    match v
    case Arr(m) => Get(m, k)
    case _ => Null
  }

  /**
   * `isset($v[$k1][$k2]...)`: the value at the end of the key path, when
   * every step exists and the final value is not `null`.
   */
  function Dig(v: Value, path: seq<string>): (r: Option<Value>)
    ensures r.Some? ==> r.value != Null
    ensures path == [] ==> (r.Some? <==> v != Null)
    ensures path == [] && r.Some? ==> r.value == v
    ensures path != [] ==> (r.Some? <==> v.Arr? && path[0] in v.m && Dig(v.m[path[0]], path[1..]).Some?)
    ensures path != [] && r.Some? ==> r == Dig(v.m[path[0]], path[1..])
    decreases |path|
  {
    if path == [] then
      (if v == Null then None else Some(v))
    else
      match v
      case Arr(m) => if path[0] in m then Dig(m[path[0]], path[1..]) else None
      case _ => None
  }

  /** `$a ?? $default` after a `Dig`. */
  function Coalesce(o: Option<Value>, default: Value): (r: Value)
    ensures o.Some? ==> r == o.value
    ensures o.None? ==> r == default
  {
    match o
    case Some(v) => v
    case None => default
  }

  /** Whether every character of `s` is a decimal digit. */
  predicate IsDigits(s: string) {
    forall i :: 0 <= i < |s| ==> '0' <= s[i] <= '9'
  }

  /** The digit character for `d`. */
  function DigitChar(d: nat): (c: char)
    requires d < 10
    ensures '0' <= c <= '9'
  {
    ('0' as int + d) as char
  }

  /**
   * The number a string of decimal digits denotes, most significant digit
   * first; the empty string denotes 0 and leading zeros do not count.
   */
  function DecimalValue(s: string): nat
    requires IsDigits(s)
    decreases |s|
  {
    if s == [] then 0
    else DecimalValue(s[..|s| - 1]) * 10 + (s[|s| - 1] as int - '0' as int)
  }

  /** Decimal notation of a natural number, most significant digit first. */
  function NatToString(n: nat): (r: string)
    ensures |r| >= 1
    ensures IsDigits(r)
    ensures (n < 10) == (|r| == 1)
    decreases n
  {
    if n < 10 then [DigitChar(n)] else NatToString(n / 10) + [DigitChar(n % 10)]
  }

  /** Reading the notation back gives the number, and it has no leading zero. */
  lemma {:induction false} NatToStringValue(n: nat)
    ensures DecimalValue(NatToString(n)) == n
    ensures NatToString(n)[0] == '0' ==> n == 0
    decreases n
  {
    var r := NatToString(n);
    if n < 10 {
      assert r[..0] == [];
    } else {
      NatToStringValue(n / 10);
      assert r[..|r| - 1] == NatToString(n / 10);
      assert r[0] == NatToString(n / 10)[0];
    }
  }

  /** How PHP writes an integer into a string ("{$i}", `sprintf('%s')`, `.`). */
  function IntToString(i: int): (r: string)
    ensures r != []
    ensures forall c :: c in r ==> c == '-' || '0' <= c <= '9'
    ensures (i < 0) == (r[0] == '-')
  {
    if i < 0 then "-" + NatToString(-i)
    else
      var d := NatToString(i);
      assert d[0] in d;
      d
  }

  /**
   * The notation denotes the integer: the digits after an optional `-` read
   * back as its magnitude, without a leading zero unless it is 0.
   */
  lemma IntToStringValue(i: int)
    ensures var r := IntToString(i);
            var digits := if i < 0 then r[1..] else r;
            && digits != [] && IsDigits(digits)
            && DecimalValue(digits) == (if i < 0 then -i else i)
            && (digits[0] == '0' ==> i == 0)
  {
    if i < 0 {
      NatToStringValue(-i);
      assert IntToString(i)[1..] == NatToString(-i);
    } else {
      NatToStringValue(i);
    }
  }

  /** Conversion to string, as by interpolation or concatenation. */
  function ToStr(v: Value): (r: string)
    ensures v.Str? ==> r == v.s
    ensures v == Null || v == Bool(false) ==> r == ""
  {
    match v
    case Null => ""
    case Bool(b) => if b then "1" else ""
    case Int(i) => IntToString(i)
    case Str(s) => s
    case Arr(_) => "Array"
  }

  /** `implode($sep, $parts)`. */
  function Implode(sep: string, parts: seq<string>): (r: string)
    ensures parts == [] ==> r == ""
    ensures |parts| == 1 ==> r == parts[0]
    decreases |parts|
  {
    if parts == [] then ""
    else if |parts| == 1 then parts[0]
    else parts[0] + sep + Implode(sep, parts[1..])
  }

  /** Splits a string at every comma: the inverse of `Implode(",", _)`. */
  function SplitCommas(s: string): (r: seq<string>)
    ensures |r| >= 1
    decreases |s|
  {
    if s == [] then [""]
    else
      var rest := SplitCommas(s[1..]);
      if s[0] == ',' then [""] + rest else [[s[0]] + rest[0]] + rest[1..]
  }

  lemma {:induction false} SplitCommasPlain(p: string)
    requires ',' !in p
    ensures SplitCommas(p) == [p]
    decreases |p|
  {
    if p != [] {
      SplitCommasPlain(p[1..]);
      assert [p[0]] + p[1..] == p;
    }
  }

  lemma {:induction false} SplitCommasAfter(p: string, t: string)
    requires ',' !in p
    ensures SplitCommas(p + "," + t) == [p] + SplitCommas(t)
    decreases |p|
  {
    if p == [] {
      assert p + "," + t == [','] + t;
      assert (p + "," + t)[1..] == t;
    } else {
      SplitCommasAfter(p[1..], t);
      assert (p + "," + t)[1..] == p[1..] + "," + t;
      assert [p[0]] + p[1..] == p;
    }
  }

  /** Joining comma-free parts with commas and splitting again gives the parts back. */
  lemma {:induction false} SplitImplode(parts: seq<string>)
    requires |parts| >= 1
    requires forall i :: 0 <= i < |parts| ==> ',' !in parts[i]
    ensures SplitCommas(Implode(",", parts)) == parts
    decreases |parts|
  {
    if |parts| == 1 {
      SplitCommasPlain(parts[0]);
    } else {
      SplitImplode(parts[1..]);
      SplitCommasAfter(parts[0], Implode(",", parts[1..]));
      assert [parts[0]] + parts[1..] == parts;
    }
  }

  /**
   * `array_merge($a, $b)` on string-keyed arrays: every key of either array,
   * with the value from `$b` where both have it.
   */
  function ArrayMerge(a: map<string, Value>, b: map<string, Value>): (r: map<string, Value>)
    ensures r.Keys == a.Keys + b.Keys
    ensures forall k :: k in b ==> r[k] == b[k]
    ensures forall k :: k in a && k !in b ==> r[k] == a[k]
  {
    a + b
  }
}
