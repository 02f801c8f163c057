/**
  PHP values as the relay plugin sees them: the scalars a form submission
  carries, the nested ordered arrays of the API payload, PHP truthiness and
  empty(), the (string) cast of a scalar, reading nested keys, and PHP 8
  loose equality `==` between scalars.
 */
module Values {
  import opened Options
  import opened Strings
  import opened Numeric

  /** A PHP array key: integer (list positions) or string. */
  datatype Key = Idx(i: int) | Name(s: string)

  /** A PHP value. Float(m, k) is the exact decimal m / 10^k; an Arr is an
      ordered map, its entries in insertion order. */
  datatype Value =
    | Null
    | Bool(b: bool)
    | Int(i: int)
    | Float(mantissa: int, scale: nat)
    | Str(s: string)
    | Arr(entries: seq<Entry>)

  datatype Entry = Entry(key: Key, val: Value)

  /** What a raw form field can hold. */
  type RawValue = v: Value | v.Null? || v.Bool? || v.Int? || v.Str? witness Null

  /** One field of a raw submission, e.g. "cedula" => "001-1234567-8". */
  datatype Field = Field(name: string, value: RawValue)

  // ---------------------------------------------------------------------
  // Reading

  /** $data[$name] ?? null on a submission. */
  function Lookup(data: seq<Field>, name: string): (r: RawValue)
    ensures r != Null ==> exists i :: 0 <= i < |data| && data[i].name == name && data[i].value == r
    ensures (forall i :: 0 <= i < |data| ==> data[i].name != name) ==> r == Null
  {
    if data == [] then Null
    else if data[0].name == name then data[0].value
    else Lookup(data[1..], name)
  }

  /** The entry stored under a key of an ordered map, if any. */
  function Get(es: seq<Entry>, k: Key): (r: Option<Value>)
    ensures r.Some? <==> exists i :: 0 <= i < |es| && es[i].key == k
    ensures r.Some? ==> Entry(k, r.value) in es
  {
    if es == [] then None
    else if es[0].key == k then Some(es[0].val)
    else Get(es[1..], k)
  }

  /** $v['a']['b']...: the value at a path of string keys, null when absent. */
  function At(v: Value, path: seq<string>): Value {
    AtFrom(v, path, 0)
  }

  /** The walk down the path from its i-th key on. */
  function AtFrom(v: Value, path: seq<string>, i: nat): Value
    requires i <= |path|
    decreases |path| - i
  {
    if i == |path| then v
    else if !v.Arr? then Null
    else match Get(v.entries, Name(path[i]))
      case None => Null
      case Some(x) => AtFrom(x, path, i + 1)
  }

  predicate KeysUnique(es: seq<Entry>) {
    forall i, j :: 0 <= i < j < |es| ==> es[i].key != es[j].key
  }

  /** With unique keys, the value under the key of entry i is that entry's. */
  lemma {:induction false} GetUnique(es: seq<Entry>, i: int)
    requires KeysUnique(es) && 0 <= i < |es|
    ensures Get(es, es[i].key) == Some(es[i].val)
  {
    if i > 0 {
      assert es[0].key != es[i].key;
      assert KeysUnique(es[1..]) by {
        forall a, b | 0 <= a < b < |es[1..]| ensures es[1..][a].key != es[1..][b].key {
          assert es[1..][a] == es[a + 1] && es[1..][b] == es[b + 1];
        }
      }
      GetUnique(es[1..], i - 1);
    }
  }

  function KeysOf(es: seq<Entry>): (ks: seq<Key>)
    ensures |ks| == |es| && forall i :: 0 <= i < |es| ==> ks[i] == es[i].key
  {
    seq(|es|, i requires 0 <= i < |es| => es[i].key)
  }

  // ---------------------------------------------------------------------
  // Truthiness and casts

  /** (bool)$v. PHP's empty($v) is its negation for every value. */
  predicate Truthy(v: Value) {
    match v
    case Null => false
    case Bool(b) => b
    case Int(i) => i != 0
    case Float(m, _) => m != 0
    case Str(s) => s != "" && s != "0"
    case Arr(es) => es != []
  }

  predicate IsEmpty(v: Value) {
    !Truthy(v)
  }

  /** (string)$v for a scalar. */
  function Text(v: RawValue): string {
    match v
    case Null => ""
    case Bool(b) => if b then "1" else ""
    case Int(i) => IntToString(i)
    case Str(s) => s
  }

  // ---------------------------------------------------------------------
  // Loose equality (PHP 8)

  function IntNumeral(i: int): Numeral {
    Numeral(i < 0, if i < 0 then -i else i, 0, 0, false, false)
  }

  /** int == string: numerically when the string is numeric, else as strings. */
  predicate IntEqualsString(i: int, s: string) {
    match ParseNumeric(s)
    case Some(n) => SameNumber(IntNumeral(i), n)
    case None => IntToString(i) == s
  }

  /** string == string: numerically when both are numeric, else byte-wise. */
  predicate StringsEqual(s: string, t: string) {
    match (ParseNumeric(s), ParseNumeric(t))
    case (Some(m), Some(n)) => SameNumber(m, n)
    case _ => s == t
  }

  /** null == x for a non-boolean scalar x: null reads as "" against a string
      and as false against an int. */
  predicate NullEquals(v: RawValue) {
    match v
    case Null => true
    case Bool(b) => !b
    case Int(i) => i == 0
    case Str(s) => s == ""
  }

  /** $a == $b for scalars, as PHP 8 compares them. */
  predicate LooseEquals(a: RawValue, b: RawValue)
    // every value is loosely equal to itself
    ensures a == b ==> LooseEquals(a, b)
  {
    if a.Bool? || b.Bool? then Truthy(a) == Truthy(b)
    else if a.Null? then NullEquals(b)
    else if b.Null? then NullEquals(a)
    else if a.Int? && b.Int? then a.i == b.i
    else if a.Int? then IntEqualsString(a.i, b.s)
    else if b.Int? then IntEqualsString(b.i, a.s)
    else StringsEqual(a.s, b.s)
  }

  lemma LooseEqualsSymmetric(a: RawValue, b: RawValue)
    ensures LooseEquals(a, b) == LooseEquals(b, a)
  {
  }

  /** A form id given as an int matches the same id written as a string,
      e.g. 646 == "646". */
  lemma IntEqualsItsText(i: int)
    ensures LooseEquals(Int(i), Str(IntToString(i)))
    ensures LooseEquals(Str(IntToString(i)), Int(i))
  {
    IntToStringNumeric(i);
    assert ParseNumeric(IntToString(i)) == Some(IntNumeral(i));
  }
}
