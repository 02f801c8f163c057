/**
  The field accessor every mapped field goes through: read the raw field,
  fall back to a default when it is missing or blank, apply an optional
  transformer (whose null result also means "use the default"), then apply
  an optional sanitizer to what is still a string.
 */
module FieldAccess {
  import opened Options
  import opened Strings
  import opened Values
  import opened Transformers

  /** The transformers the mapper hands to the accessor. */
  datatype Transform =
    | AsBool      // mfla_to_bool
    | AsDate      // mfla_format_date
    | AsNumber    // mfla_to_numeric
    | Lowercase   // strtolower
    | Digits      // the inline closure keeping only digits

  /** Every transformer yields a scalar. */
  function Apply(t: Transform, raw: RawValue): (r: Value)
    ensures !r.Arr?
  {
    match t
    case AsBool => Bool(ToBool(raw))
    case AsDate => FormatDate(raw)
    case AsNumber => ToNumeric(raw)
    case Lowercase => Str(LowerAscii(Text(raw)))
    case Digits => Str(DigitsOnly(raw))
  }

  /** !isset($data[$key]) || trim((string)$data[$key]) === '' */
  predicate Blank(raw: RawValue) {
    raw.Null? || Trim(Text(raw)) == ""
  }

  /** $get_value($key, $default, $sanitize_callback, $transform_callback). */
  function GetValue(data: seq<Field>, key: string, default: Value,
                    sanitize: Option<string -> string>, transform: Option<Transform>): (r: Value)
    // a missing, null or blank field gives the default, whatever the callbacks
    ensures Blank(Lookup(data, key)) ==> r == default
    // with no callbacks, a present field comes back exactly as submitted
    ensures !Blank(Lookup(data, key)) && sanitize.None? && transform.None? ==> r == Lookup(data, key)
    // a transformer's null never leaks out unless the default is null itself
    ensures transform.Some? && r == Null ==> default == Null
    // without a sanitizer, the result is the default or what the transformer made
    ensures transform.Some? && sanitize.None? ==>
              r == default || r == Apply(transform.value, Lookup(data, key))
    // the sanitizer only ever sees strings: any other value is returned as is
    ensures sanitize.Some? && r != default && !r.Str? ==>
              r == (if transform.Some? then Apply(transform.value, Lookup(data, key)) else Lookup(data, key))
    // a field never reads as an array unless the default is one
    ensures !default.Arr? ==> !r.Arr?
  {
    var raw := Lookup(data, key);
    if Blank(raw) then default
    else
      var value := if transform.Some? then Apply(transform.value, raw) else raw;
      if transform.Some? && value == Null then default
      else if sanitize.Some? && value.Str? then Str(sanitize.value(value.s))
      else value
  }

  /** The accessor as the mapper mostly calls it: default null, sanitized
      text, no transformer. */
  function Plain(data: seq<Field>, key: string, clean: string -> string): Value {
    GetValue(data, key, Null, Some(clean), None)
  }

  /** The text fields: null when blank, a string as its sanitized text,
      any other scalar as submitted. */
  lemma PlainValue(data: seq<Field>, key: string, clean: string -> string)
    ensures var raw := Lookup(data, key);
      Plain(data, key, clean) == if Blank(raw) then Null else if raw.Str? then Str(clean(raw.s)) else raw
  {
  }

  /** The accessor with a transformer and no sanitizer, default null. */
  function Transformed(data: seq<Field>, key: string, t: Transform): Value {
    GetValue(data, key, Null, None, Some(t))
  }

  // ---------------------------------------------------------------------
  // Properties

  /** A field that is present and not blank reaches the transformer, and the
      sanitizer is applied to a string result only. */
  lemma GetValuePresent(data: seq<Field>, key: string, default: Value,
                        sanitize: Option<string -> string>, t: Transform)
    requires !Blank(Lookup(data, key))
    ensures var v := Apply(t, Lookup(data, key));
      GetValue(data, key, default, sanitize, Some(t))
        == if v == Null then default
           else if sanitize.Some? && v.Str? then Str(sanitize.value(v.s))
           else v
  {
  }

  /** An unchecked checkbox, false, reads as blank: (string)false is "". */
  lemma GetValueFalseIsBlank(data: seq<Field>, key: string, default: Value,
                             sanitize: Option<string -> string>, transform: Option<Transform>)
    requires Lookup(data, key) == Bool(false)
    ensures GetValue(data, key, default, sanitize, transform) == default
  {
  }

  /** A value made only of whitespace trim() strips reads as blank. */
  lemma GetValueWhitespaceIsBlank(data: seq<Field>, key: string, default: Value,
                                  sanitize: Option<string -> string>, transform: Option<Transform>)
    requires Lookup(data, key).Str?
    requires forall i :: 0 <= i < |Lookup(data, key).s| ==> IsTrimChar(Lookup(data, key).s[i])
    ensures GetValue(data, key, default, sanitize, transform) == default
  {
    var s := Lookup(data, key).s;
    TrimBlank(s);
  }

  /** Submitted integers are never sanitized: the sanitizer sees strings only. */
  lemma GetValueKeepsInts(data: seq<Field>, key: string, clean: string -> string)
    requires Lookup(data, key).Int?
    ensures Plain(data, key, clean) == Lookup(data, key)
  {
    IntToStringTrimmed(Lookup(data, key).i);
    PlainValue(data, key, clean);
  }

  /** With a false default, the boolean accessor always yields a boolean:
      the 'terms' field is true or false, never missing. */
  lemma GetValueBoolDefaultFalse(data: seq<Field>, key: string)
    ensures GetValue(data, key, Bool(false), None, Some(AsBool)).Bool?
  {
  }

  /** The date accessor yields null or a ten-character 'Y-m-d' string. */
  lemma GetValueDate(data: seq<Field>, key: string)
    ensures var r := Transformed(data, key, AsDate);
      r == Null || (r.Str? && |r.s| == 10)
  {
    TransformedValue(data, key, AsDate);
  }

  /** The number accessor yields null, an integer or a decimal. */
  lemma GetValueNumber(data: seq<Field>, key: string)
    ensures var r := Transformed(data, key, AsNumber);
      r == Null || r.Int? || r.Float?
  {
    TransformedValue(data, key, AsNumber);
  }

  /** The digit accessor yields null for a blank field and otherwise the
      field's digits, possibly none. */
  lemma GetValueDigits(data: seq<Field>, key: string)
    ensures var raw := Lookup(data, key);
      Transformed(data, key, Digits) == if Blank(raw) then Null else Str(DigitsOnly(raw))
    ensures var r := Transformed(data, key, Digits);
      r != Null ==> r.Str? && AllDigits(r.s)
  {
    var raw := Lookup(data, key);
    TransformedValue(data, key, Digits);
    assert Apply(Digits, raw) == Str(DigitsOnly(raw));
  }

  /** With a null default and no sanitizer, a field reads as null when it is
      blank and as the transformer's result otherwise. */
  lemma TransformedValue(data: seq<Field>, key: string, t: Transform)
    ensures var raw := Lookup(data, key);
      Transformed(data, key, t) == if Blank(raw) then Null else Apply(t, raw)
  {
    if !Blank(Lookup(data, key)) {
      GetValuePresent(data, key, Null, None, t);
    }
  }

  /** The lower-casing accessor yields null for a blank field and otherwise
      the field's text in lower case. */
  lemma GetValueLowercase(data: seq<Field>, key: string)
    ensures var raw := Lookup(data, key);
      Transformed(data, key, Lowercase) == if Blank(raw) then Null else Str(LowerAscii(Text(raw)))
  {
    TransformedValue(data, key, Lowercase);
    ApplyLowercase(Lookup(data, key));
  }

  lemma ApplyLowercase(raw: RawValue)
    ensures Apply(Lowercase, raw) == Str(LowerAscii(Text(raw)))
  {
  }
}
