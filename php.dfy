/**
 * The few PHP runtime notions the field builder relies on: byte strings,
 * the values a public property can hold, `empty()` on strings, `isset()`,
 * ASCII `strtolower` and single-byte `str_replace`.
 */
module Php {

  /** One byte of a PHP string, written as the character with that code. */
  type Byte = c: char | c as int < 256 witness 'a'

  /** A PHP string: a sequence of bytes with no encoding attached. */
  type Bytes = seq<Byte>

  /**
   * The values a public property can hold. Arrays keep their insertion
   * order, so an array is a sequence of key/value pairs.
   */
  datatype Value =
    | Null
    | Bool(b: bool)
    | Int(i: int)
    | Str(s: Bytes)
    | Arr(entries: seq<(Value, Value)>)

  /** An ordered string-keyed PHP array, as `getField` returns it. */
  type Entries = seq<(Bytes, Value)>

  /**
   * `isset($v)`: every value except null, so zero, false, the empty string
   * and the empty array all count as set.
   */
  predicate IsSet(v: Value): (b: bool)
    ensures v.Null? ==> !b
    ensures v == Int(0) || v == Bool(false) || v == Str("") || v == Arr([]) ==> b
  {
    !v.Null?
  }

  /**
   * `empty($s)` on a string: both `""` and `"0"` are empty, so an empty
   * string is at most one byte long and any longer string is not empty.
   */
  predicate IsEmptyString(s: Bytes): (b: bool)
    ensures b ==> |s| <= 1
    ensures |s| == 1 ==> (b <==> s[0] == '0')
    ensures |s| == 0 ==> b
  {
    s == "" || s == "0"
  }

  predicate IsUpper(c: Byte) {
    'A' <= c <= 'Z'
  }

  /** The class `[A-Za-z0-9]` of a byte-mode regular expression. */
  predicate IsAlnum(c: Byte) {
    'A' <= c <= 'Z' || 'a' <= c <= 'z' || '0' <= c <= '9'
  }

  /** ASCII lower-casing of one byte; every other byte is left alone. */
  function ToLower(c: Byte): (d: Byte)
    ensures !IsUpper(d)
    ensures IsAlnum(d) <==> IsAlnum(c)
    ensures IsAlnum(c) ==> 'a' <= d <= 'z' || '0' <= d <= '9'
    ensures !IsUpper(c) ==> d == c
  {
    if IsUpper(c) then (c as int + 32) as char else c
  }

  /** `strtolower($s)` */
  function StrToLower(s: Bytes): Bytes {
    seq(|s|, i requires 0 <= i < |s| => ToLower(s[i]))
  }

  /** `str_replace($from, $to, $s)` for a one-byte search and replacement. */
  function StrReplace(from: Byte, to: Byte, s: Bytes): Bytes {
    seq(|s|, i requires 0 <= i < |s| => if s[i] == from then to else s[i])
  }

  /** The keys of an ordered array, in order. */
  function Keys(e: Entries): (ks: seq<Bytes>)
    ensures |ks| == |e|
  {
    seq(|e|, i requires 0 <= i < |e| => e[i].0)
  }

  /** No key occurs twice. */
  predicate Distinct(ks: seq<Bytes>) {
    forall i, j :: 0 <= i < j < |ks| ==> ks[i] != ks[j]
  }

  lemma StrToLowerAppend(a: Bytes, b: Bytes)
    ensures StrToLower(a + b) == StrToLower(a) + StrToLower(b)
  {
  }

  /** Lower-casing a string that has no upper-case byte changes nothing. */
  lemma StrToLowerFixesLower(s: Bytes)
    requires forall i :: 0 <= i < |s| ==> !IsUpper(s[i])
    ensures StrToLower(s) == s
  {
  }
}
