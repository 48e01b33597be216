/**
 * The slice of JavaScript's runtime semantics that the transcoder relies on:
 * the values that flow through a pipeline, truthiness (`if (rv)`), the
 * `notNil` test, `String.prototype.substring` with its clamping and swapping,
 * `startsWith`, and the exceptions the core throws.
 */
module Js {
  import opened Wrappers

  type byte = b: int | 0 <= b < 256

  /**
   * A JavaScript value as far as the core inspects it. Objects the core never
   * looks inside (a plain object to be serialized, a decoded structure) are
   * `Obj`, told apart only by an identity.
   */
  datatype Value =
    | Undefined
    | Null
    | Bool(b: bool)
    | Num(n: int)
    | Str(s: string)
    | ArrayBuffer(buffer: seq<byte>)
    | Uint8Array(bytes: seq<byte>)
    | Obj(id: nat)

  /** `if (v)`: the falsy values are undefined, null, false, 0 and the empty string. */
  predicate Truthy(v: Value) {
    match v
    case Undefined => false
    case Null => false
    case Bool(b) => b
    case Num(n) => n != 0
    case Str(s) => s != ""
    case _ => true
  }

  /** `notNil(v)` of @lumjs/core/types: neither undefined nor null. */
  predicate NotNil(v: Value) {
    !v.Undefined? && !v.Null?
  }

  /**
   * `v == ''` with JavaScript's loose equality: the empty string, and the
   * values that convert to it or to 0 (false, 0, an empty byte array).
   */
  predicate LooselyEmpty(v: Value) {
    v == Str("") || v == Num(0) || v == Bool(false) || v == Uint8Array([])
  }

  /** An index argument of `substring`, clamped to `0..len`. */
  function Clamp(i: int, len: nat): (r: nat)
    ensures r <= len
    ensures 0 <= i <= len ==> r == i
  {
    if i < 0 then 0 else if i > len then len else i
  }

  /**
   * `s.substring(from, to)`: both indices are clamped to the string, and the
   * smaller one is taken as the start, so it never fails.
   */
  function Substring(s: string, from: int, to: int): (r: string)
    ensures |r| <= |s|
    ensures 0 <= from <= to <= |s| ==> r == s[from..to]
    ensures 0 <= from <= |s| <= to ==> r == s[from..]
    ensures from == to ==> r == ""
  {
    var a, b := Clamp(from, |s|), Clamp(to, |s|);
    if a <= b then s[a..b] else s[b..a]
  }

  /** `s.startsWith(prefix)`. */
  predicate StartsWith(s: string, prefix: string) {
    |prefix| <= |s| && s[..|prefix|] == prefix
  }

  /** A field read from past the end of its source is shorter than asked for, never an error. */
  lemma SubstringPastEnd(s: string, from: int, to: int)
    requires |s| <= from <= to
    ensures Substring(s, from, to) == ""
  {
  }

  /** Reading a field of a concatenation that lies inside its left part. */
  lemma SubstringOfPrefix(a: string, b: string, from: int, to: int)
    requires 0 <= from <= to <= |a|
    ensures Substring(a + b, from, to) == a[from..to]
  {
    assert (a + b)[from..to] == a[from..to];
  }

  /** A field inside a string's known prefix is read from that prefix. */
  lemma SubstringOfStart(s: string, prefix: string, from: int, to: int)
    requires StartsWith(s, prefix) && 0 <= from <= to <= |prefix|
    ensures Substring(s, from, to) == prefix[from..to]
  {
    assert forall i :: from <= i < to ==> s[i] == s[..|prefix|][i];
    assert s[from..to] == s[..|prefix|][from..to];
  }

  /**
   * The exceptions of the core. Each is a `TypeError` or a `RangeError` in the
   * source; `MalformedHex` and `PayloadNotString` mark the two places where the
   * model reports an error for input the source hands on to code that is not
   * part of this model (JavaScript's `parseInt`, the Base64 library).
   */
  datatype Error =
    | NotANumber(what: string)
    | NotAString
    | BadVersionType
    | VersionTooLow(low: int)
    | VersionTooHigh(high: int)
    | UnsupportedVersion(ver: Option<int>)
    | InvalidVersionRule
    | InvalidPluginFormat(fmt: Option<int>)
    | NotAFunction
    | InvalidStateData
    | NoToString
    | MalformedHex(text: string)
    | PayloadNotString
}
