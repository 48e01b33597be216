/**
 * The metadata record that travels through a pipeline stage: the format and
 * type a header announced, the header version, the string under
 * consideration and the offset at which its payload starts, and a link to
 * the record it superseded.
 */
module Metadata {
  import opened Wrappers
  import opened Js
  import opened HexText

  /**
   * The version setter's checks on its argument: a string is read as hex,
   * a number is taken as it is, anything else is refused; the result must
   * lie in 0..255.
   *
   * A string that is not hex makes JavaScript's `parseInt` yield NaN, which
   * passes both range checks and is stored; here the setter reports
   * `MalformedHex` instead (see `Dec`).
   */
  function CheckVersion(ver: Value): (r: Result<int, Error>)
    ensures r.Ok? ==> 0 <= r.value <= 255
    ensures ver.Num? ==> (r.Ok? <==> 0 <= ver.n <= 255) && (r.Ok? ==> r.value == ver.n)
    ensures ver.Num? && ver.n < 0 ==> r == Err(VersionTooLow(ver.n))
    ensures ver.Num? && ver.n > 255 ==> r == Err(VersionTooHigh(ver.n))
    ensures ver.Str? ==> (r.Ok? <==> Dec(ver.s).Some? && Dec(ver.s).value <= 255)
    ensures ver.Str? && r.Ok? ==> Dec(ver.s) == Some(r.value)
    ensures !ver.Str? && !ver.Num? ==> r == Err(BadVersionType)
  {
    var n :- match ver
      case Str(s) => (match Dec(s) case Some(n) => Ok(n) case None => Err(MalformedHex(s)))
      case Num(n) => Ok(n)
      case _ => Err(BadVersionType);
    if n < 0 then Err(VersionTooLow(n))
    else if n > 255 then Err(VersionTooHigh(n))
    else Ok(n)
  }

  /** The `value` getter on the stored value and offset. */
  function ValueOf(content: Value, offset: int): (r: Result<Value, Error>)
    ensures offset == 0 ==> r == Ok(content)
    ensures offset != 0 && content.Str? ==> r.Ok? && r.value.Str?
    ensures offset > 0 && content.Str? && offset <= |content.s| ==> r == Ok(Str(content.s[offset..]))
    ensures offset != 0 && !content.Str? ==> r == Err(NotAFunction)
  {
    if offset == 0 then Ok(content)
    else match content
      case Str(s) => Ok(Str(Substring(s, offset, |s|)))
      case _ => Err(NotAFunction)
  }

  /**
   * The `header` getter on the stored value and offset. A non-empty string
   * stored with a non-zero offset yields the retained header. A value that is
   * loosely `''`, or offset 0, falls back to `makeHeader`, which always fails
   * as written (`Header.MakeHeaderAsWritten` derives its error from `build`).
   * Anything else calls `substring` on a value that is not a string: a TypeError.
   */
  function HeaderOf(content: Value, offset: int): (r: Result<string, Error>)
    ensures r.Ok? <==> content.Str? && content.s != "" && offset != 0
    ensures r.Ok? && 0 < offset <= |content.s| ==> r.value == content.s[..offset]
    ensures !content.Str? && !LooselyEmpty(content) && offset != 0 ==> r == Err(NotAFunction)
  {
    if LooselyEmpty(content) || offset == 0 then Err(NotANumber("format"))
    else if content.Str? then Ok(Substring(content.s, 0, offset))
    else Err(NotAFunction)
  }

  /**
   * When a header is retained (`$value` non-empty, offset positive), the
   * `header` getter and the `value` getter split the stored string: header
   * followed by value is the stored string.
   */
  lemma HeaderThenValue(s: string, offset: int)
    requires s != "" && offset > 0
    ensures HeaderOf(Str(s), offset).Ok? && ValueOf(Str(s), offset).Ok?
    ensures HeaderOf(Str(s), offset).value + ValueOf(Str(s), offset).value.s == s
  {
    if offset <= |s| {
      assert s[..offset] + s[offset..] == s;
    } else {
      assert Substring(s, 0, offset) == s;
      assert Substring(s, offset, |s|) == "";
    }
  }

  /** The version getter and setter are inverse: setting what the getter shows keeps the version. */
  lemma VersionGetSet(v: int)
    requires 0 <= v <= 255
    ensures |Hex(v, VL)| == 2
    ensures CheckVersion(Str(Hex(v, VL))) == Ok(v)
  {
    HvLength(v);
    assert Hv(v)[2..] == Hex(v, VL);
    DecHex(v, VL);
  }

  class Settings {
    var format: Option<int>
    var typ: Option<int>     // the `type` field
    const prev: Settings?
    var version: int         // `$version`
    var offset: int          // `$offset`
    var content: Value       // `$value`

    /**
     * The offsets the core stores are never negative, a non-zero offset only
     * ever slices a string, and the version is a byte.
     */
    ghost predicate Valid()
      reads this
    {
      0 <= offset && (offset > 0 ==> content.Str?) && 0 <= version <= 255
    }

    constructor (format: Option<int>, typ: Option<int>, prev: Settings?)
      ensures this.format == format && this.typ == typ && this.prev == prev
      ensures version == 0 && offset == 0 && content == Str("")
      ensures Valid()
    {
      this.format := format;
      this.typ := typ;
      this.prev := prev;
      version := 0;
      offset := 0;
      content := Str("");
    }

    /**
     * A successor record: same format and type, linked back to this one,
     * version 0, holding the given value and offset. This record is not changed.
     */
    method Next(newValue: Value, newLen: int := 0) returns (r: Result<Settings, Error>)
      ensures r.Err? <==> newLen > 0 && !newValue.Str?
      ensures r.Err? ==> r.error == NotAString
      ensures r.Ok? ==> fresh(r.value) && (newLen >= 0 ==> r.value.Valid())
      ensures r.Ok? ==> r.value.format == format && r.value.typ == typ && r.value.prev == this
      ensures r.Ok? ==> r.value.version == 0 && r.value.content == newValue && r.value.offset == newLen
    {
      var s := new Settings(format, typ, this);
      var err := s.SetValue(newValue, newLen);
      if err.Some? {
        return Err(err.value);
      }
      r := Ok(s);
    }

    /** The `value` getter: the payload after the offset. */
    function Value(): (r: Result<Value, Error>)
      reads this
      ensures Valid() ==> r.Ok?
      ensures offset > 0 && content.Str? && offset <= |content.s| ==> r == Ok(Str(content.s[offset..]))
    {
      ValueOf(content, offset)
    }

    /**
     * `setValue(value, offset)`: a positive offset requires a string;
     * otherwise both fields are stored.
     */
    method SetValue(v: Value, off: int) returns (err: Option<Error>)
      modifies this
      ensures err.Some? <==> off > 0 && !v.Str?
      ensures err.Some? ==> err.value == NotAString && content == old(content) && offset == old(offset)
      ensures err.None? ==> content == v && offset == off
      ensures format == old(format) && typ == old(typ) && version == old(version)
      ensures old(0 <= version <= 255) && err.None? && off >= 0 ==> Valid()
    {
      if off > 0 && !v.Str? {
        return Some(NotAString);
      }
      content := v;
      offset := off;
      err := None;
    }

    /** The `value` setter: stores a value and resets the offset to 0. */
    method SetContent(v: Value)
      modifies this
      ensures content == v && offset == 0
      ensures format == old(format) && typ == old(typ) && version == old(version)
      ensures old(0 <= version <= 255) ==> Valid()
    {
      var err := SetValue(v, 0);
    }

    /** The `version` setter. */
    method SetVersion(ver: Value) returns (err: Option<Error>)
      modifies this
      ensures err.None? <==> CheckVersion(ver).Ok?
      ensures err.None? ==> version == CheckVersion(ver).value
      ensures err.Some? ==> err.value == CheckVersion(ver).error && version == old(version)
      ensures format == old(format) && typ == old(typ) && content == old(content) && offset == old(offset)
      ensures old(Valid()) ==> Valid()
    {
      var checked := CheckVersion(ver);
      if checked.Err? {
        return Some(checked.error);
      }
      version := checked.value;
      err := None;
    }

    /** The `version` getter: the version as two hex digits, which `dec` reads back. */
    function VersionHex(): (r: string)
      reads this
      ensures Valid() ==> |r| == 2 && CheckVersion(Str(r)) == Ok(version)
    {
      if 0 <= version <= 255 then VersionGetSet(version); Hex(version, VL) else Hex(version, VL)
    }

    /** The `header` getter. */
    function Header(): (r: Result<string, Error>)
      reads this
      ensures r.Ok? <==> content.Str? && content.s != "" && offset != 0
      ensures r.Ok? && Valid() ==> r.value + Value().value.s == content.s
      ensures Valid() && r.Err? ==> LooselyEmpty(content) || offset == 0
    {
      if content.Str? && content.s != "" && offset > 0 then HeaderThenValue(content.s, offset); HeaderOf(content, offset)
      else HeaderOf(content, offset)
    }
  }
}
