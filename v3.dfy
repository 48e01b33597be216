/**
 * The version-3 header rule: after the version marker `SV03`, an optional
 * format field `F` + one hex digit, then, only inside a format field, an
 * optional type field `T` + one hex digit.
 */
module V3 {
  import opened Wrappers
  import opened Js
  import opened Common
  import opened HexText
  import opened Metadata
  import opened Cursor

  const VER: int := 3
  const FS: string := "F"
  const TS: string := "T"
  const FL: nat := 1
  const TL: nat := 1

  /** The format field is written when the full header is asked for or a format is set. */
  function EmitsFormat(format: int, full: bool): (r: bool)
    ensures full ==> r
    ensures !full ==> (r <==> format != Format.NONE.Id())
  {
    full || format != Format.NONE.Id()
  }

  /**
   * The type field is written only with a format field, and then when the
   * full header is asked for, or the type is not RAW and the format is not PHP.
   */
  function EmitsType(format: int, typ: int, full: bool): (r: bool)
    ensures r ==> EmitsFormat(format, full)
    ensures full ==> r
    ensures !full ==> (r <==> format != Format.NONE.Id() && format != Format.PHP.Id() && typ != Type.RAW.Id())
  {
    EmitsFormat(format, full) && (full || (typ != Type.RAW.Id() && format != Format.PHP.Id()))
  }

  /** `build(opts)`: the part of the header after the version marker. */
  function Build(format: int, typ: int, full: bool): (r: string)
    ensures r != "" <==> EmitsFormat(format, full)
    ensures EmitsFormat(format, full) ==> r[..1] == FS
    ensures 0 <= format < 16 && 0 <= typ < 16 ==>
      |r| == (if !EmitsFormat(format, full) then 0 else if EmitsType(format, typ, full) then 4 else 2)
    ensures 0 <= format < 16 && 0 <= typ < 16 && EmitsType(format, typ, full) ==> r[2..3] == TS
    ensures full ==> r == FS + Hex(format, FL) + TS + Hex(typ, TL)
  {
    if full || format != Format.NONE.Id() then
      FS + Hex(format, FL) +
      (if full || (typ != Type.RAW.Id() && format != Format.PHP.Id()) then TS + Hex(typ, TL) else "")
    else
      ""
  }

  /** What `parse` finds: the format, the type if a type field was present, and where the header ends. */
  datatype Fields = Fields(format: int, typ: Option<int>, end: int)

  /**
   * `parse` read positionally from `at`, the end of the version field: one
   * character for the tag `F`, one for the format, one for the tag `T`, one
   * for the type. No `F` means no serialization (format NONE).
   */
  function ParseAt(s: string, at: int): (r: Result<Fields, Error>)
    ensures r.Ok? ==> r.value.end in {at, at + 2, at + 4}
    ensures r.Ok? && r.value.end == at ==> r.value.format == Format.NONE.Id() && r.value.typ.None?
    ensures r.Ok? && r.value.end == at + 2 ==> r.value.typ.None?
    ensures r.Ok? && r.value.end == at + 4 ==> r.value.typ.Some?
    ensures Substring(s, at, at + 1) != FS ==> r == Ok(Fields(Format.NONE.Id(), None, at))
    ensures Substring(s, at, at + 1) == FS && r.Ok? ==> r.value.end != at
    ensures r.Ok? && r.value.end != at ==>
      Substring(s, at, at + 1) == FS && Dec(Substring(s, at + 1, at + 2)) == Some(r.value.format)
    ensures r.Ok? && r.value.end == at + 2 ==> Substring(s, at + 2, at + 3) != TS
    ensures r.Ok? && r.value.end == at + 4 ==>
      Substring(s, at + 2, at + 3) == TS && r.value.typ == Dec(Substring(s, at + 3, at + 4))
    ensures Substring(s, at, at + 1) == FS ==>
      (r.Err? <==> Dec(Substring(s, at + 1, at + 2)).None?
                   || (Substring(s, at + 2, at + 3) == TS && Dec(Substring(s, at + 3, at + 4)).None?))
  {
    if Substring(s, at, at + 1) != FS then Ok(Fields(Format.NONE.Id(), None, at))
    else
      var ftext := Substring(s, at + 1, at + 2);
      match Dec(ftext)
      case None => Err(MalformedHex(ftext))
      case Some(f) =>
        if Substring(s, at + 2, at + 3) != TS then Ok(Fields(f, None, at + 2))
        else
          var ttext := Substring(s, at + 3, at + 4);
          match Dec(ttext)
          case None => Err(MalformedHex(ttext))
          case Some(t) => Ok(Fields(f, Some(t), at + 4))
  }

  /**
   * `parse(state)`: advances the cursor field by field and records the
   * format (and the type, when its field is present) in the cursor's record.
   * A field that is not hex stops the parse with an error (JavaScript would
   * record NaN and go on).
   */
  method Parse(p: HeaderParser) returns (err: Option<Error>)
    modifies p, p.settings
    ensures var f := ParseAt(p.str, old(p.tpos));
      && (err.None? <==> f.Ok?)
      && (err.Some? ==> err.value == f.error)
      && (f.Ok? ==> p.settings.format == Some(f.value.format) && p.fpos == f.value.end)
      && (f.Ok? ==> p.settings.typ == if f.value.typ.Some? then f.value.typ else old(p.settings.typ))
    ensures p.settings.version == old(p.settings.version)
    ensures p.settings.content == old(p.settings.content) && p.settings.offset == old(p.settings.offset)
  {
    var settings := p.settings;
    p.Next(|FS|);
    if p.Get() == FS {
      p.Next(FL);
      var f := Dec(p.Get());
      if f.None? {
        return Some(MalformedHex(p.Get()));
      }
      settings.format := Some(f.value);
      p.Next(|TS|);
      if p.Get() == TS {
        p.Next(TL);
        var t := Dec(p.Get());
        if t.None? {
          return Some(MalformedHex(p.Get()));
        }
        settings.typ := Some(t.value);
        p.Next();
      }
    } else {
      settings.format := Some(Format.NONE.Id());
    }
    err := None;
  }

  /** The documented bare header: NONE gives `SV03`, and PHP gives `SV03F2` whatever the type. */
  lemma ShortExamples(t: Type)
    ensures Hv(VER) + Build(Format.NONE.Id(), Type.RAW.Id(), false) == "SV03"
    ensures Build(Format.NONE.Id(), t.Id(), false) == ""
    ensures Build(Format.PHP.Id(), t.Id(), false) == "F2"
  {
    assert Hex(VER, VL) == "03";
    SingleDigit(2);
  }

  /**
   * The documented examples with a JSON format field: RAW gives `F1`, ARR_OBJ
   * gives `F1T1`, and the full header of RAW gives `F1T0`.
   */
  lemma JsonExamples()
    ensures Build(Format.JSON.Id(), Type.RAW.Id(), false) == "F1"
    ensures Build(Format.JSON.Id(), Type.ARR_OBJ.Id(), false) == "F1T1"
    ensures Build(Format.JSON.Id(), Type.RAW.Id(), true) == "F1T0"
  {
    SingleDigit(1);
    SingleDigit(0);
    assert Hex(1, 1) == "1" && Hex(0, 1) == "0";
  }

  /**
   * Round trip: parsing a version-3 header (under any version number the rule
   * is registered for) followed by a payload recovers the
   * format, the type if its field was written, and the header's length as the
   * offset, provided the payload does not begin with the tag of a field that
   * was left out.
   */
  lemma RoundTrip(v: int, format: int, typ: int, full: bool, payload: string)
    requires 0 <= v < 256 && 0 <= format < 16 && 0 <= typ < 16
    requires !EmitsFormat(format, full) ==> !StartsWith(payload, FS)
    requires EmitsFormat(format, full) && !EmitsType(format, typ, full) ==> !StartsWith(payload, TS)
    ensures var h := Hv(v) + Build(format, typ, full);
      ParseAt(h + payload, |Hv(v)|) ==
        Ok(Fields(format, if EmitsType(format, typ, full) then Some(typ) else None, |h|))
  {
    HvLength(v);
    RoundTripAfter(Hv(v), format, typ, full, payload);
  }

  /** The round trip after any four-character version marker. */
  lemma RoundTripAfter(m: string, format: int, typ: int, full: bool, payload: string)
    requires |m| == 4 && 0 <= format < 16 && 0 <= typ < 16
    requires !EmitsFormat(format, full) ==> !StartsWith(payload, FS)
    requires EmitsFormat(format, full) && !EmitsType(format, typ, full) ==> !StartsWith(payload, TS)
    ensures var h := m + Build(format, typ, full);
      ParseAt(h + payload, 4) ==
        Ok(Fields(format, if EmitsType(format, typ, full) then Some(typ) else None, |h|))
  {
    SingleDigit(format);
    SingleDigit(typ);
    var b := Build(format, typ, full);
    var h := m + b;
    var s := h + payload;
    if !EmitsFormat(format, full) {
      assert s == m + payload;
      if |payload| > 0 {
        assert Substring(s, 4, 5) == payload[..1];
      } else {
        assert Substring(s, 4, 5) == "";
      }
    } else {
      assert b[..2] == FS + Hex(format, FL);
      SubstringOfPrefix(h, payload, 4, 5);
      SubstringOfPrefix(h, payload, 5, 6);
      assert Substring(s, 5, 6) == Hex(format, FL);
      if EmitsType(format, typ, full) {
        assert b == FS + Hex(format, FL) + TS + Hex(typ, TL);
        SubstringOfPrefix(h, payload, 6, 7);
        SubstringOfPrefix(h, payload, 7, 8);
        assert Substring(s, 7, 8) == Hex(typ, TL);
      } else {
        assert |h| == 6;
        if |payload| > 0 {
          assert Substring(s, 6, 7) == payload[..1];
        } else {
          assert Substring(s, 6, 7) == "";
        }
      }
    }
  }

  /**
   * The guard on the round trip cannot be dropped: whenever the payload does
   * begin with the tag of a field that was left out, the parse does not end
   * at the header's end, so it reads payload characters as header fields.
   */
  lemma RoundTripNeedsGuard(format: int, typ: int, full: bool, payload: string)
    requires 0 <= format < 16 && 0 <= typ < 16
    requires (!EmitsFormat(format, full) && StartsWith(payload, FS))
          || (EmitsFormat(format, full) && !EmitsType(format, typ, full) && StartsWith(payload, TS))
    ensures var h := Hv(VER) + Build(format, typ, full);
      var r := ParseAt(h + payload, |Hv(VER)|);
      !(r.Ok? && r.value.end == |h|)
  {
    HvLength(VER);
    SingleDigit(format);
    var b := Build(format, typ, full);
    var h := Hv(VER) + b;
    var s := h + payload;
    if !EmitsFormat(format, full) {
      assert s[4..5] == payload[..1];
      assert Substring(s, 4, 5) == FS;
    } else {
      assert b == FS + Hex(format, FL);
      SubstringOfPrefix(h, payload, 4, 5);
      SubstringOfPrefix(h, payload, 5, 6);
      assert s[6..7] == payload[..1];
      assert Substring(s, 6, 7) == TS;
    }
  }

  /** A concrete instance: a headerless-format string whose payload starts `F1` is read as JSON. */
  lemma ElidedFormatMisread()
    ensures ParseAt("SV03" + "F1xy", 4) == Ok(Fields(Format.JSON.Id(), None, 6))
  {
    SingleDigit(Format.JSON.Id());
    assert Hex(Format.JSON.Id(), FL) == "1";
    assert "SV03" + "F1xy" == "SV03F1xy";
    assert Substring("SV03F1xy", 4, 5) == "F";
    assert Substring("SV03F1xy", 5, 6) == "1";
    assert Substring("SV03F1xy", 6, 7) == "x";
  }

  /** `build` takes any number, but the fields are one digit wide: format 16 is written `F10`. */
  lemma WideFormatBuild()
    ensures Build(16, Type.ARR_OBJ.Id(), false) == "F10T1"
  {
    assert Base16(16) == "10" by {
      assert Base16(16) == Base16(1) + [Digit(0)];
    }
    assert Hex(16, FL) == "10" by {
      assert ToString16(16) == Base16(16);
    }
    SingleDigit(Type.ARR_OBJ.Id());
  }

  /**
   * What `build` writes for format 16 is misread: `parse` takes `F1` for a
   * JSON format field and the `0` for the start of the payload.
   */
  lemma WideFormatMisread()
    ensures ParseAt("SV03" + Build(16, Type.ARR_OBJ.Id(), false), 4) == Ok(Fields(Format.JSON.Id(), None, 6))
  {
    WideFormatBuild();
    var s := "SV03" + "F10T1";
    assert Substring(s, 4, 5) == FS by {
      assert s[4..5] == "F";
    }
    assert Substring(s, 5, 6) == "1" by {
      assert s[5..6] == "1";
    }
    assert Substring(s, 6, 7) != TS by {
      assert s[6..7] == "0";
    }
    assert Dec("1") == Some(1) by {
      assert DigitsValue("1") == DigitsValue("") * 16 + DigitValue('1');
    }
  }

  /**
   * The cursor is strictly positional: what `parse` finds depends only on
   * the four characters after the version field, never on anything beyond.
   */
  lemma ParseIsPositional(s: string, t: string, at: int)
    requires 0 <= at && at + 4 <= |s| && at + 4 <= |t| && s[at..at + 4] == t[at..at + 4]
    ensures ParseAt(s, at) == ParseAt(t, at)
  {
    assert forall i :: at <= i < at + 4 ==> s[i] == s[at..at + 4][i - at] == t[i];
    assert Substring(s, at, at + 1) == Substring(t, at, at + 1) by {
      assert s[at..at + 1] == t[at..at + 1];
    }
    assert Substring(s, at + 1, at + 2) == Substring(t, at + 1, at + 2) by {
      assert s[at + 1..at + 2] == t[at + 1..at + 2];
    }
    assert Substring(s, at + 2, at + 3) == Substring(t, at + 2, at + 3) by {
      assert s[at + 2..at + 3] == t[at + 2..at + 3];
    }
    assert Substring(s, at + 3, at + 4) == Substring(t, at + 3, at + 4) by {
      assert s[at + 3..at + 4] == t[at + 3..at + 4];
    }
  }
}
