/**
 * The header front end: the registry of version rules, `build(opts)`, which
 * writes the version marker and hands the rest to the rule registered for
 * the version, and `parse(string, settings)`, which reads the marker, looks
 * the version up and lets its rule read the remaining fields.
 */
module Header {
  import opened Wrappers
  import opened Js
  import opened Common
  import opened HexText
  import opened Config
  import opened Metadata
  import opened Cursor
  import V3

  /** The version rules this repository defines. */
  datatype Rule = V3Rule

  /**
   * Something handed to `addVersions`: either not an object at all, or an
   * object with a `ver` (a number or not), and `build`/`parse` members that
   * are or are not functions.
   */
  datatype Candidate = NotAnObject | RuleObject(ver: Option<int>, hasBuild: bool, hasParse: bool, rule: Rule)

  /** `isVersionRule(v)`. */
  function IsVersionRule(c: Candidate): (r: bool)
    ensures r ==> c.RuleObject? && c.ver.Some?
    ensures c.RuleObject? && c.ver.Some? ==> (r <==> c.hasBuild && c.hasParse)
  {
    c.RuleObject? && c.ver.Some? && c.hasBuild && c.hasParse
  }

  /** The version-3 module as a candidate. */
  const V3Candidate: Candidate := RuleObject(Some(V3.VER), true, true, V3Rule)

  /** The versions the valid candidates before the first invalid one announce. */
  function RegisteredVersions(cs: seq<Candidate>): set<int>
  {
    if cs == [] || !IsVersionRule(cs[0]) then {} else {cs[0].ver.value} + RegisteredVersions(cs[1..])
  }

  /**
   * `addVersions(...cs)` on the registry `vr`: candidates are registered in
   * order, a later one replacing an earlier one of the same version, until
   * the first one that is not a version rule, which raises a TypeError;
   * registrations made before it stay.
   */
  function RegisterAll(vr: map<int, Rule>, cs: seq<Candidate>): (r: (map<int, Rule>, Option<Error>))
    decreases |cs|
    ensures r.1.None? <==> forall i :: 0 <= i < |cs| ==> IsVersionRule(cs[i])
    ensures r.1.Some? ==> r.1.value == InvalidVersionRule
    ensures r.0.Keys == vr.Keys + RegisteredVersions(cs)
    ensures forall v :: v in vr && v !in RegisteredVersions(cs) ==> r.0[v] == vr[v]
  {
    if cs == [] then (vr, None)
    else if !IsVersionRule(cs[0]) then (vr, Some(InvalidVersionRule))
    else
      var r := RegisterAll(vr[cs[0].ver.value := cs[0].rule], cs[1..]);
      assert forall i :: 1 <= i < |cs| ==> cs[i] == cs[1..][i - 1];
      r
  }

  /** The registry the module sets up by registering the version-3 rule. */
  const VR: map<int, Rule> := map[V3.VER := V3Rule]

  lemma ModuleRegistry()
    ensures RegisterAll(map[], [V3Candidate]) == (VR, None)
  {
    assert [V3Candidate][1..] == [];
  }

  /**
   * One candidate alone: a version rule is registered under its `ver`,
   * replacing whatever that version held, and anything else raises
   * "Invalid version rule" and leaves the registry as it was.
   */
  lemma SingleCandidate(vr: map<int, Rule>, c: Candidate)
    ensures RegisterAll(vr, [c]) ==
      if IsVersionRule(c) then (vr[c.ver.value := c.rule], None) else (vr, Some(InvalidVersionRule))
  {
    assert [c][1..] == [];
  }

  /** The mutable registry `VR`. */
  class Registry {
    var rules: map<int, Rule>

    constructor ()
      ensures rules == map[]
    {
      rules := map[];
    }

    /** `addVersions(...cs)`. */
    method AddVersions(cs: seq<Candidate>) returns (err: Option<Error>)
      modifies this
      ensures (rules, err) == RegisterAll(old(rules), cs)
    {
      var i := 0;
      while i < |cs|
        invariant 0 <= i <= |cs|
        invariant RegisterAll(rules, cs[i..]) == RegisterAll(old(rules), cs)
      {
        if !IsVersionRule(cs[i]) {
          return Some(InvalidVersionRule);
        }
        assert cs[i..][1..] == cs[i + 1..];
        rules := rules[cs[i].ver.value := cs[i].rule];
        i := i + 1;
      }
      err := None;
    }
  }

  /** `opts.version ?? VERSION`. */
  function VersionOf(opts: Options): (r: int)
    ensures opts.version.Some? ==> r == opts.version.value
    ensures opts.version.None? ==> r == VERSION
  {
    opts.version.GetOr(VERSION)
  }

  /**
   * Options that leave the version unset are built as the current version:
   * `build` succeeds and writes the `SV03` marker.
   */
  lemma DefaultVersion(opts: Options)
    requires opts.version.None? && opts.format.Some? && opts.typ.Some?
    ensures VersionOf(opts) == VERSION
    ensures Build(VR, opts).Ok? && StartsWith(Build(VR, opts).value, "SV03")
  {
    assert Hex(3, VL) == "03";
    assert Hv(3) == "SV03";
  }

  /** The `build` member of a rule. */
  function RuleBuild(rule: Rule, format: int, typ: int, full: bool): string {
    match rule
    case V3Rule => V3.Build(format, typ, full)
  }

  /**
   * `build(opts)`: format and type must be numbers, the version (default
   * VERSION) must be registered; the header is the version marker followed
   * by what the version's rule writes.
   */
  function Build(vr: map<int, Rule>, opts: Options): (r: Result<string, Error>)
    ensures r.Ok? <==> opts.format.Some? && opts.typ.Some? && VersionOf(opts) in vr
    ensures opts.format.None? ==> r == Err(NotANumber("format"))
    ensures opts.format.Some? && opts.typ.None? ==> r == Err(NotANumber("type"))
    ensures opts.format.Some? && opts.typ.Some? && VersionOf(opts) !in vr ==>
      r == Err(UnsupportedVersion(opts.version))
    ensures r.Ok? ==> StartsWith(r.value, Hv(VersionOf(opts)))
    ensures r.Ok? ==> (r.value[|Hv(VersionOf(opts))|..] ==
      RuleBuild(vr[VersionOf(opts)], opts.format.value, opts.typ.value, opts.fullHeader.GetOr(false)))
  {
    if opts.format.None? then Err(NotANumber("format"))
    else if opts.typ.None? then Err(NotANumber("type"))
    else
      var ver := VersionOf(opts);
      if ver in vr then
        var h := Hv(ver);
        Ok(h + RuleBuild(vr[ver], opts.format.value, opts.typ.value, opts.fullHeader.GetOr(false)))
      else Err(UnsupportedVersion(opts.version))
  }

  /** What `parse` leaves in the settings record: format, type, version and payload offset. */
  datatype Parsed = Parsed(format: Option<int>, typ: Option<int>, version: int, offset: int)

  /** The `parse` member of a rule, read positionally from the end of the version marker. */
  function RuleParse(rule: Rule, s: string, at: int): Result<V3.Fields, Error> {
    match rule
    case V3Rule => V3.ParseAt(s, at)
  }

  /**
   * `parse(s, settings)` on a record holding `init`: without the marker `SV`
   * at the start nothing changes and the offset is 0; with it, the two
   * characters after `SV` must be a valid version, registered in `vr`, and the
   * version's rule then reads the fields; the offset is where the header ends.
   */
  function ParseSpec(vr: map<int, Rule>, s: string, init: Parsed): (r: Result<Parsed, Error>)
    ensures !StartsWith(s, VS) ==> r == Ok(init.(offset := 0))
    ensures StartsWith(s, VS) && r.Ok? ==>
      r.value.version in vr && 0 <= r.value.version <= 255 && r.value.format.Some?
    ensures StartsWith(s, VS) && r.Ok? ==> Dec(Substring(s, |VS|, |VS| + VL)) == Some(r.value.version)
  {
    if Substring(s, 0, |VS|) != VS then Ok(init.(offset := 0))
    else
      var v :- CheckVersion(Str(Substring(s, |VS|, |VS| + VL)));
      if v !in vr then Err(UnsupportedVersion(Some(v)))
      else
        Recorded(RuleParse(vr[v], s, |VS| + VL), v, init)
  }

  /** The record after a rule has read its fields, or the rule's error. */
  function Recorded(fields: Result<V3.Fields, Error>, v: int, init: Parsed): (r: Result<Parsed, Error>)
    ensures r.Ok? <==> fields.Ok?
    ensures r.Ok? ==> r.value.format == Some(fields.value.format) && r.value.version == v
    ensures fields.Err? ==> r == Err(fields.error)
    ensures r.Ok? ==>
      r.value.offset == fields.value.end
      && r.value.typ == (if fields.value.typ.Some? then fields.value.typ else init.typ)
  {
    match fields
    case Err(e) => Err(e)
    case Ok(f) => Ok(Parsed(Some(f.format), if f.typ.Some? then f.typ else init.typ, v, f.end))
  }

  /** The record a missing `settings` argument is replaced by: NONE, RAW, version 0. */
  const FreshRecord: Parsed := Parsed(Some(Format.NONE.Id()), Some(Type.RAW.Id()), 0, 0)

  /**
   * `parse(s, settings)`. A null `settings` stands for any argument that is
   * not a Settings record, which is replaced by a fresh one. The version
   * found is looked up by its numeric value (see `ParseAsWritten`).
   */
  method Parse(vr: map<int, Rule>, s: string, settings: Settings?) returns (r: Result<Settings, Error>)
    modifies settings
    ensures var init := if settings == null then FreshRecord
                        else old(Parsed(settings.format, settings.typ, settings.version, settings.offset));
      var spec := ParseSpec(vr, s, init);
      && (r.Ok? <==> spec.Ok?)
      && (r.Err? ==> r.error == spec.error)
      && (r.Ok? ==> r.value.format == spec.value.format && r.value.typ == spec.value.typ
                    && r.value.version == spec.value.version && r.value.offset == spec.value.offset
                    && r.value.content == Str(s))
    ensures r.Ok? && settings != null ==> r.value == settings
    ensures r.Err? && settings != null ==>
      settings.content == old(settings.content) && settings.offset == old(settings.offset)
    ensures r.Ok? && settings == null ==> fresh(r.value) && r.value.prev == null
    ensures r.Ok? && (settings == null || old(0 <= settings.version <= 255)) ==> r.value.Valid()
  {
    var st := settings;
    if st == null {
      st := new Settings(Some(Format.NONE.Id()), Some(Type.RAW.Id()), null);
    }
    var parser := new HeaderParser(s, st, |VS|);
    if parser.Get() == VS {
      parser.Next(VL);
      var e := st.SetVersion(Str(parser.Get()));
      if e.Some? {
        return Err(e.value);
      }
      var ver := st.version;
      if ver !in vr {
        return Err(UnsupportedVersion(Some(ver)));
      }
      match vr[ver]
      case V3Rule =>
        var e2 := V3.Parse(parser);
        if e2.Some? {
          return Err(e2.value);
        }
    }
    var e3 := st.SetValue(Str(s), parser.fpos);
    r := Ok(st);
  }

  /**
   * `parse` as written: after storing the version it looks up
   * `settings.ver`, a property Settings does not have. No rule is ever
   * registered under `undefined`, so every string that starts with the
   * marker ends in "Unsupported version: undefined".
   */
  function ParseAsWritten(vr: map<int, Rule>, s: string, init: Parsed): (r: Result<Parsed, Error>)
    ensures StartsWith(s, VS) ==> r.Err?
    ensures !StartsWith(s, VS) ==> r == Ok(init.(offset := 0)) && r == ParseSpec(vr, s, init)
  {
    if Substring(s, 0, |VS|) != VS then Ok(init.(offset := 0))
    else
      var v :- CheckVersion(Str(Substring(s, |VS|, |VS| + VL)));
      Err(UnsupportedVersion(None))
  }

  /** As written, no string with a version marker can be parsed, under any registry. */
  lemma AsWrittenRejectsEveryHeader(vr: map<int, Rule>, s: string, init: Parsed)
    requires StartsWith(s, VS)
    ensures ParseAsWritten(vr, s, init).Err?
    ensures ParseSpec(vr, s, init).Ok? ==> ParseAsWritten(vr, s, init) == Err(UnsupportedVersion(None))
  {
  }

  /** The bare version-3 header `SV03` is the smallest input that shows the defect. */
  lemma AsWrittenRejectsSV03(init: Parsed)
    ensures ParseAsWritten(VR, "SV03", init) == Err(UnsupportedVersion(None))
    ensures ParseSpec(VR, "SV03", init) == Ok(Parsed(Some(Format.NONE.Id()), init.typ, 3, 4))
  {
    assert Substring("SV03", 0, 2) == "SV";
    assert Substring("SV03", 2, 4) == "03";
    VersionGetSet(3);
    assert Hex(3, VL) == "03";
    assert Substring("SV03", 4, 5) == "";
  }

  /**
   * Round trip of the header front end: whatever `build` writes for a
   * version registered to the version-3 rule, `parse` of that header
   * followed by a payload recovers the format, the version, and the type
   * when its field was written (the record's own type otherwise), and
   * places the payload right after the header; provided the payload does not
   * begin with the tag of a field that was left out.
   */
  lemma BuildThenParse(vr: map<int, Rule>, opts: Options, payload: string, init: Parsed)
    requires opts.format.Some? && opts.typ.Some?
    requires var v := VersionOf(opts); v in vr && vr[v] == V3Rule && 0 <= v < 256
    requires 0 <= opts.format.value < 16 && 0 <= opts.typ.value < 16
    requires var f, t, full := opts.format.value, opts.typ.value, opts.fullHeader.GetOr(false);
      && (!V3.EmitsFormat(f, full) ==> !StartsWith(payload, V3.FS))
      && (V3.EmitsFormat(f, full) && !V3.EmitsType(f, t, full) ==> !StartsWith(payload, V3.TS))
    ensures Build(vr, opts).Ok?
    ensures var h := Build(vr, opts).value;
      var f, t, full := opts.format.value, opts.typ.value, opts.fullHeader.GetOr(false);
      ParseSpec(vr, h + payload, init) ==
        Ok(Parsed(Some(f), if V3.EmitsType(f, t, full) then Some(t) else init.typ, VersionOf(opts), |h|))
  {
    var v, f, t, full := VersionOf(opts), opts.format.value, opts.typ.value, opts.fullHeader.GetOr(false);
    assert Build(vr, opts).value == Hv(v) + V3.Build(f, t, full);
    MarkerRoundTrip(vr, v, f, t, full, payload, init);
  }

  /** The round trip with the version marker spelled out. */
  lemma MarkerRoundTrip(vr: map<int, Rule>, v: int, f: int, t: int, full: bool, payload: string, init: Parsed)
    requires 0 <= v < 256 && v in vr && vr[v] == V3Rule && 0 <= f < 16 && 0 <= t < 16
    requires !V3.EmitsFormat(f, full) ==> !StartsWith(payload, V3.FS)
    requires V3.EmitsFormat(f, full) && !V3.EmitsType(f, t, full) ==> !StartsWith(payload, V3.TS)
    ensures var h := Hv(v) + V3.Build(f, t, full);
      ParseSpec(vr, h + payload, init) ==
        Ok(Parsed(Some(f), if V3.EmitsType(f, t, full) then Some(t) else init.typ, v, |h|))
  {
    var h := Hv(v) + V3.Build(f, t, full);
    HvLength(v);
    V3.RoundTrip(v, f, t, full, payload);
    AfterHeader(vr, v, h, payload, init);
  }

  /** `AfterMarker` for a string that is a header followed by a payload. */
  lemma AfterHeader(vr: map<int, Rule>, v: int, h: string, payload: string, init: Parsed)
    requires 0 <= v < 256 && v in vr && vr[v] == V3Rule && StartsWith(h, Hv(v))
    ensures ParseSpec(vr, h + payload, init) == Recorded(V3.ParseAt(h + payload, |VS| + VL), v, init)
  {
    HvLength(v);
    assert StartsWith(h + payload, Hv(v)) by {
      assert (h + payload)[..4] == h[..4];
    }
    AfterMarker(vr, v, h + payload, init);
  }

  /** With a registered version-3 marker in front, `parse` is the rule's positional read after it. */
  lemma AfterMarker(vr: map<int, Rule>, v: int, s: string, init: Parsed)
    requires 0 <= v < 256 && v in vr && vr[v] == V3Rule && StartsWith(s, Hv(v))
    ensures ParseSpec(vr, s, init) == Recorded(V3.ParseAt(s, |VS| + VL), v, init)
  {
    HvLength(v);
    VersionGetSet(v);
    SubstringOfStart(s, Hv(v), 0, 2);
    SubstringOfStart(s, Hv(v), 2, 4);
    assert Hv(v)[2..4] == Hex(v, VL);
  }

  /**
   * `makeHeader(full)` as written calls `build(this.format, this.type,
   * this.$version, full)`: `build` takes the record's format, a number or
   * undefined, as its options object, and neither has any option key. So
   * `build` sees no options at all.
   */
  function MakeHeaderAsWritten(vr: map<int, Rule>, format: Option<int>, typ: Option<int>, version: int, full: bool): (r: Result<string, Error>)
    ensures r == Err(NotANumber("format"))
  {
    Build(vr, NoOptions)
  }

  /**
   * The `header` getter's fallback is `makeHeader`: when the stored value is
   * loosely `''` or the offset is 0, the getter fails exactly as the
   * as-written `makeHeader` of the record does.
   */
  lemma HeaderGetterFallback(vr: map<int, Rule>, content: Value, offset: int, format: Option<int>, typ: Option<int>, version: int, full: bool)
    requires LooselyEmpty(content) || offset == 0
    ensures HeaderOf(content, offset) == MakeHeaderAsWritten(vr, format, typ, version, full)
    ensures HeaderOf(content, offset).Err? && RecordHeader(vr, format, typ, version, full).Ok? <==>
      format.Some? && typ.Some? && version in vr
  {
  }

  /**
   * The header of a Settings record, as `makeHeader` evidently means it:
   * `build` of the record's format, type and version.
   */
  function RecordHeader(vr: map<int, Rule>, format: Option<int>, typ: Option<int>, version: int, full: bool): (r: Result<string, Error>)
    ensures r.Ok? <==> format.Some? && typ.Some? && version in vr
    ensures r.Ok? ==> StartsWith(r.value, Hv(version))
  {
    Build(vr, NoOptions.(format := format, typ := typ, version := Some(version), fullHeader := Some(full)))
  }

  /**
   * The intended `makeHeader` inverts `parse`: for a record holding a
   * version-3 format and type, parsing its header recovers them, with the
   * payload offset at the end of the header.
   */
  lemma RecordHeaderParses(format: int, typ: int, init: Parsed)
    requires 0 <= format < 16 && 0 <= typ < 16
    ensures RecordHeader(VR, Some(format), Some(typ), V3.VER, true).Ok?
    ensures var h := RecordHeader(VR, Some(format), Some(typ), V3.VER, true).value;
      ParseSpec(VR, h, init) == Ok(Parsed(Some(format), Some(typ), V3.VER, |h|))
  {
    var opts := NoOptions.(format := Some(format), typ := Some(typ), version := Some(V3.VER), fullHeader := Some(true));
    BuildThenParse(VR, opts, "", init);
    assert Build(VR, opts).value + "" == Build(VR, opts).value;
  }
}
