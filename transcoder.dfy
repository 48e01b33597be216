/**
 * The transcoder: the `Data64` orchestrator and the pipeline `State` it
 * drives. `encode` optionally serializes the data with the configured
 * format's plugin and then writes a header followed by the URL-safe Base64
 * payload; `decode` parses the header and dispatches on what the header
 * says, either straight to the Base64 decoder or through the plugin of the
 * header's format, or, for a string without a header, of the instance's.
 *
 * The Base64 library and the serializers the plugins wrap are not part of
 * this model: they are function-valued parameters (`Library`, `Codecs`),
 * and whatever a lemma needs of them is one of its hypotheses.
 *
 * `State` and `Data64` share one module because each calls the other
 * (`State.decode` is `parent.decodeValue(this)`).
 */
module Transcoder {
  import opened Wrappers
  import opened Js
  import opened Common
  import opened HexText
  import opened Config
  import opened Metadata
  import opened Profiles
  import Header
  import V3

  /** What a pipeline stage holds: a plain value, or a metadata record. */
  datatype Data = Plain(v: Value) | Record(s: Settings)

  /** What `getState` is handed: a State, which it uses as it is, or anything else. */
  datatype Input = Given(d: Data) | Existing(st: State)

  /** What `decode` returns: the decoded value, or the State when `wantState` is set. */
  datatype Outcome = Returned(v: Value) | StateOf(st: State)

  /**
   * The foreign functions the transcoder calls: the URL-safe Base64 library
   * (`encodeText`, `fromBytes`, `urlize`, `deurlize`, `toBytes`,
   * `decodeText`) and `toString()` of a value that is neither undefined nor null.
   */
  datatype Library = Library(
    encodeText: (string, Options) -> string,
    fromBytes: seq<byte> -> string,
    urlize: (string, Options) -> string,
    deurlize: string -> string,
    toBytes: string -> seq<byte>,
    decodeText: (string, Options) -> string,
    toText: Value -> string)

  /**
   * What each plugin's serializer does: `encode` maps the state's data and
   * options to a value, `decode` maps the decoded payload and the options to
   * a value; either may throw.
   */
  datatype Codecs = Codecs(
    encode: (Plugin, Data, Options) -> Result<Value, Error>,
    decode: (Plugin, Value, Options) -> Result<Value, Error>)

  /** `DEFAULT_OPTS`. */
  const DEFAULT_OPTS: Options := NoOptions.(
    format := Some(JSON.Id()), typ := Some(ARR_OBJ.Id()), fullHeader := Some(false),
    encodeStrings := Some(false), url := Some(true), version := Some(VERSION))

  /** `toString()` of a Settings record, which defines none of its own. */
  const OBJECT_TEXT: string := "[object Object]"

  /** The record `parseHeader` starts from: format and type unset, version 0. */
  const UNSET: Header.Parsed := Header.Parsed(None, None, 0, 0)

  /** An option read as a condition (`if (opts.x)`): only a `true` value is set. */
  predicate Flag(o: Option<bool>) {
    o == Some(true)
  }

  // ---------------------------------------------------------------------
  // Specifications of the operations, as functions of their inputs.
  // ---------------------------------------------------------------------

  /** The payload `encodeValue` writes for a state's data. */
  function Payload(lib: Library, d: Data, opts: Options): (r: Result<string, Error>)
    ensures r.Err? <==> d.Plain? && (d.v.Undefined? || d.v.Null?)
    ensures r.Err? ==> r.error == NoToString
    ensures d.Plain? && d.v.Str? ==> r == Ok(lib.encodeText(d.v.s, opts))
    ensures d.Plain? && d.v.ArrayBuffer? && !Flag(opts.url) ==> r == Ok(lib.fromBytes(d.v.buffer))
    ensures d.Plain? && d.v.ArrayBuffer? && Flag(opts.url) ==> r == Ok(lib.urlize(lib.fromBytes(d.v.buffer), opts))
    ensures d.Plain? && !(d.v.Str? || d.v.ArrayBuffer? || d.v.Undefined? || d.v.Null?) ==>
      r == Ok(lib.encodeText(lib.toText(d.v), opts))
    ensures d.Record? ==> r == Ok(lib.encodeText(OBJECT_TEXT, opts))
  {
    match d
    case Record(_) => Ok(lib.encodeText(OBJECT_TEXT, opts))
    case Plain(Str(s)) => Ok(lib.encodeText(s, opts))
    case Plain(ArrayBuffer(b)) =>
      var t := lib.fromBytes(b);
      Ok(if Flag(opts.url) then lib.urlize(t, opts) else t)
    case Plain(v) =>
      if v.Undefined? || v.Null? then Err(NoToString) else Ok(lib.encodeText(lib.toText(v), opts))
  }

  /** `encodeValue`: the header `build` writes for the options, then the payload. */
  function EncodeValueSpec(lib: Library, d: Data, opts: Options): (r: Result<string, Error>)
    ensures r.Ok? <==> Header.Build(Header.VR, opts).Ok? && Payload(lib, d, opts).Ok?
    ensures r.Ok? ==> r.value == Header.Build(Header.VR, opts).value + Payload(lib, d, opts).value
    ensures Header.Build(Header.VR, opts).Err? ==> r == Err(Header.Build(Header.VR, opts).error)
  {
    var h :- Header.Build(Header.VR, opts);
    var p :- Payload(lib, d, opts);
    Ok(h + p)
  }

  /**
   * The format `getFormat(fmt = this.options.format)` looks up: the argument,
   * or the instance's own format when the argument is undefined.
   */
  function Chosen(dflt: Option<int>, fmt: Option<int>): (r: Option<int>)
    ensures fmt.Some? ==> r == fmt
    ensures fmt.None? ==> r == dflt
  {
    if fmt.Some? then fmt else dflt
  }

  /** Whether `encode` runs the plugin: a format is set and strings are to be serialized or the data is not one. */
  function RunsPlugin(opts: Options, argIsString: bool): (r: bool)
    ensures opts.format == Some(Format.NONE.Id()) ==> !r
    ensures !argIsString ==> (r <==> opts.format != Some(Format.NONE.Id()))
    ensures argIsString ==> (r <==> opts.format != Some(Format.NONE.Id()) && opts.encodeStrings == Some(true))
  {
    opts.format != Some(Format.NONE.Id()) && (Flag(opts.encodeStrings) || !argIsString)
  }

  /**
   * `encode`: the plugin's result replaces the data only when it is truthy.
   * (The successor of a Settings record is a Settings record again, whose
   * payload text is the same, so the record case keeps `d`.)
   */
  function EncodeSpec(lib: Library, codecs: Codecs, formats: Table, dflt: Option<int>, opts: Options, d: Data, argIsString: bool): (r: Result<string, Error>)
    ensures r.Ok? ==> Header.Build(Header.VR, opts).Ok? && StartsWith(r.value, Header.Build(Header.VR, opts).value)
    ensures !RunsPlugin(opts, argIsString) ==> r == EncodeValueSpec(lib, d, opts)
    ensures var f := Chosen(dflt, opts.format);
      RunsPlugin(opts, argIsString) && Resolve(formats, f).Err? ==> r == Err(Resolve(formats, f).error)
    ensures var f := Chosen(dflt, opts.format);
      RunsPlugin(opts, argIsString) && Resolve(formats, f).Ok? && d.Plain? ==>
      var rv := codecs.encode(Resolve(formats, f).value, d, opts);
      r == if rv.Err? then Err(rv.error) else EncodeValueSpec(lib, if Truthy(rv.value) then Plain(rv.value) else d, opts)
  {
    if RunsPlugin(opts, argIsString) then
      var plugin :- Resolve(formats, Chosen(dflt, opts.format));
      var rv :- codecs.encode(plugin, d, opts);
      EncodeValueSpec(lib, if Truthy(rv) && d.Plain? then Plain(rv) else d, opts)
    else
      EncodeValueSpec(lib, d, opts)
  }

  /** `decodeValue` on a payload: bytes when `wantBytes` is set, text otherwise. */
  function DecodePayload(lib: Library, payload: Value, opts: Options): (r: Result<Value, Error>)
    ensures r.Err? <==> !payload.Str?
    ensures payload.Str? && !Flag(opts.wantBytes) ==> r == Ok(Str(lib.decodeText(payload.s, opts)))
    ensures payload.Str? && Flag(opts.wantBytes) && opts.url != Some(false) ==>
      r == Ok(Uint8Array(lib.toBytes(lib.deurlize(payload.s))))
    ensures payload.Str? && Flag(opts.wantBytes) && opts.url == Some(false) ==>
      r == Ok(Uint8Array(lib.toBytes(payload.s)))
  {
    if !payload.Str? then Err(PayloadNotString)
    else if Flag(opts.wantBytes) then
      var s := if opts.url != Some(false) then lib.deurlize(payload.s) else payload.s;
      Ok(Uint8Array(lib.toBytes(s)))
    else Ok(Str(lib.decodeText(payload.s, opts)))
  }

  /** `decodeValue` on what a Settings record stores: the payload after the offset. */
  function DecodeStored(lib: Library, content: Value, offset: int, opts: Options): (r: Result<Value, Error>)
    ensures offset == 0 ==> r == DecodePayload(lib, content, opts)
    ensures content.Str? && 0 <= offset <= |content.s| ==> r == DecodePayload(lib, Str(content.s[offset..]), opts)
  {
    var payload :- ValueOf(content, offset);
    DecodePayload(lib, payload, opts)
  }

  /** `decodeValue` on a state holding `d`: a string is parsed first; anything but a string or a record is refused. */
  function DecodeData(lib: Library, d: Data, opts: Options): (r: Result<Value, Error>)
    reads if d.Record? then {d.s} else {}
    ensures d.Plain? && !d.v.Str? ==> r == Err(InvalidStateData)
    ensures d.Record? ==> r == DecodeStored(lib, d.s.content, d.s.offset, opts)
    ensures d.Plain? && d.v.Str? && Header.ParseSpec(Header.VR, d.v.s, UNSET).Err? ==>
      r == Err(Header.ParseSpec(Header.VR, d.v.s, UNSET).error)
  {
    match d
    case Record(x) => DecodeStored(lib, x.content, x.offset, opts)
    case Plain(Str(s)) =>
      var p :- Header.ParseSpec(Header.VR, s, UNSET);
      DecodeStored(lib, Str(s), p.offset, opts)
    case Plain(_) => Err(InvalidStateData)
  }

  /** `byteArray.buffer`. */
  function Buffer(v: Value): Value {
    match v
    case Uint8Array(b) => ArrayBuffer(b)
    case _ => Undefined
  }

  /** The options a plugin's `decode` runs under: the UBJSON plugin sets `wantBytes` first. */
  function PluginOpts(plugin: Plugin, opts: Options): (o: Options)
    ensures plugin == UbjsonPlugin ==> Flag(o.wantBytes)
    ensures plugin != UbjsonPlugin ==> o == opts
    ensures o.wantState == opts.wantState && o.url == opts.url
  {
    if plugin == UbjsonPlugin then opts.(wantBytes := Some(true)) else opts
  }

  /** A plugin's `decode(state)` on a state whose record stores `content` and `offset`. */
  function ViaPlugin(lib: Library, codecs: Codecs, plugin: Plugin, content: Value, offset: int, opts: Options): (r: Result<Value, Error>)
    ensures !content.Str? ==> r.Err?
    ensures content.Str? && 0 <= offset <= |content.s| && plugin != UbjsonPlugin && !Flag(opts.wantBytes) ==>
      r == codecs.decode(plugin, Str(lib.decodeText(content.s[offset..], opts)), opts)
  {
    var o := PluginOpts(plugin, opts);
    var raw :- DecodeStored(lib, content, offset, o);
    codecs.decode(plugin, if plugin == UbjsonPlugin then Buffer(raw) else raw, o)
  }

  /** Where `decode` sends a parsed header. */
  datatype Route = Direct | Through(plugin: Plugin)

  /**
   * The dispatch of `decode`: straight to the Base64 decoder when the parsed
   * format is NONE or the parsed type is RAW, otherwise through the plugin of
   * the parsed format. A format or type the header left unset is neither;
   * an unset format is looked up as the instance's format `dflt`.
   */
  function RouteOf(formats: Table, dflt: Option<int>, p: Header.Parsed): (r: Result<Route, Error>)
    ensures p.format == Some(Format.NONE.Id()) || p.typ == Some(Type.RAW.Id()) ==> r == Ok(Direct)
    ensures var f := Chosen(dflt, p.format);
      p.format != Some(Format.NONE.Id()) && p.typ != Some(Type.RAW.Id()) ==>
      (r.Ok? <==> Resolve(formats, f).Ok?) && (r.Ok? ==> r.value == Through(Resolve(formats, f).value))
      && (r.Err? ==> r.error == Resolve(formats, f).error)
  {
    if p.format == Some(Format.NONE.Id()) || p.typ == Some(Type.RAW.Id()) then Ok(Direct)
    else
      var plugin :- Resolve(formats, Chosen(dflt, p.format));
      Ok(Through(plugin))
  }

  /**
   * `decode(s)` on an instance whose format is `dflt`, under the merged
   * options `opts`: the value it computes, before `wantState` is looked at.
   * A header that fails to parse fails the decode; a string without the
   * marker leaves the format unset, so it goes through the plugin of the
   * instance's format, payload and all.
   */
  function DecodeSpec(lib: Library, codecs: Codecs, formats: Table, dflt: Option<int>, opts: Options, s: string): (r: Result<Value, Error>)
    ensures Header.ParseSpec(Header.VR, s, UNSET).Err? ==> r == Err(Header.ParseSpec(Header.VR, s, UNSET).error)
    ensures !StartsWith(s, VS) && Resolve(formats, dflt).Err? ==> r == Err(Resolve(formats, dflt).error)
    ensures !StartsWith(s, VS) && Resolve(formats, dflt).Ok? ==>
      r == ViaPlugin(lib, codecs, Resolve(formats, dflt).value, Str(s), 0, opts)
  {
    var p :- Header.ParseSpec(Header.VR, s, UNSET);
    var route :- RouteOf(formats, dflt, p);
    match route
    case Direct => DecodeStored(lib, Str(s), p.offset, opts)
    case Through(plugin) => ViaPlugin(lib, codecs, plugin, Str(s), p.offset, opts)
  }

  /** A record holds what `parse` read from `s`: the parsed fields, with `s` itself as its stored string. */
  predicate Holds(rec: Settings, p: Header.Parsed, s: string)
    reads rec
  {
    rec.format == p.format && rec.typ == p.typ && rec.version == p.version
    && rec.offset == p.offset && rec.content == Str(s)
  }

  /** `d` is the successor of record `prev` holding `v`: the format and type carry over, the rest starts afresh. */
  predicate Succeeds(d: Data, prev: Settings, v: Value)
    reads if d.Record? then {d.s, prev} else {prev}
  {
    d.Record? && d.s.prev == prev && d.s.format == prev.format && d.s.typ == prev.typ
    && d.s.version == 0 && d.s.content == v && d.s.offset == 0
  }

  /** What `encode` hands to `update`: the plugin's result, when the plugin runs, succeeds and returns something truthy. */
  function PluginResult(codecs: Codecs, formats: Table, dflt: Option<int>, opts: Options, d: Data, argIsString: bool): Option<Value> {
    if !RunsPlugin(opts, argIsString) then None
    else match Resolve(formats, Chosen(dflt, opts.format))
      case Err(_) => None
      case Ok(plugin) =>
        match codecs.encode(plugin, d, opts)
        case Err(_) => None
        case Ok(rv) => if Truthy(rv) then Some(rv) else None
  }

  /** `detectHeader(s)`: the first version in `vs` whose marker begins `s`, or 0. */
  function Detected(vs: seq<int>, s: string): (r: int)
    ensures r != 0 ==> r in vs && StartsWith(s, Hv(r))
    ensures r != 0 ==> exists i :: 0 <= i < |vs| && vs[i] == r && forall j :: 0 <= j < i ==> !StartsWith(s, Hv(vs[j]))
    ensures r == 0 && 0 !in vs ==> forall v :: v in vs ==> !StartsWith(s, Hv(v))
  {
    if vs == [] then 0
    else if StartsWith(s, Hv(vs[0])) then vs[0]
    else
      var r := Detected(vs[1..], s);
      assert forall j :: 1 <= j < |vs| ==> vs[j] == vs[1..][j - 1];
      assert r != 0 ==> exists i :: 0 <= i < |vs| && vs[i] == r && forall j :: 0 <= j < i ==> !StartsWith(s, Hv(vs[j])) by {
        if r != 0 {
          var i :| 0 <= i < |vs[1..]| && vs[1..][i] == r && forall j :: 0 <= j < i ==> !StartsWith(s, Hv(vs[1..][j]));
          assert vs[i + 1] == r;
        }
      }
      r
  }

  // ---------------------------------------------------------------------
  // The pipeline state.
  // ---------------------------------------------------------------------

  class State {
    const parent: Data64
    var data: Data
    var opts: Options
    var history: seq<Data>   // the `old` array

    constructor (parent: Data64, data: Data, opts: Options)
      ensures this.parent == parent && this.data == data && this.opts == opts
      ensures history == []
    {
      this.parent := parent;
      this.data := data;
      this.opts := opts;
      history := [];
    }

    /**
     * `update(newData, newLen)`: the current data is appended to the
     * history, then replaced: a Settings record by its successor holding
     * `newData`, anything else by `newData` itself.
     */
    method Update(newData: Value, newLen: int := 0) returns (r: Result<State, Error>)
      modifies this
      ensures history == old(history) + [old(data)]
      ensures opts == old(opts)
      ensures old(data).Plain? ==> data == Plain(newData) && r == Ok(this)
      ensures old(data).Record? ==> (r.Err? <==> newLen > 0 && !newData.Str?)
      ensures old(data).Record? && r.Err? ==> r.error == NotAString && data == old(data)
      ensures old(data).Record? && r.Ok? ==>
        var prev := old(data).s;
        && r.value == this && data.Record? && fresh(data.s)
        && data.s.prev == prev && data.s.format == prev.format && data.s.typ == prev.typ
        && data.s.version == 0 && data.s.content == newData && data.s.offset == newLen
    {
      history := history + [data];
      if data.Record? {
        var n := data.s.Next(newData, newLen);
        if n.Err? {
          return Err(n.error);
        }
        data := Record(n.value);
      } else {
        data := Plain(newData);
      }
      r := Ok(this);
    }

    /** `decode()`: the parent's `decodeValue` on this state. */
    method Decode() returns (r: Result<Value, Error>)
      modifies this
      ensures r == old(DecodeData(parent.lib, data, opts))
      ensures opts == old(opts) && history == old(history)
      ensures old(data).Record? ==> data == old(data)
      ensures old(data).Plain? && !old(data).v.Str? ==> data == old(data)
      ensures old(data).Plain? && old(data).v.Str? ==>
        var s := old(data).v.s;
        var spec := Header.ParseSpec(Header.VR, s, UNSET);
        && (spec.Err? ==> data == old(data))
        && (spec.Ok? ==> data.Record? && fresh(data.s) && Holds(data.s, spec.value, s))
    {
      r := parent.DecodeValue(Existing(this), NoOptions);
    }
  }

  // ---------------------------------------------------------------------
  // The orchestrator.
  // ---------------------------------------------------------------------

  class Data64 {
    const options: Options
    const formats: Table       // `FORMATS`, or the table of a profile
    const lib: Library
    const codecs: Codecs

    /** `new Data64(opts)`: the defaults overridden by `opts`. */
    constructor (opts: Options, formats: Table, lib: Library, codecs: Codecs)
      ensures options == Merge(DEFAULT_OPTS, opts)
      ensures this.formats == formats && this.lib == lib && this.codecs == codecs
    {
      options := Merge(DEFAULT_OPTS, opts);
      this.formats := formats;
      this.lib := lib;
      this.codecs := codecs;
    }

    /** `detectHeader(s)`. */
    static method DetectHeader(s: string) returns (vn: int)
      ensures vn == Detected(VERSIONS, s)
    {
      var i := 0;
      while i < |VERSIONS|
        invariant 0 <= i <= |VERSIONS|
        invariant Detected(VERSIONS[i..], s) == Detected(VERSIONS, s)
      {
        assert VERSIONS[i..][1..] == VERSIONS[i + 1..];
        if StartsWith(s, Hv(VERSIONS[i])) {
          return VERSIONS[i];
        }
        i := i + 1;
      }
      vn := 0;
    }

    /**
     * `getFormat(fmt = this.options.format)`: the loader's product, or a
     * TypeError when the table has no loader for the format; an undefined
     * `fmt` stands for the instance's own format.
     */
    function GetFormat(fmt: Option<int>): (r: Result<Loader, Error>)
      ensures var f := Chosen(options.format, fmt);
        && (r.Err? <==> f.None? || f.value !in formats)
        && (r.Err? ==> r.error == InvalidPluginFormat(f))
        && (r.Ok? && r.value.Loads? <==> Resolve(formats, f).Ok?)
        && (r.Ok? && r.value.Loads? ==> r.value.plugin == Resolve(formats, f).value)
        && (r.Ok? && r.value.LoadsFalse? <==> Resolve(formats, f) == Err(NotAFunction))
    {
      var f := Chosen(options.format, fmt);
      if f.Some? && f.value in formats then Ok(formats[f.value]) else Err(InvalidPluginFormat(f))
    }

    /**
     * `parseHeader(s)`: `parse` on a fresh record whose format and type come
     * from `this.format` and `this.type`, properties Data64 does not have;
     * so both start unset.
     */
    method ParseHeader(s: string) returns (r: Result<Settings, Error>)
      ensures var spec := Header.ParseSpec(Header.VR, s, UNSET);
        && (r.Ok? <==> spec.Ok?)
        && (r.Err? ==> r.error == spec.error)
        && (r.Ok? ==> fresh(r.value) && r.value.format == spec.value.format && r.value.typ == spec.value.typ
                      && r.value.version == spec.value.version && r.value.offset == spec.value.offset
                      && r.value.content == Str(s) && r.value.Valid())
    {
      var settings := new Settings(None, None, null);
      r := Header.Parse(Header.VR, s, settings);
    }

    /** The data a state built from `inp` holds. */
    function DataIn(inp: Input): Data
      reads if inp.Existing? then {inp.st} else {}
    {
      if inp.Existing? then inp.st.data else inp.d
    }

    /** The options a state built from `inp` with per-call options `extra` holds. */
    function OptsIn(inp: Input, extra: Options): Options
      reads if inp.Existing? then {inp.st} else {}
    {
      if inp.Existing? then inp.st.opts else Merge(options, extra)
    }

    /** `getState(data, opts)`: an existing State as it is, or a new one with the merged options. */
    method GetState(inp: Input, extra: Options) returns (st: State)
      ensures inp.Existing? ==> st == inp.st
      ensures inp.Given? ==> fresh(st) && st.parent == this && st.history == []
      ensures st.data == DataIn(inp) && st.opts == OptsIn(inp, extra)
    {
      if inp.Existing? {
        return inp.st;
      }
      st := new State(this, inp.d, Merge(options, extra));
    }

    /** `encodeValue(stateOrValue, opts)`. */
    method EncodeValue(inp: Input, extra: Options) returns (r: Result<string, Error>)
      ensures r == EncodeValueSpec(lib, DataIn(inp), OptsIn(inp, extra))
    {
      var st := GetState(inp, extra);
      var header := Header.Build(Header.VR, st.opts);
      if header.Err? {
        return Err(header.error);
      }
      var text: string;
      if st.data.Record? {
        text := lib.encodeText(OBJECT_TEXT, st.opts);
      } else if st.data.v.Str? {
        text := lib.encodeText(st.data.v.s, st.opts);
      } else if st.data.v.ArrayBuffer? {
        text := lib.fromBytes(st.data.v.buffer);
        if Flag(st.opts.url) {
          text := lib.urlize(text, st.opts);
        }
      } else if st.data.v.Undefined? || st.data.v.Null? {
        return Err(NoToString);
      } else {
        text := lib.encodeText(lib.toText(st.data.v), st.opts);
      }
      r := Ok(header.value + text);
    }

    /**
     * `decodeValue(stateOrValue, opts)`: a string held by the state is
     * replaced by the record its header parses to, then the record's payload
     * is decoded.
     */
    method DecodeValue(inp: Input, extra: Options) returns (r: Result<Value, Error>)
      modifies if inp.Existing? then {inp.st} else {}
      ensures r == old(DecodeData(lib, DataIn(inp), OptsIn(inp, extra)))
      ensures inp.Existing? ==> inp.st.opts == old(inp.st.opts) && inp.st.history == old(inp.st.history)
      ensures inp.Existing? && old(inp.st.data).Record? ==> inp.st.data == old(inp.st.data)
      ensures inp.Existing? && old(inp.st.data).Plain? && !old(inp.st.data).v.Str? ==> inp.st.data == old(inp.st.data)
      ensures inp.Existing? && inp.st.data != old(inp.st.data) ==>
        && old(inp.st.data).Plain? && inp.st.data.Record? && fresh(inp.st.data.s)
        && inp.st.data.s.content == old(inp.st.data).v
      ensures inp.Existing? && old(inp.st.data).Plain? && old(inp.st.data).v.Str? ==>
        var s := old(inp.st.data).v.s;
        var spec := Header.ParseSpec(Header.VR, s, UNSET);
        && (spec.Err? ==> inp.st.data == old(inp.st.data))
        && (spec.Ok? ==> inp.st.data.Record? && fresh(inp.st.data.s) && Holds(inp.st.data.s, spec.value, s))
    {
      var st := GetState(inp, extra);
      if st.data.Plain? && st.data.v.Str? {
        var parsed := ParseHeader(st.data.v.s);
        if parsed.Err? {
          return Err(parsed.error);
        }
        st.data := Record(parsed.value);
      } else if !st.data.Record? {
        return Err(InvalidStateData);
      }
      var settings := st.data.s;
      var payload := settings.Value();
      if payload.Err? {
        return Err(payload.error);
      }
      if Flag(st.opts.wantBytes) {
        if !payload.value.Str? {
          return Err(PayloadNotString);
        }
        var text := payload.value.s;
        if st.opts.url != Some(false) {
          text := lib.deurlize(text);
        }
        return Ok(Uint8Array(lib.toBytes(text)));
      }
      if !payload.value.Str? {
        return Err(PayloadNotString);
      }
      r := Ok(Str(lib.decodeText(payload.value.s, st.opts)));
    }

    /** `plugin.decode(state)`. */
    method PluginDecode(plugin: Plugin, st: State) returns (r: Result<Value, Error>)
      requires st.parent == this && st.data.Record?
      modifies st
      ensures r == old(ViaPlugin(lib, codecs, plugin, st.data.s.content, st.data.s.offset, st.opts))
      ensures st.opts == PluginOpts(plugin, old(st.opts))
      ensures st.data == old(st.data) && st.history == old(st.history)
    {
      if plugin == UbjsonPlugin {
        st.opts := st.opts.(wantBytes := Some(true));
      }
      var raw := st.Decode();
      if raw.Err? {
        return Err(raw.error);
      }
      r := codecs.decode(plugin, if plugin == UbjsonPlugin then Buffer(raw.value) else raw.value, st.opts);
    }

    /** Whether `encode` was handed a string (`typeof data === 'string'`). */
    static predicate IsStringArg(inp: Input) {
      inp.Given? && inp.d.Plain? && inp.d.v.Str?
    }

    /** `encode(data, opts)`. */
    method Encode(inp: Input, extra: Options) returns (r: Result<string, Error>)
      modifies if inp.Existing? then {inp.st} else {}
      ensures r == old(EncodeSpec(lib, codecs, formats, options.format, OptsIn(inp, extra), DataIn(inp), IsStringArg(inp)))
      ensures inp.Existing? ==> inp.st.opts == old(inp.st.opts)
      ensures inp.Existing? ==>
        var u := old(PluginResult(codecs, formats, options.format, inp.st.opts, inp.st.data, false));
        && (u.None? ==> inp.st.data == old(inp.st.data) && inp.st.history == old(inp.st.history))
        && (u.Some? ==> inp.st.history == old(inp.st.history) + [old(inp.st.data)])
        && (u.Some? && old(inp.st.data).Plain? ==> inp.st.data == Plain(u.value))
        && (u.Some? && old(inp.st.data).Record? ==>
              inp.st.data.Record? && fresh(inp.st.data.s) && Succeeds(inp.st.data, old(inp.st.data).s, u.value))
    {
      var st := GetState(inp, extra);
      if RunsPlugin(st.opts, IsStringArg(inp)) {
        var loader := GetFormat(st.opts.format);
        if loader.Err? {
          return Err(loader.error);
        }
        if loader.value.LoadsFalse? {
          return Err(NotAFunction);
        }
        var rv := codecs.encode(loader.value.plugin, st.data, st.opts);
        if rv.Err? {
          return Err(rv.error);
        }
        if Truthy(rv.value) {
          var updated := st.Update(rv.value);
        }
      }
      r := EncodeValue(Existing(st), NoOptions);
    }

    /**
     * `decode(s, opts)`: parse the header, dispatch on the parsed format and
     * type, and with `wantState` return the State, a non-nil result appended
     * to it by `update`.
     */
    method Decode(s: string, extra: Options) returns (r: Result<Outcome, Error>)
      ensures var spec := DecodeSpec(lib, codecs, formats, options.format, Merge(options, extra), s);
        && (r.Ok? <==> spec.Ok?)
        && (r.Err? ==> r.error == spec.error)
        && (r.Ok? && !Flag(Merge(options, extra).wantState) ==> r.value == Returned(spec.value))
        && (r.Ok? && Flag(Merge(options, extra).wantState) ==>
              && r.value.StateOf? && fresh(r.value.st) && r.value.st.parent == this
              && r.value.st.data.Record? && |r.value.st.history| == (if NotNil(spec.value) then 1 else 0)
              && (NotNil(spec.value) ==> r.value.st.data.s.content == spec.value && r.value.st.data.s.offset == 0))
      ensures var m := Merge(options, extra);
        var p := Header.ParseSpec(Header.VR, s, UNSET);
        var spec := DecodeSpec(lib, codecs, formats, options.format, m, s);
        r.Ok? && Flag(m.wantState) ==>
          && p.Ok? && RouteOf(formats, options.format, p.value).Ok? && r.value.StateOf?
          && var st, route := r.value.st, RouteOf(formats, options.format, p.value).value;
          && st.opts == (if route.Through? then PluginOpts(route.plugin, m) else m)
          && (NotNil(spec.value) ==>
                && |st.history| == 1 && st.history[0].Record? && fresh(st.history[0].s)
                && Holds(st.history[0].s, p.value, s)
                && st.data.Record? && fresh(st.data.s) && Succeeds(st.data, st.history[0].s, spec.value))
          && (!NotNil(spec.value) ==>
                st.history == [] && st.data.Record? && fresh(st.data.s) && Holds(st.data.s, p.value, s))
    {
      var parsed := ParseHeader(s);
      if parsed.Err? {
        return Err(parsed.error);
      }
      var settings := parsed.value;
      var st := GetState(Given(Record(settings)), extra);
      var x: Result<Value, Error>;
      if settings.format == Some(Format.NONE.Id()) || settings.typ == Some(Type.RAW.Id()) {
        x := DecodeValue(Existing(st), NoOptions);
      } else {
        var loader := GetFormat(settings.format);
        if loader.Err? {
          return Err(loader.error);
        }
        if loader.value.LoadsFalse? {
          return Err(NotAFunction);
        }
        x := PluginDecode(loader.value.plugin, st);
      }
      if x.Err? {
        return Err(x.error);
      }
      var rv := x.value;
      if Flag(st.opts.wantState) {
        if NotNil(rv) {
          var updated := st.Update(rv);
        }
        return Ok(StateOf(st));
      }
      r := Ok(Returned(rv));
    }

    /** The static `encode(data, opts)`: a new instance's `encode`. */
    static method StaticEncode(inp: Input, opts: Options, formats: Table, lib: Library, codecs: Codecs)
      returns (r: Result<string, Error>)
      modifies if inp.Existing? then {inp.st} else {}
      ensures r == old(EncodeSpec(lib, codecs, formats, Merge(DEFAULT_OPTS, opts).format,
        if inp.Existing? then inp.st.opts else Merge(DEFAULT_OPTS, opts),
        if inp.Existing? then inp.st.data else inp.d, IsStringArg(inp)))
    {
      var d := new Data64(opts, formats, lib, codecs);
      MergeIdentity(d.options);
      r := d.Encode(inp, NoOptions);
    }

    /** The static `decode(s, opts)`: a new instance's `decode`. */
    static method StaticDecode(s: string, opts: Options, formats: Table, lib: Library, codecs: Codecs)
      returns (r: Result<Outcome, Error>)
      ensures var spec := DecodeSpec(lib, codecs, formats, Merge(DEFAULT_OPTS, opts).format, Merge(DEFAULT_OPTS, opts), s);
        && (r.Ok? <==> spec.Ok?)
        && (r.Err? ==> r.error == spec.error)
        && (r.Ok? && !Flag(opts.wantState) ==> r.value == Returned(spec.value))
        && (r.Ok? && Flag(opts.wantState) ==> r.value.StateOf?)
    {
      var d := new Data64(opts, formats, lib, codecs);
      MergeIdentity(d.options);
      r := d.Decode(s, NoOptions);
    }
  }

  // ---------------------------------------------------------------------
  // Properties of the specifications.
  // ---------------------------------------------------------------------

  /**
   * The instance options: each recognised key takes the constructor's value
   * when it has one and the default otherwise; the defaults are JSON,
   * ARR_OBJ, no full header, strings not serialized, URL-safe output and the
   * current version.
   */
  lemma EffectiveOptions(o: Options)
    ensures var m := Merge(DEFAULT_OPTS, o);
      && m.format == Some(o.format.GetOr(Format.JSON.Id()))
      && m.typ == Some(o.typ.GetOr(Type.ARR_OBJ.Id()))
      && m.fullHeader == Some(o.fullHeader.GetOr(false))
      && m.encodeStrings == Some(o.encodeStrings.GetOr(false))
      && m.url == Some(o.url.GetOr(true))
      && m.version == Some(o.version.GetOr(VERSION))
      && m.wantBytes == o.wantBytes && m.wantState == o.wantState
      && m.passthrough == o.passthrough
  {
    assert DEFAULT_OPTS.passthrough + o.passthrough == o.passthrough;
  }

  /** With the default options the header is `SV03F1T1`: JSON, ARR_OBJ, version 3. */
  lemma DefaultHeader()
    ensures Header.Build(Header.VR, DEFAULT_OPTS) == Ok("SV03F1T1")
  {
    assert Header.VersionOf(DEFAULT_OPTS) == 3;
    assert DEFAULT_OPTS.format == Some(1) && DEFAULT_OPTS.typ == Some(1) && DEFAULT_OPTS.fullHeader == Some(false);
    assert 3 in Header.VR && Header.VR[3] == Header.V3Rule;
    assert "SV03" + "F1T1" == "SV03F1T1";
    assert Hv(3) == "SV03" by {
      assert Hex(3, VL) == "03";
    }
    assert Header.RuleBuild(Header.V3Rule, 1, 1, false) == "F1T1" by {
      V3.JsonExamples();
    }
  }

  /**
   * A string is passed through unserialized unless `encodeStrings` is set:
   * under the default options it becomes `SV03F1T1` followed by its Base64 text.
   */
  lemma StringPassThrough(lib: Library, codecs: Codecs, formats: Table, dflt: Option<int>, opts: Options, s: string)
    requires !Flag(opts.encodeStrings)
    ensures EncodeSpec(lib, codecs, formats, dflt, opts, Plain(Str(s)), true) == EncodeValueSpec(lib, Plain(Str(s)), opts)
    ensures EncodeSpec(lib, codecs, formats, dflt, DEFAULT_OPTS, Plain(Str(s)), true) ==
      Ok("SV03F1T1" + lib.encodeText(s, DEFAULT_OPTS))
  {
    DefaultHeader();
  }

  /**
   * When `encode` runs the plugin: never for format NONE, never for a string
   * unless `encodeStrings` is set; an unset format (`undefined !== NONE`)
   * does run it, with the instance's format.
   */
  lemma PluginGate(lib: Library, codecs: Codecs, formats: Table, dflt: Option<int>, opts: Options, d: Data, argIsString: bool)
    ensures opts.format == Some(Format.NONE.Id()) ==>
      EncodeSpec(lib, codecs, formats, dflt, opts, d, argIsString) == EncodeValueSpec(lib, d, opts)
    ensures argIsString && !Flag(opts.encodeStrings) ==>
      EncodeSpec(lib, codecs, formats, dflt, opts, d, argIsString) == EncodeValueSpec(lib, d, opts)
    ensures opts.format.None? && !argIsString && Resolve(formats, dflt).Err? ==>
      EncodeSpec(lib, codecs, formats, dflt, opts, d, argIsString) == Err(Resolve(formats, dflt).error)
    ensures opts.format.None? && !argIsString && Resolve(formats, dflt).Ok? && d.Plain? ==>
      var rv := codecs.encode(Resolve(formats, dflt).value, d, opts);
      EncodeSpec(lib, codecs, formats, dflt, opts, d, argIsString) ==
        if rv.Err? then Err(rv.error) else EncodeValueSpec(lib, if Truthy(rv.value) then Plain(rv.value) else d, opts)
  {
  }

  /**
   * A string without the version marker is decoded with the instance's
   * format: `parseHeader` leaves the format unset, so `getFormat`'s default
   * applies. Under the default options that is JSON, and the whole string
   * is the payload its serializer reads; only an instance with no format at
   * all refuses the string.
   */
  lemma HeaderlessDecode(lib: Library, codecs: Codecs, formats: Table, opts: Options, s: string)
    requires !StartsWith(s, VS) && !Flag(opts.wantBytes)
    requires JSON.Id() in Enabled(formats) && formats[JSON.Id()] == Loads(JsonPlugin)
    ensures Header.ParseSpec(Header.VR, s, UNSET) == Ok(UNSET)
    ensures DecodeSpec(lib, codecs, formats, DEFAULT_OPTS.format, opts, s) ==
      codecs.decode(JsonPlugin, Str(lib.decodeText(s, opts)), opts)
    ensures DecodeSpec(lib, codecs, formats, None, opts, s) == Err(InvalidPluginFormat(None))
  {
    assert Resolve(formats, DEFAULT_OPTS.format) == Ok(JsonPlugin);
    assert s[0..] == s;
  }

  /**
   * On a string with a header, `decode` dispatches on what the header says,
   * whatever the instance is configured with: a string written under header
   * options `hopts` goes straight to the Base64 decoder when its format is
   * NONE or its type field says RAW, and otherwise through the plugin of the
   * header's format. A RAW type whose field was left out is not seen, so
   * that string goes through the plugin.
   */
  lemma DispatchFollowsHeader(formats: Table, dflt: Option<int>, hopts: Options, payload: string)
    requires hopts.format.Some? && hopts.typ.Some? && Header.VersionOf(hopts) == V3.VER
    requires 0 <= hopts.format.value < 16 && 0 <= hopts.typ.value < 16
    requires var f, t, full := hopts.format.value, hopts.typ.value, hopts.fullHeader.GetOr(false);
      && (!V3.EmitsFormat(f, full) ==> !StartsWith(payload, V3.FS))
      && (V3.EmitsFormat(f, full) && !V3.EmitsType(f, t, full) ==> !StartsWith(payload, V3.TS))
    ensures Header.Build(Header.VR, hopts).Ok?
    ensures var f, t, full := hopts.format.value, hopts.typ.value, hopts.fullHeader.GetOr(false);
      var p := Header.ParseSpec(Header.VR, Header.Build(Header.VR, hopts).value + payload, UNSET);
      && p.Ok?
      && (f == Format.NONE.Id() || (V3.EmitsType(f, t, full) && t == Type.RAW.Id()) ==> RouteOf(formats, dflt, p.value) == Ok(Direct))
      && (f != Format.NONE.Id() && !(V3.EmitsType(f, t, full) && t == Type.RAW.Id()) ==>
            (RouteOf(formats, dflt, p.value).Ok? <==> Resolve(formats, Some(f)).Ok?)
            && (RouteOf(formats, dflt, p.value).Ok? ==> RouteOf(formats, dflt, p.value).value == Through(Resolve(formats, Some(f)).value)))
  {
    Header.BuildThenParse(Header.VR, hopts, payload, UNSET);
  }

  /** Nothing tells ARR_OBJ and STD_OBJ apart: the header writes them alike and `decode` routes them alike. */
  lemma ObjectTypesAlike(formats: Table, dflt: Option<int>, p: Header.Parsed, f: int, full: bool)
    requires 0 <= f < 16
    ensures RouteOf(formats, dflt, p.(typ := Some(Type.ARR_OBJ.Id()))) == RouteOf(formats, dflt, p.(typ := Some(Type.STD_OBJ.Id())))
    ensures V3.EmitsType(f, Type.ARR_OBJ.Id(), full) == V3.EmitsType(f, Type.STD_OBJ.Id(), full)
    ensures |V3.Build(f, Type.ARR_OBJ.Id(), full)| == |V3.Build(f, Type.STD_OBJ.Id(), full)|
  {
  }

  /**
   * The UBJSON plugin always decodes bytes: whatever `wantBytes` the caller
   * set, the payload goes through `deurlize` (unless `url` is false) and
   * `toBytes`, and the serializer gets the bytes' buffer.
   */
  lemma UbjsonForcesBytes(lib: Library, codecs: Codecs, content: string, offset: int, opts: Options)
    requires 0 <= offset <= |content|
    ensures var p := content[offset..];
      var text := if opts.url != Some(false) then lib.deurlize(p) else p;
      ViaPlugin(lib, codecs, UbjsonPlugin, Str(content), offset, opts) ==
        codecs.decode(UbjsonPlugin, ArrayBuffer(lib.toBytes(text)), opts.(wantBytes := Some(true)))
  {
  }

  /**
   * Round trip of an unserialized string (format NONE): decoding what
   * `encode` writes gives the string back, provided the Base64 text decodes
   * to the string and, when the format field is left out, does not begin
   * with `F`.
   */
  lemma TextRoundTrip(lib: Library, codecs: Codecs, formats: Table, dflt: Option<int>, enc: Options, dec: Options, s: string)
    requires enc.format == Some(Format.NONE.Id()) && enc.typ.Some? && 0 <= enc.typ.value < 16
    requires Header.VersionOf(enc) == V3.VER
    requires !Flag(dec.wantBytes)
    requires var text := lib.encodeText(s, enc);
      && lib.decodeText(text, dec) == s
      && (!V3.EmitsFormat(Format.NONE.Id(), enc.fullHeader.GetOr(false)) ==> !StartsWith(text, V3.FS))
    ensures var e := EncodeSpec(lib, codecs, formats, dflt, enc, Plain(Str(s)), true);
      && e.Ok?
      && e.value == Header.Build(Header.VR, enc).value + lib.encodeText(s, enc)
      && DecodeSpec(lib, codecs, formats, dflt, dec, e.value) == Ok(Str(s))
  {
    var text := lib.encodeText(s, enc);
    var full := enc.fullHeader.GetOr(false);
    Header.BuildThenParse(Header.VR, enc, text, UNSET);
    var h := Header.Build(Header.VR, enc).value;
    HvLength(V3.VER);
    assert (h + text)[|h|..] == text;
  }

  /**
   * Round trip through a plugin other than UBJSON: decoding what `encode`
   * writes for a value gives the value back, provided the serializer's text
   * is non-empty and decodes to the value, the Base64 text decodes to the
   * serializer's text and, when the type field is left out, does not begin
   * with `T`; and provided the header does not announce RAW.
   */
  lemma PluginRoundTrip(lib: Library, codecs: Codecs, formats: Table, dflt: Option<int>, enc: Options, dec: Options, v: Value, text: string)
    requires enc.format.Some? && enc.typ.Some? && Header.VersionOf(enc) == V3.VER
    requires var f, t := enc.format.value, enc.typ.value;
      && 0 <= f < 16 && 0 <= t < 16 && f != Format.NONE.Id()
      && f in Enabled(formats) && formats[f].plugin != UbjsonPlugin
      && !(V3.EmitsType(f, t, enc.fullHeader.GetOr(false)) && t == Type.RAW.Id())
    requires RunsPlugin(enc, v.Str?)
    requires !Flag(dec.wantBytes)
    requires var plugin := formats[enc.format.value].plugin;
      var b64 := lib.encodeText(text, enc);
      && codecs.encode(plugin, Plain(v), enc) == Ok(Str(text)) && text != ""
      && lib.decodeText(b64, dec) == text
      && codecs.decode(plugin, Str(text), dec) == Ok(v)
      && (!V3.EmitsType(enc.format.value, enc.typ.value, enc.fullHeader.GetOr(false)) ==> !StartsWith(b64, V3.TS))
    ensures var e := EncodeSpec(lib, codecs, formats, dflt, enc, Plain(v), v.Str?);
      && e.Ok?
      && e.value == Header.Build(Header.VR, enc).value + lib.encodeText(text, enc)
      && DecodeSpec(lib, codecs, formats, dflt, dec, e.value) == Ok(v)
  {
    var f, t, full := enc.format.value, enc.typ.value, enc.fullHeader.GetOr(false);
    var plugin := formats[f].plugin;
    var b64 := lib.encodeText(text, enc);
    assert Resolve(formats, Some(f)) == Ok(plugin);
    var e := EncodeSpec(lib, codecs, formats, dflt, enc, Plain(v), v.Str?);
    assert e == EncodeValueSpec(lib, Plain(Str(text)), enc);
    var h := Header.Build(Header.VR, enc).value;
    assert e == Ok(h + b64);
    var s := h + b64;
    var parsed := Header.Parsed(Some(f), if V3.EmitsType(f, t, full) then Some(t) else None, V3.VER, |h|);
    assert Header.ParseSpec(Header.VR, s, UNSET) == Ok(parsed) by {
      Header.BuildThenParse(Header.VR, enc, b64, UNSET);
    }
    assert RouteOf(formats, dflt, parsed) == Ok(Through(plugin));
    assert ViaPlugin(lib, codecs, plugin, Str(s), |h|, dec) == Ok(v) by {
      HvLength(V3.VER);
      assert s[|h|..] == b64;
      assert DecodeStored(lib, Str(s), |h|, dec) == Ok(Str(text));
    }
  }

  /**
   * Round trip through the UBJSON plugin: the serializer's bytes are written
   * as Base64 (urlized when `url` is set) and read back through `deurlize`
   * (unless `url` is false) and `toBytes`, whatever `wantBytes` the decoder
   * was given. Decoding what `encode` writes gives the value back, provided
   * the Base64 text comes back as the same bytes, the serializer reads the
   * bytes' buffer back as the value and, when the type field is left out,
   * the Base64 text does not begin with `T`; and provided the header does not
   * announce RAW.
   */
  lemma UbjsonRoundTrip(lib: Library, codecs: Codecs, formats: Table, dflt: Option<int>, enc: Options, dec: Options, v: Value, b: seq<byte>)
    requires enc.format == Some(Format.UBJSON.Id()) && enc.typ.Some? && Header.VersionOf(enc) == V3.VER
    requires var t := enc.typ.value;
      && 0 <= t < 16 && Format.UBJSON.Id() in formats && formats[Format.UBJSON.Id()] == Loads(UbjsonPlugin)
      && !(V3.EmitsType(Format.UBJSON.Id(), t, enc.fullHeader.GetOr(false)) && t == Type.RAW.Id())
    requires RunsPlugin(enc, v.Str?)
    requires var raw := lib.fromBytes(b);
      var b64 := if Flag(enc.url) then lib.urlize(raw, enc) else raw;
      && codecs.encode(UbjsonPlugin, Plain(v), enc) == Ok(ArrayBuffer(b))
      && lib.toBytes(if dec.url != Some(false) then lib.deurlize(b64) else b64) == b
      && codecs.decode(UbjsonPlugin, ArrayBuffer(b), dec.(wantBytes := Some(true))) == Ok(v)
      && (!V3.EmitsType(Format.UBJSON.Id(), enc.typ.value, enc.fullHeader.GetOr(false)) ==> !StartsWith(b64, V3.TS))
    ensures var raw := lib.fromBytes(b);
      var e := EncodeSpec(lib, codecs, formats, dflt, enc, Plain(v), v.Str?);
      && e.Ok?
      && e.value == Header.Build(Header.VR, enc).value + (if Flag(enc.url) then lib.urlize(raw, enc) else raw)
      && DecodeSpec(lib, codecs, formats, dflt, dec, e.value) == Ok(v)
  {
    var f, t, full := Format.UBJSON.Id(), enc.typ.value, enc.fullHeader.GetOr(false);
    var raw := lib.fromBytes(b);
    var b64 := if Flag(enc.url) then lib.urlize(raw, enc) else raw;
    assert Resolve(formats, Some(f)) == Ok(UbjsonPlugin);
    var e := EncodeSpec(lib, codecs, formats, dflt, enc, Plain(v), v.Str?);
    assert e == EncodeValueSpec(lib, Plain(ArrayBuffer(b)), enc);
    var h := Header.Build(Header.VR, enc).value;
    assert e == Ok(h + b64);
    var s := h + b64;
    var parsed := Header.Parsed(Some(f), if V3.EmitsType(f, t, full) then Some(t) else None, V3.VER, |h|);
    assert Header.ParseSpec(Header.VR, s, UNSET) == Ok(parsed) by {
      Header.BuildThenParse(Header.VR, enc, b64, UNSET);
    }
    assert RouteOf(formats, dflt, parsed) == Ok(Through(UbjsonPlugin));
    assert ViaPlugin(lib, codecs, UbjsonPlugin, Str(s), |h|, dec) == Ok(v) by {
      HvLength(V3.VER);
      assert s[|h|..] == b64;
      UbjsonForcesBytes(lib, codecs, s, |h|, dec);
    }
  }

  /** `detectHeader` of the current versions: 3 exactly when the string begins `SV03`. */
  lemma DetectCurrent(s: string)
    ensures Detected(VERSIONS, s) == (if StartsWith(s, "SV03") then 3 else 0)
  {
    assert Hv(3) == "SV03" by {
      assert Hex(3, VL) == "03";
    }
    assert VERSIONS[1..] == [];
  }

  /** A detected header is one `parse` reads as that version, handing the rest to the version's rule. */
  lemma DetectThenParse(s: string, init: Header.Parsed)
    requires Detected(VERSIONS, s) == V3.VER
    ensures Header.ParseSpec(Header.VR, s, init) == Header.Recorded(V3.ParseAt(s, |VS| + VL), V3.VER, init)
  {
    DetectCurrent(s);
    Header.AfterMarker(Header.VR, V3.VER, s, init);
  }

  /**
   * `parse` is laxer than `detectHeader`: `SV3` is no header to
   * `detectHeader`, yet `parse` reads its clipped version field `3` as
   * version 3 and places the payload past the string's end.
   */
  lemma LaxVersionField(init: Header.Parsed)
    ensures Detected(VERSIONS, "SV3") == 0
    ensures Header.ParseSpec(Header.VR, "SV3", init) == Ok(Header.Parsed(Some(Format.NONE.Id()), init.typ, 3, 4))
  {
    DetectCurrent("SV3");
    assert Substring("SV3", 0, 2) == "SV";
    assert Substring("SV3", 2, 4) == "3";
    assert Dec("3") == Some(3);
    assert Substring("SV3", 4, 5) == "";
  }
}
