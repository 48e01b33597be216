/**
 * The format tables: for each serialization format number, a loader that
 * either yields the format's plugin or yields `false` (the format is
 * disabled in that profile). A format with no entry at all, NONE above all,
 * has no loader.
 */
module Profiles {
  import opened Wrappers
  import opened Js
  import opened Common

  /** The four format plugins of the repository. */
  datatype Plugin = JsonPlugin | PhpPlugin | UbjsonPlugin | JsoxPlugin {
    /** The format a plugin serializes. */
    function Serves(): (f: Format)
      ensures f != NONE
    {
      match this
      case JsonPlugin => JSON
      case PhpPlugin => PHP
      case UbjsonPlugin => UBJSON
      case JsoxPlugin => JSOX
    }
  }

  /** `() => require(plugin)` or `() => false`. */
  datatype Loader = Loads(plugin: Plugin) | LoadsFalse

  type Table = map<int, Loader>

  /** The entries every table has: one loader per format except NONE. */
  function Entries(json: Loader, php: Loader, ubjson: Loader, jsox: Loader): (t: Table)
    ensures t.Keys == {JSON.Id(), PHP.Id(), UBJSON.Id(), JSOX.Id()}
    ensures t[JSON.Id()] == json && t[PHP.Id()] == php && t[UBJSON.Id()] == ubjson && t[JSOX.Id()] == jsox
  {
    map[1 := json, 2 := php, 3 := ubjson, 4 := jsox]
  }

  /** `FORMATS` of the transcoder module itself: every plugin. */
  const FORMATS: Table := Entries(Loads(JsonPlugin), Loads(PhpPlugin), Loads(UbjsonPlugin), Loads(JsoxPlugin))
  /** `ALL_FORMATS`: the full profile. */
  const ALL_FORMATS: Table := Entries(Loads(JsonPlugin), Loads(PhpPlugin), Loads(UbjsonPlugin), Loads(JsoxPlugin))
  /** `DEF_FORMATS`: the formats of the PHP implementation; JSOX disabled. */
  const DEF_FORMATS: Table := Entries(Loads(JsonPlugin), Loads(PhpPlugin), Loads(UbjsonPlugin), LoadsFalse)
  /** `BIN_FORMATS`: JSON and UBJSON; PHP and JSOX disabled. */
  const BIN_FORMATS: Table := Entries(Loads(JsonPlugin), LoadsFalse, Loads(UbjsonPlugin), LoadsFalse)
  /** `JSO_FORMATS`: JSON and JSOX; PHP and UBJSON disabled. */
  const JSO_FORMATS: Table := Entries(Loads(JsonPlugin), LoadsFalse, LoadsFalse, Loads(JsoxPlugin))
  /** `PHP_FORMATS`: JSON and PHP; UBJSON and JSOX disabled. */
  const PHP_FORMATS: Table := Entries(Loads(JsonPlugin), Loads(PhpPlugin), LoadsFalse, LoadsFalse)

  /** The format numbers whose loader yields a plugin: exactly those that resolve. */
  function Enabled(t: Table): (e: set<int>)
    ensures e <= t.Keys
    ensures forall k :: k in e <==> Resolve(t, Some(k)).Ok?
  {
    set k | k in t && t[k].Loads?
  }

  /** Every loader that yields a plugin yields the plugin of its own format. */
  predicate LoadsOwnFormat(t: Table) {
    forall k :: k in t && t[k].Loads? ==> t[k].plugin.Serves().Id() == k
  }

  datatype Profile = Core | All | Default | Bin | Jso | Php

  /** The table of each profile; `Core` is the transcoder module's own. */
  function TableOf(p: Profile): (t: Table)
    ensures Format.NONE.Id() !in t
    ensures t.Keys == {JSON.Id(), PHP.Id(), UBJSON.Id(), JSOX.Id()}
    ensures LoadsOwnFormat(t)
    ensures JSON.Id() in Enabled(t)
    ensures Enabled(t) <= Enabled(ALL_FORMATS)
  {
    match p
    case Core => FORMATS
    case All => ALL_FORMATS
    case Default => DEF_FORMATS
    case Bin => BIN_FORMATS
    case Jso => JSO_FORMATS
    case Php => PHP_FORMATS
  }

  /**
   * `getFormat(fmt)` followed by a call on what it returns: no loader is a
   * TypeError naming the format; a loader that yields `false` leaves nothing
   * to call, also a TypeError.
   */
  function Resolve(t: Table, fmt: Option<int>): (r: Result<Plugin, Error>)
    ensures fmt.None? || fmt.value !in t ==> r == Err(InvalidPluginFormat(fmt))
    ensures r.Ok? <==> fmt.Some? && fmt.value in t && t[fmt.value].Loads?
    ensures r.Ok? ==> t[fmt.value] == Loads(r.value)
    ensures fmt.Some? && fmt.value in t && t[fmt.value].LoadsFalse? ==> r == Err(NotAFunction)
  {
    if fmt.None? || fmt.value !in t then Err(InvalidPluginFormat(fmt))
    else if t[fmt.value].Loads? then Ok(t[fmt.value].plugin)
    else Err(NotAFunction)
  }

  /** The full profile, like the transcoder's own table, enables all four formats. */
  lemma AllProfile()
    ensures Enabled(FORMATS) == Enabled(ALL_FORMATS) == {JSON.Id(), PHP.Id(), UBJSON.Id(), JSOX.Id()}
  {
  }

  /** The default profile enables JSON, PHP and UBJSON; JSOX resolves to the `false` loader. */
  lemma DefaultProfile()
    ensures Enabled(DEF_FORMATS) == {JSON.Id(), PHP.Id(), UBJSON.Id()}
    ensures Resolve(DEF_FORMATS, Some(JSOX.Id())) == Err(NotAFunction)
  {
    assert forall k :: k in Enabled(DEF_FORMATS) <==> k == 1 || k == 2 || k == 3;
  }

  /** The binary profile enables JSON and UBJSON; PHP and JSOX resolve to the `false` loader. */
  lemma BinProfile()
    ensures Enabled(BIN_FORMATS) == {JSON.Id(), UBJSON.Id()}
    ensures Resolve(BIN_FORMATS, Some(PHP.Id())) == Err(NotAFunction)
    ensures Resolve(BIN_FORMATS, Some(JSOX.Id())) == Err(NotAFunction)
  {
    assert forall k :: k in Enabled(BIN_FORMATS) <==> k == 1 || k == 3;
  }

  /** The JSO profile enables JSON and JSOX; PHP and UBJSON resolve to the `false` loader. */
  lemma JsoProfile()
    ensures Enabled(JSO_FORMATS) == {JSON.Id(), JSOX.Id()}
    ensures Resolve(JSO_FORMATS, Some(PHP.Id())) == Err(NotAFunction)
    ensures Resolve(JSO_FORMATS, Some(UBJSON.Id())) == Err(NotAFunction)
  {
    assert forall k :: k in Enabled(JSO_FORMATS) <==> k == 1 || k == 4;
  }

  /** The PHP profile enables JSON and PHP; UBJSON and JSOX resolve to the `false` loader. */
  lemma PhpProfile()
    ensures Enabled(PHP_FORMATS) == {JSON.Id(), PHP.Id()}
    ensures Resolve(PHP_FORMATS, Some(UBJSON.Id())) == Err(NotAFunction)
    ensures Resolve(PHP_FORMATS, Some(JSOX.Id())) == Err(NotAFunction)
  {
    assert forall k :: k in Enabled(PHP_FORMATS) <==> k == 1 || k == 2;
  }

  /** NONE never resolves to a plugin, in any profile, and in any table without a NONE entry. */
  lemma NoneHasNoPlugin(p: Profile)
    ensures Resolve(TableOf(p), Some(Format.NONE.Id())) == Err(InvalidPluginFormat(Some(Format.NONE.Id())))
  {
  }
}
