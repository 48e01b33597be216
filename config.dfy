/**
 * An options object as the transcoder reads it. Each recognised key is an
 * `Option`: `None` when the key is absent. Format-specific keys that are only
 * forwarded to a codec (replacers, revivers, PHP scopes, UBJSON options) are
 * kept as an opaque key/value map.
 */
module Config {
  import opened Wrappers
  import opened Js

  datatype Options = Options(
    format: Option<int>,
    typ: Option<int>,  // the `type` key
    fullHeader: Option<bool>,
    encodeStrings: Option<bool>,
    url: Option<bool>,
    version: Option<int>,
    wantBytes: Option<bool>,
    wantState: Option<bool>,
    passthrough: map<string, Value>)

  /** `{}`: an options object with no keys. */
  const NoOptions: Options := Options(None, None, None, None, None, None, None, None, map[])

  function Over<T>(base: Option<T>, over: Option<T>): Option<T> {
    if over.Some? then over else base
  }

  /**
   * `Object.assign({}, base, over)`: every key of `over` replaces the same
   * key of `base`; keys `over` lacks keep their value from `base`.
   */
  function Merge(base: Options, over: Options): (r: Options)
    ensures over.format.Some? ==> r.format == over.format
    ensures over.format.None? ==> r.format == base.format
    ensures over.typ.Some? ==> r.typ == over.typ
    ensures over.typ.None? ==> r.typ == base.typ
    ensures over.version.Some? ==> r.version == over.version
    ensures over.version.None? ==> r.version == base.version
    ensures over.fullHeader.Some? ==> r.fullHeader == over.fullHeader
    ensures over.fullHeader.None? ==> r.fullHeader == base.fullHeader
    ensures over.encodeStrings.Some? ==> r.encodeStrings == over.encodeStrings
    ensures over.encodeStrings.None? ==> r.encodeStrings == base.encodeStrings
    ensures over.url.Some? ==> r.url == over.url
    ensures over.url.None? ==> r.url == base.url
    ensures over.wantBytes.Some? ==> r.wantBytes == over.wantBytes
    ensures over.wantBytes.None? ==> r.wantBytes == base.wantBytes
    ensures over.wantState.Some? ==> r.wantState == over.wantState
    ensures over.wantState.None? ==> r.wantState == base.wantState
    ensures r.passthrough.Keys == base.passthrough.Keys + over.passthrough.Keys
    ensures forall k :: k in r.passthrough ==>
      r.passthrough[k] == if k in over.passthrough then over.passthrough[k] else base.passthrough[k]
  {
    Options(
      Over(base.format, over.format),
      Over(base.typ, over.typ),
      Over(base.fullHeader, over.fullHeader),
      Over(base.encodeStrings, over.encodeStrings),
      Over(base.url, over.url),
      Over(base.version, over.version),
      Over(base.wantBytes, over.wantBytes),
      Over(base.wantState, over.wantState),
      base.passthrough + over.passthrough)
  }

  /** Merging with `{}` on either side changes nothing. */
  lemma MergeIdentity(o: Options)
    ensures Merge(o, NoOptions) == o
    ensures Merge(NoOptions, o) == o
  {
    assert o.passthrough + map[] == o.passthrough;
    assert map[] + o.passthrough == o.passthrough;
  }

  /**
   * Merging in two steps is merging once with the merged overrides:
   * `getState` applied on top of the constructor's merge gives the same
   * options as one merge of defaults, constructor options and per-call options.
   */
  lemma MergeAssociative(a: Options, b: Options, c: Options)
    ensures Merge(Merge(a, b), c) == Merge(a, Merge(b, c))
  {
    assert (a.passthrough + b.passthrough) + c.passthrough == a.passthrough + (b.passthrough + c.passthrough);
  }
}
