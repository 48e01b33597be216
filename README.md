# Data64 header protocol and transcoder, in Dafny

Data64 (also called Safe64-Data) serializes a value with one of several
formats (JSON, PHP `serialize`, UBJSON, JSOX). It encodes the result as
URL-safe Base64 and puts a short header in front. The header says how to
decode the rest:

    SV vv [F f [T t]]

- `SV` are literal characters.
- `vv` is the protocol version as two hex digits (currently `03`).
- `f` is the format number and `t` the return type (`RAW`, `ARR_OBJ`,
  `STD_OBJ`), one hex digit each.

The format field is left out when the format is NONE and the full header is
not asked for. The type field is written only inside a format field, and is
left out for RAW types and for PHP.

This project models:

- the protocol constants (`Common`);
- the hex helpers `hex`, `dec` and `ver` (`HexText`);
- the version-rule registry with `build` and `parse`, as the header front end (`Header`);
- the version-3 rule (`V3`);
- the strictly positional header cursor (`Cursor.HeaderParser`);
- the metadata record `Settings` (`Metadata`);
- the pipeline `State` and the `Data64` orchestrator (`Transcoder`);
- the format tables of the profiles (`Profiles`).

The options object is `Config.Options`. Its merge is `Object.assign`. JavaScript values and
errors live in `Js`.

The source mutates the parser cursor, the `Settings` record, the `State` and
the registry in place, so these are Dafny classes. Their methods are proved
against specification functions:

- `Header.ParseSpec` for `parse`;
- `Header.RegisterAll` for `addVersions`;
- `V3.ParseAt` for the rule's `parse`;
- `Transcoder.EncodeSpec` and `Transcoder.DecodeSpec` for `encode` and `decode`.

The properties are proved about those functions. The main ones:

- `hex` never truncates, and `dec(hex(n)) == n`.
- The marker `SVvv` is four characters long for every version below 256.
- The header round trip, `V3.RoundTrip` and `Header.BuildThenParse`. It holds
  for format and type values below 16, which covers every FORMAT and TYPE,
  under a version in 0..255 registered to the version-3 rule. It also needs
  the payload not to begin with the tag of a field that was left out.
  `V3.RoundTripNeedsGuard` shows that this guard cannot be dropped.
  `build` accepts any number (lib/header/index.js:92-93), but `hex(f, 1)`
  writes two digits once `f` reaches 16 (lib/header/v3.js:39), and `parse`
  reads only one (lib/header/v3.js:56-57). `V3.WideFormatMisread` shows
  format 16 read back as JSON.
- For a string with a header, `decode` dispatches on what the header says,
  not on the instance's configuration (`Transcoder.DispatchFollowsHeader`).
  A string without one goes through the plugin of the instance's format
  (`Transcoder.HeaderlessDecode`).
- End-to-end round trips: for text (`Transcoder.TextRoundTrip`), through a
  text serializer (`Transcoder.PluginRoundTrip`) and through UBJSON's bytes
  (`Transcoder.UbjsonRoundTrip`). Each is stated under hypotheses about the
  Base64 library and the serializer.

Three places in the source do not do what their surroundings say they do.

- `parse` looks the version up as `settings.ver`, a property `Settings` does
  not have (lib/header/index.js:137). The model looks it up by the numeric
  version the setter stored. The as-written behaviour is kept beside it (see
  Findings).
- `parseHeader` builds its record from `this.format` and `this.type`,
  properties `Data64` does not have (lib/index.js:180). The model keeps this:
  the record's format and type start unset (`None`). A header therefore
  leaves the type unset when it has no type field.
  - A string without a header leaves the format unset. `decode` then calls
    `getFormat(undefined)`, whose default parameter is the instance's own
    format (lib/index.js:160). Under the defaults the whole string is
    Base64-decoded and handed to JSON (`Transcoder.HeaderlessDecode`). The
    model follows the code here: lib/index.js:160 for the default parameter,
    lib/index.js:180 for the unset record.
  - Seen through `decode`, a JSON or UBJSON header whose RAW type was left
    out goes through the plugin.
- `makeHeader` passes format, type, version and `full` to `build` as four
  arguments, but `build` takes one options object (lib/settings.js:83). So,
  as written, it always fails: the first argument, a number or undefined,
  has no `format` key. `Header.MakeHeaderAsWritten` derives this failure from
  `Header.Build`, and the `header` getter's fallback shares it.
  `Header.RecordHeader` is the evidently intended definition.

The Base64 library and the serializers the plugins wrap are function-valued
parameters (`Transcoder.Library`, `Transcoder.Codecs`). Whatever a lemma needs
of them is one of its hypotheses.

## Model

| member | source | states |
|---|---|---|
| Common.Format.Id | lib/common.js:30 | the FORMAT numbers, NONE = 0 through JSOX = 4, all below 16 so each fits the one-digit format field |
| Common.Type.Id | lib/common.js:49 | the TYPE numbers, RAW = 0, ARR_OBJ = 1, STD_OBJ = 2, all below 16 so each fits the one-digit type field |
| Common.FormatOf | lib/common.js:30 | reading a format number back yields the member with that number, and none when no member has it |
| Common.TypeOf | lib/common.js:49 | reading a type number back yields the member with that number, and none when no member has it |
| Common.FormatIdsDistinct | lib/common.js:20-30 | FORMAT numbers are pairwise distinct: every member is recovered from its number |
| Common.TypeIdsDistinct | lib/common.js:35-49 | TYPE numbers are pairwise distinct: every member is recovered from its number |
| Common.VersionsNewestFirst | lib/common.js:5-15 | VERSIONS is strictly decreasing (newest first), VERSION is its head and equals 3, and every version fits the two-digit version field |
| Config.Merge | lib/index.js:157 | for each of format, type, version, fullHeader, encodeStrings, url, wantBytes and wantState, a key the override sets replaces the base's, and a key it leaves unset keeps the base's value; the pass-through keys are the union, each with the override's value when it has one |
| Config.MergeIdentity | lib/index.js:184-188 | merging with `{}` on either side changes nothing |
| Config.MergeAssociative | lib/index.js:184-188 | merging per-call options onto the instance options equals one merge of defaults, constructor options and per-call options |
| HexText.Base16 | lib/header/index.js:38 | `toString(16)` is at least one character, all lowercase hex digits |
| HexText.Dec | lib/header/index.js:51-54 | `dec` yields a number exactly for well-formed hex text |
| HexText.Hex | lib/header/index.js:35-40 | `hex(n, len)` is at least as long as `toString(16)` of `n`, at least `len` long when `len > 1`, and all lowercase hex digits for a natural `n` |
| HexText.Hv | lib/header/index.js:65-68 | the version marker begins with the literal `SV` |
| HexText.HexShape | lib/header/index.js:35-40 | `hex(n, len)` ends with the unpadded text, is padded with zeros only, is exactly `len` long when `len > 1` exceeds the text, and is never truncated |
| HexText.Base16Length | lib/header/index.js:38 | the hex text of `n` is one digit iff `n < 16` and at most two digits iff `n < 256` |
| HexText.Base16Value | lib/header/index.js:35-54 | the hex text of `n` is valid hex denoting `n` |
| HexText.LeadingZeros | lib/header/index.js:39 | the zeros `padStart` adds do not change the value a digit string denotes |
| HexText.DecHex | lib/header/index.js:35-54 | round trip: `dec(hex(n, len)) == n` for every natural `n` and every width |
| HexText.HvLength | lib/header/index.js:65-68 | for a version below 256 the marker is exactly four characters, and its last two decode to the version |
| HexText.SingleDigit | lib/header/v3.js:39-43 | a number below 16 is written as one lowercase digit in a field of width 1, and reads back as itself |
| Js.Substring | lib/header/parser.js:14-17 | JavaScript `substring` clamps: in range it is the slice, past the end it is the remainder or empty, never an error |
| Js.SubstringPastEnd | lib/header/parser.js:14-17 | a field read wholly past the end of the string is empty |
| Metadata.CheckVersion | lib/settings.js:59-74 | the version setter accepts a number in 0..255, or hex text whose value is in 0..255, and yields that value; below 0 or above 255 is a RangeError, a value that is neither string nor number a TypeError |
| Metadata.ValueOf | lib/settings.js:31-41 | the `value` getter is the stored value at offset 0 and the text after the offset otherwise |
| Metadata.HeaderOf | lib/settings.js:86-96 | the `header` getter succeeds exactly when a non-empty string is stored with a non-zero offset, and is then the text before the offset; a stored value loosely equal to `''`, or offset 0, falls back to the failing `makeHeader`; any other non-string value has no `substring` (TypeError) |
| Metadata.HeaderThenValue | lib/settings.js:86-96 | with a retained header, `header + value` is the stored string |
| Metadata.VersionGetSet | lib/settings.js:59-79 | the version getter's two hex digits, handed to the setter, give the same version back |
| Metadata.Settings.constructor | lib/settings.js:13-22 | a new record holds the given format, type and `prev`, version 0, offset 0 and value `''` |
| Metadata.Settings.Next | lib/settings.js:24-29 | `next` returns a fresh record with the same format and type, linked back through `prev`, version 0 and the given value and offset; a positive offset with a non-string value is a TypeError; this record is unchanged |
| Metadata.Settings.Value | lib/settings.js:31-41 | the `value` getter never fails on a valid record and is the text after a positive offset |
| Metadata.Settings.SetValue | lib/settings.js:43-52 | a positive offset demands a string (TypeError, nothing stored); otherwise value and offset are stored and nothing else changes |
| Metadata.Settings.SetContent | lib/settings.js:54-57 | the `value` setter stores the value and resets the offset to 0 |
| Metadata.Settings.SetVersion | lib/settings.js:59-74 | the version is stored exactly when `CheckVersion` accepts it, with its error otherwise and the version untouched |
| Metadata.Settings.VersionHex | lib/settings.js:76-79 | the version getter is two hex digits that the setter reads back as the stored version |
| Header.MakeHeaderAsWritten | lib/settings.js:81-84 | as written, `makeHeader` hands a number to `build` as its options object, and `build` fails with "format must be a number" |
| Header.HeaderGetterFallback | lib/settings.js:86-91 | when the stored value is loosely `''` or the offset is 0 the `header` getter fails exactly as the as-written `makeHeader`, even where the intended one would succeed |
| Metadata.Settings.Header | lib/settings.js:86-96 | the `header` getter succeeds exactly when a non-empty string is stored with a non-zero offset, and then header followed by value is the stored string; a failure means the value is loosely `''` or the offset 0 |
| Cursor.HeaderParser.constructor | lib/header/parser.js:6-12 | after construction with `to` the window is `0..to`, well-ordered when `to >= 0` |
| Cursor.HeaderParser.Get | lib/header/parser.js:14-17 | `get` is the window's text, clamped to the string, shorter past the end, empty for an empty window |
| Cursor.HeaderParser.Next | lib/header/parser.js:19-23 | `next(len)` starts the new window where the old one ended and makes it `len` long, keeping the window ordered for `len >= 0` |
| Cursor.HeaderParser.Reset | lib/header/parser.js:25-29 | `reset(to)` sets the window to `0..to`, ordered for `to >= 0` |
| V3.EmitsFormat | lib/header/v3.js:37 | a format field is written whenever the full header is asked for, and otherwise exactly when the format is not NONE |
| V3.EmitsType | lib/header/v3.js:40 | a type field is written only inside a format field; always for the full header, and otherwise exactly when the format is neither NONE nor PHP and the type is not RAW |
| V3.Build | lib/header/v3.js:31-47 | the suffix is non-empty iff a format field is written and then starts with `F`; its length is 0, 2 or 4; the full header is always `F f T t` |
| V3.ParseAt | lib/header/v3.js:49-72 | the positional read ends 0, 2 or 4 characters after the version; no `F` there means NONE, no type and no header past the version; otherwise the format is the digit after `F`, and the type is the digit after a `T` exactly when one follows, and a read that finds `F` never ends at the version; a non-hex digit in a field present is the only failure |
| V3.Parse | lib/header/v3.js:49-72 | the rule's `parse` on a cursor records exactly the format and type `ParseAt` finds, leaves the cursor at the header's end, and changes nothing else in the record |
| V3.ShortExamples | lib/header/v3.js:22-26 | NONE gives the bare header `SV03`, and PHP gives `F2` whatever the type |
| V3.JsonExamples | lib/header/v3.js:22-47 | JSON with RAW gives `F1`, JSON with ARR_OBJ gives `F1T1`, and the full header of JSON with RAW gives `F1T0` |
| V3.RoundTrip | lib/header/v3.js:31-72 | parsing marker + `build` + payload recovers the format, the type when its field was written, and the header's end, provided the payload does not begin with the tag of a left-out field |
| V3.RoundTripAfter | lib/header/v3.js:31-72 | the same round trip after any four-character marker |
| V3.RoundTripNeedsGuard | lib/header/v3.js:53-67 | when the payload does begin with the tag of a left-out field, the parse does not end at the header's end |
| V3.ElidedFormatMisread | lib/header/v3.js:53-60 | `SV03` followed by a payload `F1xy` is read as a JSON header |
| V3.WideFormatBuild | lib/header/v3.js:37-43 | `build` writes format 16 as the two digits `F10`, followed by the type field |
| V3.WideFormatMisread | lib/header/v3.js:53-60 | what `build` writes for format 16 is read back by `parse` as JSON, with the header ending after `F1` |
| V3.ParseIsPositional | lib/header/v3.js:49-72 | the rule's parse depends only on the four characters after the version field |
| Header.IsVersionRule | lib/header/index.js:154-160 | a candidate that passes is an object with a numeric `ver` to register under; such an object passes exactly when its `build` and `parse` are both functions |
| Header.RegisterAll | lib/header/index.js:162-176 | registration succeeds iff every candidate is a version rule, else a TypeError; the registered versions are added and other entries are kept |
| Header.SingleCandidate | lib/header/index.js:154-176 | one candidate is registered under its `ver` exactly when it is an object with a numeric `ver` and `build` and `parse` functions; anything else is "Invalid version rule" and the registry is unchanged |
| Header.ModuleRegistry | lib/header/index.js:178-180 | registering the version-3 module on an empty registry gives the registry `{3: v3}` without error |
| Header.Registry.constructor | lib/header/index.js:9 | the registry starts empty |
| Header.Registry.AddVersions | lib/header/index.js:162-176 | the loop leaves the registry and the error exactly as `RegisterAll` says |
| Header.Build | lib/header/index.js:90-109 | `build` succeeds iff format and type are set and the version (default VERSION) is registered; TypeErrors for a missing format or type, RangeError for an unregistered version; the header is `hv(ver)` followed by the rule's suffix |
| Header.VersionOf | lib/header/index.js:95 | the version built is the one the options give, or the current VERSION when they leave it undefined |
| Header.DefaultVersion | lib/header/index.js:95-102 | options without a version are built as the current version: `build` succeeds and writes `SV03` |
| Header.ParseSpec | lib/header/index.js:122-152 | without `SV` the record is unchanged with offset 0; a successful parse finds a registered version in 0..255 that the two characters after `SV` denote, and sets a format |
| Header.Recorded | lib/header/index.js:136-141 | the record after the rule's read carries the format it found, the type it found or else the record's earlier type, the version looked up and the header's end as offset; a rule error is passed on unchanged |
| Header.Parse | lib/header/index.js:122-152 | `parse` succeeds exactly when `ParseSpec` does, with its error otherwise; on success the record holds its format, type, version and offset and the whole string; a non-Settings argument is replaced by a fresh one; a failed parse leaves a given record's text and offset as they were |
| Header.ParseAsWritten | lib/header/index.js:122-152 | as written, every string that starts with `SV` fails, and any other string is left as the intended parse leaves it, with offset 0 |
| Header.AsWrittenRejectsEveryHeader | lib/header/index.js:136-146 | as written (`settings.ver`), every string with a marker fails, and where the numeric lookup succeeds it fails with "Unsupported version: undefined" |
| Header.AsWrittenRejectsSV03 | lib/header/index.js:136-146 | `SV03` fails as written, and parses as version 3, format NONE, offset 4 with the numeric lookup |
| Header.BuildThenParse | lib/header/index.js:90-152 | round trip of the front end: `parse(build(opts) + payload)` recovers format, version, the type when written (the record's own otherwise) and the header's length as offset, under the tag guard |
| Header.MarkerRoundTrip | lib/header/index.js:95-102 | the same round trip with the version marker written out |
| Header.AfterHeader | lib/header/index.js:131-141 | for a header that starts with a registered version-3 marker, `parse` is the rule's positional read after the marker |
| Header.AfterMarker | lib/header/index.js:131-141 | for any string that starts with a registered version-3 marker, `parse` is the rule's positional read after it |
| Header.RecordHeader | lib/settings.js:81-84 | the evidently intended `makeHeader` succeeds iff format and type are set and the version is registered, and starts with the version marker |
| Header.RecordHeaderParses | lib/settings.js:81-84 | the intended `makeHeader` inverts `parse`: a record's full header parses back to its format, type and version |
| Profiles.Plugin.Serves | lib/index.js:11-17 | every plugin serves a format other than NONE |
| Profiles.Entries | lib/profiles/all.js:6-12 | a table has exactly the keys JSON, PHP, UBJSON and JSOX, with the given loaders |
| Profiles.Enabled | lib/index.js:160-171 | the enabled formats are table keys, and a format is enabled exactly when `getFormat` of it yields a plugin |
| Profiles.TableOf | lib/profiles/all.js:6-12 | every profile's table has no NONE entry and keys JSON to JSOX, every loader yields its own format's plugin, JSON is always enabled, and the enabled set is within the full profile's |
| Profiles.Resolve | lib/index.js:160-176 | `getFormat` of a set format, then a call: an absent loader is "Invalid plugin format", a `false` loader leaves nothing to call, and success, exactly when the format's loader exists and yields a plugin, gives that plugin |
| Profiles.AllProfile | lib/profiles/all.js:6-12 | the full profile, like the transcoder's own table, enables JSON, PHP, UBJSON and JSOX |
| Profiles.DefaultProfile | lib/profiles/default.js:6-12 | the default profile enables JSON, PHP and UBJSON, and JSOX fails through its `false` loader |
| Profiles.BinProfile | lib/profiles/bin.js:6-12 | the binary profile enables JSON and UBJSON, and PHP and JSOX fail through their `false` loaders |
| Profiles.JsoProfile | lib/profiles/jso.js:6-12 | the JSO profile enables JSON and JSOX, and PHP and UBJSON fail through their `false` loaders |
| Profiles.PhpProfile | lib/profiles/php.js:6-12 | the PHP profile enables JSON and PHP, and UBJSON and JSOX fail through their `false` loaders |
| Profiles.NoneHasNoPlugin | lib/profiles/all.js:6-12 | NONE resolves to no plugin in any profile |
| Transcoder.Payload | lib/index.js:194-212 | the payload is the Base64 text of a string, the (optionally urlized) Base64 of a buffer, the Base64 of `toString()` otherwise; undefined and null have no `toString` |
| Transcoder.EncodeValueSpec | lib/index.js:190-215 | `encodeValue` succeeds iff `build` and the payload do, and is the header followed by the payload |
| Transcoder.Chosen | lib/index.js:160 | `getFormat` looks up its argument when one is given, and the instance's format when it is undefined |
| Transcoder.RunsPlugin | lib/index.js:265-266 | `encode` never runs a plugin for format NONE; for non-string data it runs one for any other format; for a string only when `encodeStrings` is `true` as well |
| Transcoder.EncodeSpec | lib/index.js:261-277 | `encode` begins with the header; without a plugin run it is `encodeValue`; an absent or disabled plugin fails; a truthy plugin result replaces the data |
| Transcoder.DecodePayload | lib/index.js:230-240 | with `wantBytes` the payload is deurlized (unless `url` is false) and turned into bytes; otherwise it is Base64-decoded as text |
| Transcoder.DecodeStored | lib/index.js:230-240 | a record's payload is the text after its offset |
| Transcoder.DecodeData | lib/index.js:217-241 | a string is parsed first and its parse errors surface; a record is decoded from its payload; anything else is "invalid state data" |
| Transcoder.PluginOpts | lib/formats/ubjson.js:19-24 | the UBJSON plugin decodes with `wantBytes` set; other plugins leave the options as they are |
| Transcoder.ViaPlugin | lib/formats/json.js:14-17 | a plugin's `decode(state)` fails for a non-string record; a text plugin hands the serializer the Base64-decoded text after the offset |
| Transcoder.RouteOf | lib/index.js:296-303 | format NONE or type RAW goes straight to Base64; anything else goes through the plugin of the parsed format, or of the instance's format when the header left it unset, failing with `getFormat`'s error |
| Transcoder.DecodeSpec | lib/index.js:289-303 | `decode` fails with `parse`'s error; a string without a marker fails with `getFormat`'s error for the instance's format, or is decoded whole by that format's plugin |
| Transcoder.Detected | lib/index.js:59-72 | a non-zero result is a listed version whose marker begins the string, and no version listed before it has a matching marker; zero means no listed marker does |
| Transcoder.State.constructor | lib/state.js:13-19 | a new State stores parent, data and options as given, with an empty history |
| Transcoder.State.Update | lib/state.js:21-33 | the old data is appended to the history; a record is replaced by its `next` (format and type carried over, linked by `prev`), anything else by the new data; the options are unchanged and the State itself is returned |
| Transcoder.State.Decode | lib/state.js:35-38 | `decode()` is the parent's `decodeValue` on this State: a held string is replaced by a fresh record holding what it parses to, or stays when the parse fails; other data, the options and the history stay |
| Transcoder.Data64.constructor | lib/index.js:155-158 | the instance options are the defaults overridden by the constructor options |
| Transcoder.Data64.DetectHeader | lib/index.js:59-72 | the loop returns the first version whose marker begins the string, or 0 |
| Transcoder.Data64.GetFormat | lib/index.js:160-176 | an undefined argument stands for the instance's format; a format without a loader is "Invalid plugin format" of that format; a loader yields the plugin `Resolve` finds, and a `false` loader is exactly the case where nothing can be called |
| Transcoder.Data64.ParseHeader | lib/index.js:178-182 | `parseHeader` is `parse` on a fresh record with format and type unset |
| Transcoder.Data64.GetState | lib/index.js:184-188 | an existing State is returned as it is; otherwise a fresh State with the merged options and an empty history |
| Transcoder.Data64.EncodeValue | lib/index.js:190-215 | `encodeValue` computes `EncodeValueSpec` of the state's data and options |
| Transcoder.Data64.DecodeValue | lib/index.js:217-241 | `decodeValue` computes `DecodeData`; a string in an existing State is replaced by a fresh record holding its parsed format, type, version and offset and the string itself, and stays when the parse fails; nothing else about the State changes |
| Transcoder.Data64.PluginDecode | lib/formats/ubjson.js:19-24 | a plugin's `decode(state)` decodes the record's payload under the plugin's options (bytes, as a buffer, for UBJSON) and hands it to the serializer |
| Transcoder.Data64.Encode | lib/index.js:261-277 | `encode` computes `EncodeSpec` of the state's data and options; an existing State keeps its options, and when the plugin returns something truthy its old data is appended to the history and its data becomes that result (for a record, a fresh successor holding it); otherwise the State is unchanged |
| Transcoder.Data64.Decode | lib/index.js:289-313 | `decode` succeeds iff `DecodeSpec` does, with its error otherwise; it returns the value, or with `wantState` a fresh State whose options are the merged ones (with `wantBytes` set for UBJSON), whose history is the parsed record (format, type, version, offset as parsed) and whose data is that record's successor holding the value; for a nil value the record stays the data and the history is empty |
| Transcoder.Data64.StaticEncode | lib/index.js:322-326 | the static `encode` is `EncodeSpec` under the defaults overridden by the given options |
| Transcoder.Data64.StaticDecode | lib/index.js:335-339 | the static `decode` succeeds iff `DecodeSpec` under the merged options does, fails with its error otherwise, and returns the value or, with `wantState`, a State |
| Transcoder.EffectiveOptions | lib/index.js:19-27 | each option is the constructor's value when given and otherwise the default: JSON, ARR_OBJ, no full header, strings not serialized, URL-safe, version 3 |
| Transcoder.DefaultHeader | lib/index.js:34-46 | the default options give the header `SV03F1T1` |
| Transcoder.StringPassThrough | lib/index.js:265-274 | without `encodeStrings` a string is not serialized: under the defaults it becomes `SV03F1T1` followed by its Base64 text |
| Transcoder.PluginGate | lib/index.js:265-274 | the plugin is skipped for format NONE and for a string without `encodeStrings`; an unset format runs the plugin of the instance's format |
| Transcoder.HeaderlessDecode | lib/index.js:160-182 | a string without a marker parses to an unset record, and the default instance decodes the whole string as Base64 text and hands it to JSON; an instance with no format at all fails as "Invalid plugin format: undefined" |
| Transcoder.DispatchFollowsHeader | lib/index.js:291-303 | `decode` routes on the header `build` wrote: directly for NONE or a written RAW type, and otherwise through the plugin of the header's format |
| Transcoder.ObjectTypesAlike | lib/common.js:41-45 | ARR_OBJ and STD_OBJ are written alike and routed alike |
| Transcoder.UbjsonForcesBytes | lib/formats/ubjson.js:19-24 | the UBJSON plugin always decodes the deurlized payload's bytes, whatever `wantBytes` the caller set |
| Transcoder.TextRoundTrip | lib/index.js:261-313 | decoding what `encode` wrote for a string under format NONE gives the string back, given a Base64 round trip and the tag guard |
| Transcoder.PluginRoundTrip | lib/index.js:261-313 | decoding what `encode` wrote through a non-UBJSON plugin gives the value back, given serializer and Base64 round trips and the tag guard |
| Transcoder.UbjsonRoundTrip | lib/formats/ubjson.js:14-24 | decoding what `encode` wrote through UBJSON gives the value back: the bytes go out as (urlized) Base64 and come back through `deurlize` and `toBytes`, given that the Base64 text gives back the bytes, the serializer reads their buffer back as the value, and the tag guard |
| Transcoder.DetectCurrent | lib/index.js:59-72 | `detectHeader` gives 3 exactly for strings beginning `SV03`, else 0 |
| Transcoder.DetectThenParse | lib/header/index.js:133-141 | a string `detectHeader` accepts is one `parse` reads as version 3, handing the rest to the version-3 rule |
| Transcoder.LaxVersionField | lib/header/index.js:133-137 | `SV3` is no header to `detectHeader`, yet `parse` reads its clipped version field as version 3 |

## Left out

- The URL-safe Base64 library (`encodeText`, `fromBytes`, `urlize`, `deurlize`, `toBytes`, `decodeText`) is foreign code. These are uninterpreted function parameters; the round-trip lemmas take what they need of them as hypotheses.
- The serializers inside the format plugins (`JSON`, `php-serialize`, `@shelacek/ubjson`, `jsox`) are foreign code. They are parameters too. How the plugins pick sub-options (replacers, revivers, PHP scopes) is not modelled; those keys pass through opaquely in `Options.passthrough`.
- `createProfile`: the module that builds a profile class from a table is not part of this model. A profile is its table, handed to the `Data64` constructor.
- Instanced plugins (`new plugin(this)` in `getFormat`) are not modelled: every loader yields a static plugin or `false`.
- The lazy `require` of loaders, `console.error` logging, and the static properties attached to `Data64` have no behaviour to state.
- `toString()` of an arbitrary value is the parameter `Library.toText`; only a `Settings` record's text, `[object Object]`, is fixed.
- Numbers are unbounded integers. JavaScript doubles, NaN and fractional values are not modelled; option values of the wrong JavaScript type are modelled as an absent key (`None`).
- HexText.Dec: `parseInt(s, 16)` laxness is not modelled (prefix parsing, signs, `0x`, whitespace). Well-formed hex text, in either case, is read; any other text is refused.
- Metadata.CheckVersion: text that is not hex is refused with `MalformedHex`. In JavaScript it becomes NaN, passes both range checks and is stored.
- V3.Parse: a field that is not hex text stops the parse with `MalformedHex`. In JavaScript it records NaN and goes on.
- Transcoder.DecodePayload: a non-string payload is refused with `PayloadNotString`. What the Base64 library would do with it is not modelled.
- Transcoder.Data64.StaticDecode: with `wantState` it states only that a State is returned. The State's contents are stated by `Transcoder.Data64.Decode`.
- Header.Parse: a `string` argument that is not a string (`needType(S, ...)`) cannot arise, since the argument is typed.
- RangeError and TypeError messages are modelled as error constructors, not as text.
- Config.Merge: `Object.assign` copies a key set to `undefined` explicitly, which then overrides the base. An option the model holds as `None` is a key left unset, so such an explicit `undefined` is lost and the base's value stays.

## Findings

| source | as written | input that shows it | evidently intended | confidence | as-written member | corrected member |
|---|---|---|---|---|---|---|
| lib/header/index.js:137 | the version is looked up as `settings.ver`, which `Settings` never defines, so `ver` is undefined and no registered rule is found | `parse("SV03")` ends in "Unsupported version: undefined" | look the rule up by the numeric version the setter just stored, so `SV03` parses as version 3, format NONE, offset 4 | not executed | Header.AsWrittenRejectsSV03 | Header.BuildThenParse |
| lib/settings.js:83 | `makeHeader` calls `build(format, type, version, full)`, but `build` takes one options object and reads `.format` of a number | `new Settings(1, 1).makeHeader()` fails with "format must be a number" | `build({format, type, version, fullHeader})`, whose result parses back to the record's fields | not executed | Header.MakeHeaderAsWritten | Header.RecordHeaderParses |
