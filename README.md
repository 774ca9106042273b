# EcoFlow cloud integration: decode, state and command pipeline

This project is a Dafny model of the telemetry and command core of the
EcoFlow cloud integration for Home Assistant, together with proofs about
that model.

- **Frames in.** A device publishes a JSON envelope whose `pData` is base64
  protobuf. The v3 codec (`mqtt/codec_v3.py`) decodes it in one of two ways:
  - through the nested `Send_Header_Msg` → `Header` shape, where headers are
    XOR-de-obfuscated and dispatched through the inner `(cmd_func, cmd_id)` table;
  - or through the outer `(moduleType, cmd)` table.

  Either way it normalizes the message into dotted keys and keeps two
  counters. `mqtt/__init__.py` chooses the codec by model family.
  `mqtt/proto_loader.py` fills the two dispatch tables from `"a,b"` keys.
- **State.** The coordinator (`coordinator.py`) merges each normalized result
  into its running snapshot, stamps the update time and calls its listeners
  in order.
- **Commands out.** `mqtt/commands_v3.py` clamps each command's argument and
  builds a two-key payload. With no descriptor pool bound, the payload is
  compact UTF-8 JSON. The coordinator publishes it, base64-encoded, to the
  device's command topic.
- **Transport.** The MQTT client (`ecoflow_mqtt.py`) keeps the subscription
  table and re-subscribes on every connect. It publishes only while
  connected, counts publishes and disconnects, and runs an idle watchdog.
- **Profiles.** These are `devices/public/data_bridge.py` (flattening public
  API reports), `devices/internal/river_3_plus.py` (the River 3 Plus entity
  map) and `devices/registry.py` (product-code lookup).

## Files

| file | module | what it holds |
|---|---|---|
| wrappers.dfy | Wrappers | `Option` and `Result` |
| dicts.dfy | Dicts | A Python dict, modelled as its insertion-ordered entry list. `Get`, `Put` (`d[k] = v`) and `Update` (`d.update(e)`), with their laws. |
| values.dfy | Values | JSON values and protobuf field bags. Also `int()` of text and of bytes, `str()`/`repr()`, truthiness. |
| base64.dfy | Base64 | RFC 4648 section 4 encoding, and the non-validating `b64decode` (`binascii.a2b_base64`) of CPython 3.11 and later. |
| codec.dfy | CodecV3 | The codec state as a class. `decode_v3` as a specification function, and the method proved against it. |
| envelope.dfy | Envelope | Family dispatch. |
| proto_loader.dfy | ProtoLoader | Dispatch-key parsing and the two registration loops. |
| commands.dfy | CommandsV3 | Clamping, payload shapes, compact JSON, and reading a command back. |
| transport.dfy | Transport | The MQTT client's bookkeeping. |
| coordinator.dfy | Coordination | The coordinator: message handling, listener fan-out, commands. |
| data_bridge.dfy | DataBridge | `to_plain`, as functions and as the loops the source runs. |
| river3plus.dfy | River3Plus | `NormalizedState.get` and `build_entities`. |
| registry.dfy | Registry | The profile registry. |

## External parts and how they are modelled

- **Protobuf parsing.** It is the parameter `Protobuf.parse(typeName, bytes)`. Its
  result `Parsed` is one of three: a field bag (`Parsed`), a `DecodeError`
  (`Malformed`), or any other exception raised while parsing (`Failed`).
  The codec tells the last two apart: in the nested attempt a `DecodeError`
  counts one error and another exception counts none, and in the legacy path
  either counts one.
- **Descriptor pools.** A pool is the set of message names it can resolve.
- **Inbound JSON.** `json.loads` is a parameter `parse: bytes -> Option<Json>`.
- **Time.** Every clock reading is a whole-second parameter `now`.
- **The broker connection.** It is the flag `connected`. What the client asks of the
  broker is appended to `wire`.
- **Listeners.** A listener is an identifier. Whether it raises is a parameter.
- **`const.py`.** It is not part of this model. The families are the datatype
  `Family`, and the idle threshold is a parameter.

## Model

| member | source | states |
|---|---|---|
| Dicts.Put | custom_components/ecoflow_cloud/devices/public/data_bridge.py:35 | `d[k] = v`: `k` now maps to `v` and every other key keeps its value. The key set gains `k`. A new key is appended at the end, an existing one keeps its place. Distinct keys stay distinct. |
| Dicts.Update | custom_components/ecoflow_cloud/coordinator.py:80 | `d.update(e)`: each key of `e` takes `e`'s last value for it, and every other key keeps `d`'s value. The key set is the union. |
| Dicts.UpdateIdempotent | custom_components/ecoflow_cloud/coordinator.py:80 | Merging the same dict twice equals merging it once. |
| Dicts.UpdateAppend | custom_components/ecoflow_cloud/coordinator.py:80 | Updating with `e1 + e2` is updating with `e1`, then with `e2`. |
| Values.IntToString | custom_components/ecoflow_cloud/devices/public/data_bridge.py:29 | `str(i)` of an int is non-empty and ends in a digit. |
| Values.ParseIntToString | custom_components/ecoflow_cloud/mqtt/proto_loader.py:20 | `int()` of text (`ParseInt`) reads back every integer's decimal text. |
| Values.ParseIntPadded | custom_components/ecoflow_cloud/mqtt/proto_loader.py:20 | `int()` ignores surrounding whitespace: any character of `str.isspace()`'s set on either side of an integer's text. |
| Values.ParseIntSeparator | custom_components/ecoflow_cloud/mqtt/proto_loader.py:20 | The separators U+001C to U+001F count as whitespace, so `int("\x1c5")` is 5. |
| Values.BytesSeparator | custom_components/ecoflow_cloud/mqtt/codec_v3.py:227-230 | `int()` of a bytes value (`IntOfField` on `FBytes`) strips only ASCII whitespace (0x09 to 0x0D and 0x20): `int(b" 5")` is 5, while `int(b"\x1c5")` and `int(b"\xa05")` raise. |
| Values.ParseIntBytesAgrees | custom_components/ecoflow_cloud/mqtt/codec_v3.py:227-230 | Where `int()` of bytes succeeds, `int()` of the same characters as text (`ParseInt`) gives the same integer. |
| Values.RealOfInt | custom_components/ecoflow_cloud/mqtt/codec_v3.py:139 | `float(i)` truncates back to `i`, and is truthy exactly when `i != 0`. Python agrees only for `abs(i) <= 2**53`; see Left out. |
| Values.CoercionsAgree | custom_components/ecoflow_cloud/mqtt/codec_v3.py:127-163 | The field coercions `IntOfField`, `FloatOfField` and `BoolOfField` agree on int and bool fields: `int(float(f)) == int(f)` (in Python only for `abs(f) <= 2**53`; see Left out), and `bool(f)` is `int(f) != 0` before and after `float()`. A text field spelling an integer reads back as it. |
| Values.Find | custom_components/ecoflow_cloud/mqtt/proto_loader.py:19 | The index of the first occurrence of a character at or after a position, or the length when there is none: where `split(sep, 1)` cuts a dispatch key, and where a quoted name in a command text ends. |
| Base64.Encode | custom_components/ecoflow_cloud/ecoflow_mqtt.py:72 | The encoding is pure ASCII. |
| Base64.EncodeLength | custom_components/ecoflow_cloud/ecoflow_mqtt.py:72 | The encoding has `4 * ceil(n / 3)` characters. |
| Base64.AlphabetDecodes | custom_components/ecoflow_cloud/mqtt/codec_v3.py:178 | Every alphabet character decodes to its own sextet. |
| Base64.RoundTrip | custom_components/ecoflow_cloud/mqtt/codec_v3.py:178 | `Decode` (`b64decode`): `b64decode(b64encode(b)) == b` for every byte string. |
| Base64.RunEncode | custom_components/ecoflow_cloud/mqtt/codec_v3.py:178 | The decoder, started at any position before an encoding, emits exactly the encoded bytes. |
| Base64.Clean | custom_components/ecoflow_cloud/mqtt/codec_v3.py:178 | Removing the characters that non-validating mode skips leaves none of them. |
| Base64.DecodeIgnoresJunk | custom_components/ecoflow_cloud/mqtt/codec_v3.py:178 | Non-validating `b64decode` (`Decode`) gives the same result once non-alphabet characters are removed. |
| CodecV3.XorInPlace | custom_components/ecoflow_cloud/mqtt/codec_v3.py:83-88 | The buffer becomes `Xored(old, key)`. |
| CodecV3.XoredTwice | custom_components/ecoflow_cloud/mqtt/codec_v3.py:83-88 | XOR keeps the length, and applying it twice with the same key restores the buffer. |
| CodecV3.XoredIdentity | custom_components/ecoflow_cloud/mqtt/codec_v3.py:84-86 | A key `<= 0`, or one whose low byte is 0, leaves the buffer unchanged. |
| CodecV3.Registration | custom_components/ecoflow_cloud/mqtt/codec_v3.py:55-58 | Registration succeeds exactly when the pool resolves the name. It fails with "pool not bound" exactly when there is no pool. |
| CodecV3.Codec.RegisterDispatch | custom_components/ecoflow_cloud/mqtt/codec_v3.py:53-59 | Raises as `Registration` says. On success, exactly `(moduleType, cmd)` of the outer table is (re)bound. The inner table, pool and counters are unchanged. |
| CodecV3.Codec.RegisterCmdDispatch | custom_components/ecoflow_cloud/mqtt/codec_v3.py:62-68 | The same for the inner table; the outer table is untouched. |
| CodecV3.EnsureCommon | custom_components/ecoflow_cloud/mqtt/codec_v3.py:91-124 | An existing pool is kept. Without one, a pool resolving `Common.Header` and `Common.Send_Header_Msg` is installed. Afterwards there is always a pool, so a second call changes nothing. |
| CodecV3.Codec.EnsureCommonDescriptors | custom_components/ecoflow_cloud/mqtt/codec_v3.py:91-124 | Only the pool changes, as `EnsureCommon` says. |
| CodecV3.FirstResolvable | custom_components/ecoflow_cloud/mqtt/codec_v3.py:71-80 | Returns the first name the pool resolves, or `None` exactly when it resolves none of them. |
| CodecV3.Codec.TryFindMessage | custom_components/ecoflow_cloud/mqtt/codec_v3.py:71-80 | The loop returns `FirstResolvable` of the current pool. |
| CodecV3.CommonFallbackNames | custom_components/ecoflow_cloud/mqtt/codec_v3.py:183-196 | The synthesized pool finds `Common.Send_Header_Msg` and `Common.Header` among the listed candidates. |
| CodecV3.Targets | custom_components/ecoflow_cloud/mqtt/codec_v3.py:127-163 | The output keys of the normalization table, in table order. |
| CodecV3.TableKeysDistinct | custom_components/ecoflow_cloud/mqtt/codec_v3.py:127-163 | The 15 output keys are distinct. |
| CodecV3.NormalizeRowsSpec | custom_components/ecoflow_cloud/mqtt/codec_v3.py:127-163 | Over any table with distinct targets, normalization raises exactly when a present field fails its coercion. Otherwise each target holds the coerced field when the field is present and is absent when it is not. No other key appears. |
| CodecV3.NormalizeSpec | custom_components/ecoflow_cloud/mqtt/codec_v3.py:127-163 | `Normalize` (`_normalize`): the same statement for the fixed 15-row table. |
| CodecV3.NormalizeSoc | custom_components/ecoflow_cloud/mqtt/codec_v3.py:132-133 | A message with only `soc` normalizes to `{"pd.soc": soc}`. |
| CodecV3.Codec.DecodeHeader | custom_components/ecoflow_cloud/mqtt/codec_v3.py:227-241 | One header step. Fields are read snake_case first, then camelCase, then 0. XOR applies only for `enc_type == 1` and non-empty `pdata`. Unbound headers are skipped. |
| CodecV3.Codec.DecodeCommon | custom_components/ecoflow_cloud/mqtt/codec_v3.py:211-241 | The header loop folds the header steps in order into the left-to-right merge. |
| CodecV3.Codec.TryCommonEnvelope | custom_components/ecoflow_cloud/mqtt/codec_v3.py:195-248 | The nested attempt, as the specification function gives it. |
| CodecV3.Codec.DecodeLegacy | custom_components/ecoflow_cloud/mqtt/codec_v3.py:250-263 | The outer-table fallback, with its counters. |
| CodecV3.Codec.DecodePayload | custom_components/ecoflow_cloud/mqtt/codec_v3.py:182-259 | The nested attempt, then the fallback, with pool and counters. |
| CodecV3.Codec.DecodeV3 | custom_components/ecoflow_cloud/mqtt/codec_v3.py:166-267 | Output and new codec state are `Decode` of the old state. |
| CodecV3.LegacyCounters | custom_components/ecoflow_cloud/mqtt/codec_v3.py:250-263 | The fallback changes only the counters. `decoded` rises by one exactly when the output is non-empty. `errors` rises by at most one, and only with an empty output. |
| CodecV3.LegacyParseRaises | custom_components/ecoflow_cloud/mqtt/codec_v3.py:255-267 | When the outer table binds the frame and its parse raises, a `DecodeError` or any other exception, the result is `{}` and exactly one error is counted. |
| CodecV3.NestedFailureUncounted | custom_components/ecoflow_cloud/mqtt/codec_v3.py:245-246 | A nested attempt that raised something other than `DecodeError` counts nothing, and the payload goes on to the legacy path. |
| CodecV3.PayloadCounters | custom_components/ecoflow_cloud/mqtt/codec_v3.py:182-259 | A payload changes only the pool (as `EnsureCommon`) and the counters. `decoded` rises by one exactly for non-empty output. `errors` rises by at most two, and by at most one when the output is non-empty. |
| CodecV3.DecodeCounters | custom_components/ecoflow_cloud/mqtt/codec_v3.py:166-267 | `Decode` (`decode_v3`) never changes the tables. The pool is unchanged or becomes the Common fallback. `decoded` rises by one exactly for non-empty output, and `errors` by at most two. |
| CodecV3.DecodeWithoutPayload | custom_components/ecoflow_cloud/mqtt/codec_v3.py:173-177 | A missing or falsy `pData` (Python truthiness, `Truthy`) gives `{}` with the state untouched, once `moduleType` and `cmd` read as integers (`IntOfJson`). |
| CodecV3.DecodeRaised | custom_components/ecoflow_cloud/mqtt/codec_v3.py:264-267 | An exception while reading the envelope gives `{}` and one error: `int()` of `moduleType` or `cmd` failing (`IntOfJson`), or `b64decode` of `pData` raising (`Base64.DecodeJson`, which also raises for non-text). |
| CodecV3.NestedWins | custom_components/ecoflow_cloud/mqtt/codec_v3.py:242-244 | A non-empty nested result is the output, whatever the outer table holds. |
| CodecV3.NestedResult | custom_components/ecoflow_cloud/mqtt/codec_v3.py:242-244 | A non-empty nested result increments `decoded` by exactly one and skips the outer table. |
| CodecV3.MergeUnbound | custom_components/ecoflow_cloud/mqtt/codec_v3.py:236-239 | With an empty inner table every header is skipped. |
| CodecV3.NestedUnbound | custom_components/ecoflow_cloud/mqtt/codec_v3.py:236-239 | With an empty inner table a completed nested pass yields `{}`. |
| CodecV3.UnboundFrameIgnored | custom_components/ecoflow_cloud/mqtt/codec_v3.py:251-254 | With both tables unbound for the frame, the output is `{}`. `decoded` is unchanged. `errors` rises by one exactly when the nested parse hit a `DecodeError`. |
| CodecV3.EnvelopeCarries | custom_components/ecoflow_cloud/mqtt/codec_v3.py:173-178 | The envelope read gives `moduleType`, `cmd` and the base64-decoded `pData`. |
| CodecV3.ObfuscatedHeaderStep | custom_components/ecoflow_cloud/mqtt/codec_v3.py:227-241 | An obfuscated header with a bound `(cmd_func, cmd_id)` is de-obfuscated and normalized. |
| CodecV3.ObfuscatedNested | custom_components/ecoflow_cloud/mqtt/codec_v3.py:209-244 | The nested pass over one obfuscated header yields that header's normalized fields. |
| CodecV3.HeaderUnreadable | custom_components/ecoflow_cloud/mqtt/codec_v3.py:227-231 | `HeaderStep`: a header whose `int()` or `bytes()` reads raise stops the loop with an exception other than `DecodeError`. |
| CodecV3.HeaderUnbound | custom_components/ecoflow_cloud/mqtt/codec_v3.py:236-239 | `HeaderStep`: for any inner table, a readable header whose `(cmd_func, cmd_id)` is unbound is skipped. |
| CodecV3.HeaderParses | custom_components/ecoflow_cloud/mqtt/codec_v3.py:227-241 | `HeaderStep`: the inner type parses `pdata` XORed with `seq` exactly when `enc_type == 1` and `pdata` is non-empty, and `pdata` itself otherwise. A `DecodeError` of that parse aborts, any other exception of that parse (`Failed`) or a failing `_normalize` aborts with another exception, and otherwise the normalized fields are merged. |
| CodecV3.MergeUnfold | custom_components/ecoflow_cloud/mqtt/codec_v3.py:226-241 | `MergeHeaders`: the loop handles the first header, then goes on with the rest over the updated dict. |
| CodecV3.MergeFolds | custom_components/ecoflow_cloud/mqtt/codec_v3.py:226-241 | `MergeHeaders` is the left-to-right fold (`Fold`) of the headers' steps (`Steps`), so the loop's laws can be proved over steps. |
| CodecV3.FoldNoAbort | custom_components/ecoflow_cloud/mqtt/codec_v3.py:226-241 | A fold that completes met no aborting step. |
| CodecV3.FoldKeeps | custom_components/ecoflow_cloud/mqtt/codec_v3.py:241 | In a completed fold, a key no step merges keeps its earlier value. |
| CodecV3.FoldLastWins | custom_components/ecoflow_cloud/mqtt/codec_v3.py:241 | In a completed fold, a key holds the value from the last step that merges it. |
| CodecV3.MergeNoAbort | custom_components/ecoflow_cloud/mqtt/codec_v3.py:226-241 | A header loop that completes met no failing header. |
| CodecV3.MergeKeeps | custom_components/ecoflow_cloud/mqtt/codec_v3.py:241 | In a completed loop, a key that no header's normalized fields hold keeps its earlier value. |
| CodecV3.MergeLastWins | custom_components/ecoflow_cloud/mqtt/codec_v3.py:241 | In a completed loop, each key holds the value from the last header whose normalized fields have it. |
| CodecV3.ObfuscatedHeaderDecodes | custom_components/ecoflow_cloud/mqtt/codec_v3.py:166-244 | End to end, with no pool: the envelope of a base64 frame decodes to `{"pd.soc": soc}`. The fallback pool is installed and `decoded` rises by one. |
| CodecV3.NormalizeAbsent | custom_components/ecoflow_cloud/mqtt/codec_v3.py:127-163 | Rows whose fields are all absent contribute nothing. |
| CodecV3.Codec.GetMetrics | custom_components/ecoflow_cloud/mqtt/codec_v3.py:270-271 | Reports exactly the two counters. |
| CodecV3.Codec.ResetMetrics | custom_components/ecoflow_cloud/mqtt/codec_v3.py:274-277 | Both counters become 0 and nothing else changes. |
| CodecV3.Codec.BindDescriptors | custom_components/ecoflow_cloud/mqtt/codec_v3.py:32-35 | The outer table is replaced by a copy of the given one. |
| CodecV3.Codec.BindFileDescriptorSet | custom_components/ecoflow_cloud/mqtt/codec_v3.py:38-50 | The pool becomes the bound set of names. |
| CodecV3.Codec.constructor | custom_components/ecoflow_cloud/mqtt/codec_v3.py:22-29 | Empty tables, no pool, counters at 0. |
| Envelope.DecodeEnvelopeSpec | custom_components/ecoflow_cloud/mqtt/__init__.py:9-16 | Only the v3 family reaches the codec, and its result and state are `Decode`'s. The JSON family returns the envelope itself. Any other family returns `{}`, and the codec state is unchanged for both non-v3 families. |
| Envelope.DecodeEnvelope | custom_components/ecoflow_cloud/mqtt/__init__.py:9-16 | Result and codec state are those of `DecodeEnvelopeSpec`. |
| ProtoLoader.SplitKey | custom_components/ecoflow_cloud/mqtt/proto_loader.py:19 | `split(",", 1)` fails exactly when the key has no comma. Otherwise the first part has no comma, and the parts rejoin to the key. |
| ProtoLoader.IntToStringShape | custom_components/ecoflow_cloud/mqtt/proto_loader.py:19-20 | An integer's text has no comma and no surrounding space. |
| ProtoLoader.ParseKeyText | custom_components/ecoflow_cloud/mqtt/proto_loader.py:19-20 | `ParseKey`: `"a,b"` parses to `(a, b)`. |
| ProtoLoader.ParseKeyPadded | custom_components/ecoflow_cloud/mqtt/proto_loader.py:19-20 | `" a, b"` parses to the same `(a, b)`, so padded and unpadded keys collide. |
| ProtoLoader.ParseKeyTwoCommas | custom_components/ecoflow_cloud/mqtt/proto_loader.py:19-20 | `"1,2,3"` splits at the first comma, and `int("2,3")` fails. |
| ProtoLoader.LoadCompletes | custom_components/ecoflow_cloud/mqtt/proto_loader.py:18-20 | `Load`: the loop finishes without error exactly when every entry parses and registers. |
| ProtoLoader.LoadStopsAt | custom_components/ecoflow_cloud/mqtt/proto_loader.py:18-20 | At the first failing entry the loop stops. The table is what the entries before it made, and the error is that entry's. |
| ProtoLoader.LoadUntouched | custom_components/ecoflow_cloud/mqtt/proto_loader.py:18-20 | A table key that no entry names keeps its binding, or stays absent. |
| ProtoLoader.LoadLastWins | custom_components/ecoflow_cloud/mqtt/proto_loader.py:18-20 | After a complete load every entry's key is bound. An entry that no later entry overrides is bound to its own name. |
| ProtoLoader.NothingWithoutPool | custom_components/ecoflow_cloud/mqtt/proto_loader.py:18-20 | With no pool bound, the first entry fails and the table is unchanged. |
| ProtoLoader.RegisterDispatchFromJson | custom_components/ecoflow_cloud/mqtt/proto_loader.py:15-20 | The loop fills only the outer table, as `Load` says, and returns `Load`'s error. |
| ProtoLoader.RegisterCmdDispatchFromJson | custom_components/ecoflow_cloud/mqtt/proto_loader.py:23-28 | The loop fills only the inner table, as `Load` says. |
| CommandsV3.Bool01 | custom_components/ecoflow_cloud/mqtt/commands_v3.py:7-8 | The result is 0 or 1, and it is 1 exactly for `True`. |
| CommandsV3.ClampPercent | custom_components/ecoflow_cloud/mqtt/commands_v3.py:20 | The result lies in 0..100. A value inside that range is kept, a negative one gives 0, and one above 100 gives 100. |
| CommandsV3.NonNegative | custom_components/ecoflow_cloud/mqtt/commands_v3.py:25 | The result is never negative. A negative value gives 0, otherwise it is kept, and there is no upper bound. |
| CommandsV3.Command | custom_components/ecoflow_cloud/mqtt/commands_v3.py:11-30 | Exactly two keys, `"type"` then the value field, holding the tag and the integer. |
| CommandsV3.CommandsShareName | custom_components/ecoflow_cloud/mqtt/commands_v3.py:62-64 | With a bound pool every command is serialized under the one name `ecoflow.v3.Command`. It succeeds exactly when that serialization does, and yields its bytes. |
| CommandsV3.MinSocExamples | custom_components/ecoflow_cloud/mqtt/commands_v3.py:19-21 | 150 → 100, -5 → 0, 42 → 42. |
| CommandsV3.EscapeChar | custom_components/ecoflow_cloud/mqtt/commands_v3.py:53 | Escapes are ASCII, and a printable character other than `"` or `\` stands for itself. |
| CommandsV3.Escaped | custom_components/ecoflow_cloud/mqtt/commands_v3.py:53 | `json.dumps` string bodies are ASCII. |
| CommandsV3.EscapedPlain | custom_components/ecoflow_cloud/mqtt/commands_v3.py:53 | A plain string is not altered by escaping. |
| CommandsV3.FlatAscii | custom_components/ecoflow_cloud/mqtt/commands_v3.py:53 | The compact JSON of a flat dict of scalars is ASCII. |
| CommandsV3.Utf8Ascii | custom_components/ecoflow_cloud/mqtt/commands_v3.py:53 | UTF-8 of ASCII text is one byte per character, equal to its code. |
| CommandsV3.ObjPair | custom_components/ecoflow_cloud/mqtt/commands_v3.py:53 | `Dumps`: a two-key dict dumps as `{k1:v1,k2:v2}`, with no spaces, in insertion order. |
| CommandsV3.CommandText | custom_components/ecoflow_cloud/mqtt/commands_v3.py:49-53 | A command payload dumps to `{"type":"<TAG>","<field>":<n>}`. |
| CommandsV3.ParseCommandText | custom_components/ecoflow_cloud/mqtt/commands_v3.py:49-53 | Reading that text back gives the tag, the field and the value. |
| CommandsV3.CommandBytes | custom_components/ecoflow_cloud/mqtt/commands_v3.py:48-64 | With no pool bound, `_encode_command` returns the UTF-8 bytes of that text, one byte per character, and the text reads back to the command. |
| CommandsV3.CommandsReadBack | custom_components/ecoflow_cloud/mqtt/commands_v3.py:11-30 | Each of the five commands reads back as its tag, field and clamped or 0/1 value. |
| CommandsV3.BuildOutcome | custom_components/ecoflow_cloud/mqtt/commands_v3.py:48-59 | `BuildMessage` never fails without a pool, and a flat dict of scalars becomes its compact JSON (`Dumps`) in ASCII, one byte per character, whatever the name. With a pool it fails exactly when serialization does. |
| CommandsV3.SentAsCommand | custom_components/ecoflow_cloud/mqtt/commands_v3.py:62-64 | `EncodeCommand` without a pool sends a command as the UTF-8 of ASCII text that reads back as its tag, field and value. |
| CommandsV3.CommandsSend | custom_components/ecoflow_cloud/mqtt/commands_v3.py:11-30 | `SetAcOutput` … `SetXboost` (and their payloads): without a pool each succeeds, and its bytes are the UTF-8 of ASCII text that reads back as its tag, its field and the argument clamped to 0..100, floored at 0, or made 0/1. |
| Transport.ResubscribeExact | custom_components/ecoflow_cloud/ecoflow_mqtt.py:77-81 | Re-subscribing sends one request per recorded topic, each with exactly the stored qos, and every recorded subscription is sent. |
| Transport.SubscribeFiles | custom_components/ecoflow_cloud/ecoflow_mqtt.py:64-66 | Recording a subscription keeps each topic filed once under itself, and the next connect sends it with the new qos. |
| Transport.AfterWatchdog | custom_components/ecoflow_cloud/ecoflow_mqtt.py:101-109 | The last-packet time stays unless the client was idle past the threshold and the reconnect returned normally, in which case it becomes `now`. |
| Transport.MqttClient.constructor | custom_components/ecoflow_cloud/ecoflow_mqtt.py:28-47 | No subscriptions, no handler, counters at 0, last-packet time `now`. |
| Transport.MqttClient.SetMessageHandler | custom_components/ecoflow_cloud/ecoflow_mqtt.py:49-50 | A handler is set and nothing else changes. |
| Transport.MqttClient.Subscribe | custom_components/ecoflow_cloud/ecoflow_mqtt.py:64-66 | `topic` maps to `(topic, qos)`, replacing an earlier qos. Other topics are unchanged, and the request is sent. |
| Transport.MqttClient.PublishBase64 | custom_components/ecoflow_cloud/ecoflow_mqtt.py:68-74 | While disconnected nothing is sent and `published` is unchanged. While connected the base64 text goes out and `published` rises by exactly one. |
| Transport.MqttClient.OnConnect | custom_components/ecoflow_cloud/ecoflow_mqtt.py:77-81 | Every recorded subscription is sent again, in table order. |
| Transport.MqttClient.OnDisconnect | custom_components/ecoflow_cloud/ecoflow_mqtt.py:83-85 | `reconnects` rises by exactly one. |
| Transport.MqttClient.OnMessage | custom_components/ecoflow_cloud/ecoflow_mqtt.py:87-96 | The last-packet time becomes `now`. The handler receives `(topic, {"raw": payload})` when one is set, and nothing else happens when none is. |
| Transport.MqttClient.WatchdogStep | custom_components/ecoflow_cloud/ecoflow_mqtt.py:101-109 | A reconnect is forced exactly when the client is idle past the threshold. The time follows `AfterWatchdog`. |
| Transport.MqttClient.GetMetrics | custom_components/ecoflow_cloud/ecoflow_mqtt.py:116-121 | The two counters, and a never-negative idle age equal to `now - last` when that is not negative. |
| Coordination.StateTopic | custom_components/ecoflow_cloud/coordinator.py:35 | `/app/device/property/` followed by the serial. |
| Coordination.CommandTopic | custom_components/ecoflow_cloud/coordinator.py:68 | `/app/device/thing/property/set/` followed by the serial. |
| Coordination.TopicsApart | custom_components/ecoflow_cloud/coordinator.py:35-68 | No state topic is a command topic, and each topic determines its serial. |
| Coordination.Coordinator.constructor | custom_components/ecoflow_cloud/coordinator.py:25-32 | Empty state, no listeners, update time 0. The handler is installed on the client. |
| Coordination.Coordinator.Start | custom_components/ecoflow_cloud/coordinator.py:34-37 | Subscribes to the state topic at qos 0. |
| Coordination.Coordinator.OnState | custom_components/ecoflow_cloud/coordinator.py:42-43 | Appends the listener. |
| Coordination.Coordinator.HandleMessage | custom_components/ecoflow_cloud/coordinator.py:71-92 | Missing or empty `raw`, an empty result, or a caught exception leaves state, timestamp and listeners untouched. A non-empty result is merged key-wise and stamps `now`. The listeners are then called in order with the post-merge snapshot, up to the first that raises. |
| Coordination.Coordinator.Notify | custom_components/ecoflow_cloud/coordinator.py:82-85 | The calls are `Fanout` of the listeners. |
| Coordination.FanoutAll | custom_components/ecoflow_cloud/coordinator.py:82-85 | When no listener raises, each is called exactly once, in registration order, with the one snapshot. |
| Coordination.FanoutStops | custom_components/ecoflow_cloud/coordinator.py:82-85 | The first listener that raises ends the loop. |
| Coordination.MergeOverwrites | custom_components/ecoflow_cloud/coordinator.py:80 | Keys of the result take new values, and every other key keeps its old one. |
| Coordination.MergeTwice | custom_components/ecoflow_cloud/coordinator.py:80 | Merging the same result twice equals merging it once. |
| Coordination.ReactJson | custom_components/ecoflow_cloud/coordinator.py:74-80 | For the JSON family, `{}` is ignored, unparsable input fails, and a dict is merged. |
| Coordination.ReactOutcome | custom_components/ecoflow_cloud/coordinator.py:73-80 | `React`: without raw bytes nothing happens, and a merge always carries a non-empty dict. Another family never merges and leaves the codec alone. For the v3 family the codec state is the decoder's, and the decoded dict is merged exactly when it is non-empty. |
| Coordination.Coordinator.SecondsSinceUpdate | custom_components/ecoflow_cloud/coordinator.py:87-90 | 1,000,000 while no update has landed, otherwise `max(0, now - last)`. |
| Coordination.Coordinator.PublishCommand | custom_components/ecoflow_cloud/coordinator.py:67-69 | Publishes to the command topic at qos 0 without retain, and only while connected. |
| Coordination.Coordinator.SendCommand | custom_components/ecoflow_cloud/coordinator.py:67-69 | A build error propagates and nothing is sent. Otherwise the result is as `PublishCommand` says. |
| Coordination.Coordinator.SetAcOutput | custom_components/ecoflow_cloud/coordinator.py:46-48 | Publishes `set_ac_output`'s bytes to the command topic while connected. |
| Coordination.Coordinator.SetDcOutput | custom_components/ecoflow_cloud/coordinator.py:50-52 | The same for `set_dc_output`. |
| Coordination.Coordinator.SetMinSoc | custom_components/ecoflow_cloud/coordinator.py:54-56 | The same for `set_min_soc`. |
| Coordination.Coordinator.SetAcChargePower | custom_components/ecoflow_cloud/coordinator.py:58-60 | The same for `set_ac_charge_power`. |
| Coordination.Coordinator.SetXboost | custom_components/ecoflow_cloud/coordinator.py:62-64 | The same for `set_xboost`. |
| Coordination.PublishedMinSoc | custom_components/ecoflow_cloud/coordinator.py:54-56 | The published text base64-decodes to the JSON bytes, and those read back as `SET_MIN_SOC` with the clamped value. |
| DataBridge.StatusNamesDistinct | custom_components/ecoflow_cloud/devices/public/data_bridge.py:5-17 | The plain names are distinct, and so are the status names. |
| DataBridge.StatusRoundTrip | custom_components/ecoflow_cloud/devices/public/data_bridge.py:5-17 | `status_to_plain` inverts `plain_to_status`, in both directions. |
| DataBridge.Prefix | custom_components/ecoflow_cloud/devices/public/data_bridge.py:22-31 | Fails exactly for a non-text `typeCode`. Otherwise `cmdFunc` and `cmdId` are written with `str()` (`PyStr`). A non-empty prefix ends in a dot, and without `typeCode` and without both `cmdFunc` and `cmdId` the prefix is empty. |
| DataBridge.PrefixOfStatus | custom_components/ecoflow_cloud/devices/public/data_bridge.py:23-27 | A known status type gives its plain name plus a dot. |
| DataBridge.PutAllIsUpdate | custom_components/ecoflow_cloud/devices/public/data_bridge.py:34-35 | The prefixed writes are `dict.update` with the prefixed entries. |
| DataBridge.PutOthersIsUpdate | custom_components/ecoflow_cloud/devices/public/data_bridge.py:41-43 | The top-level pass is `dict.update` with the entries other than `param` and `params`, prefixed. |
| DataBridge.FlattenIsUpdates | custom_components/ecoflow_cloud/devices/public/data_bridge.py:33-43 | The flat params are `param`, then `params`, then the other top-level entries, each merged over the one before. |
| DataBridge.OthersKeys | custom_components/ecoflow_cloud/devices/public/data_bridge.py:41-43 | The top-level pass takes every key except `param` and `params`. |
| DataBridge.OthersGet | custom_components/ecoflow_cloud/devices/public/data_bridge.py:41-43 | Any other key keeps its value. |
| DataBridge.PrefixedGet | custom_components/ecoflow_cloud/devices/public/data_bridge.py:35 | Prefixing is one-to-one: a prefixed key finds exactly its own entry. |
| DataBridge.FlattenTopLevel | custom_components/ecoflow_cloud/devices/public/data_bridge.py:41-43 | Every other top-level key lands under prefix+key with its own value, because that pass writes last. |
| DataBridge.FlattenHasTopLevel | custom_components/ecoflow_cloud/devices/public/data_bridge.py:41-43 | Every other top-level key, `typeCode` included, is a flat key under the prefix. |
| DataBridge.ExpandKeys | custom_components/ecoflow_cloud/devices/public/data_bridge.py:45-50 | The expanded keys are exactly the flat keys plus `k.k2` for each dict-valued `k`. |
| DataBridge.AssembleSpec | custom_components/ecoflow_cloud/devices/public/data_bridge.py:52-73 | The result holds `params`, and the untouched report under `raw_data`. `moduleSn`, `sn` and `time` appear exactly when the report has them, with its values. |
| DataBridge.ToPlainKeepsTopLevel | custom_components/ecoflow_cloud/devices/public/data_bridge.py:20-76 | Every top-level key other than `param`/`params` appears under the prefix in the result's `params`. |
| DataBridge.PutAllInto | custom_components/ecoflow_cloud/devices/public/data_bridge.py:34-35 | The loop computes `PutAll`. |
| DataBridge.FlattenInto | custom_components/ecoflow_cloud/devices/public/data_bridge.py:33-43 | The three loops compute `Flatten`, including its errors. |
| DataBridge.ExpandInto | custom_components/ecoflow_cloud/devices/public/data_bridge.py:45-50 | The nested loops compute `Expand`. |
| DataBridge.ToPlain | custom_components/ecoflow_cloud/devices/public/data_bridge.py:20-76 | `to_plain` computes `ToPlainSpec`. |
| River3Plus.NormalizedState.Get | custom_components/ecoflow_cloud/devices/internal/river_3_plus.py:11-12 | A present key gives its value, and the default is returned exactly when the key is absent. |
| River3Plus.RemainingSeconds | custom_components/ecoflow_cloud/devices/internal/river_3_plus.py:19 | 0 when the key is absent. Fails exactly when `int()` of the value (`IntOfJson`) fails. Otherwise the result is 60 times that integer. |
| River3Plus.BuildEntities | custom_components/ecoflow_cloud/devices/internal/river_3_plus.py:15-33 | Whenever it returns, the keys are the same 14 names, in order. It fails exactly when the remaining time is not an integer. |
| River3Plus.EntitiesRead | custom_components/ecoflow_cloud/devices/internal/river_3_plus.py:17-32 | Each entity other than the remaining time copies its source key's value, or `None` when absent. The remaining time is the seconds value. |
| River3Plus.BatterySensor | custom_components/ecoflow_cloud/devices/internal/river_3_plus.py:18 | `sensor.battery` is `pd.soc`. |
| River3Plus.NoRemainingTime | custom_components/ecoflow_cloud/devices/internal/river_3_plus.py:19 | Without `pd.remainTime` the build succeeds with 0 seconds. |
| Registry.FindIn | custom_components/ecoflow_cloud/devices/registry.py:28-32 | Returns the first profile in filing order that lists the code, or `None` exactly when no profile lists it. |
| Registry.Registry.FindProfileByProduct | custom_components/ecoflow_cloud/devices/registry.py:28-32 | The search loop returns `FindIn` of the registry. |
| Registry.Registry.RegisterDefaults | custom_components/ecoflow_cloud/devices/registry.py:19-25 | Files the River 3 Plus profile under `RIVER_3_PLUS`. |
| Registry.RegisterDefaultsIdempotent | custom_components/ecoflow_cloud/devices/registry.py:21 | Registering twice equals registering once. |
| Registry.DefaultsFind | custom_components/ecoflow_cloud/devices/registry.py:19-32 | After the defaults, `R3P` and `RIVER_3_PLUS` both find the v3 profile, and any other code finds nothing. |
| Registry.FindKeepsEarlier | custom_components/ecoflow_cloud/devices/registry.py:29-31 | Filing a new profile never changes what an already-listed code finds. |

## Left out

- Protobuf descriptor parsing, pools and wire-format parse/serialize are foreign calls. They appear as the `Protobuf` parameter and a set of resolvable names.
- The `protos.Common_pb2` import fallback is only a boolean flag.
- The `ListFields` scan for a repeated header field is left out. When `msg` is absent, there are no headers.
- The float coercions (`ac_out_volts`, `temp_c`) carry an opaque value with its `repr` text, truncation and truthiness. No float arithmetic is modelled, and `float()` of text is not parsed.
- `build_message`'s protobuf branch is left out: `commands_v3.py` never binds its own pool, so the JSON branch is what runs. The bound case is an abstract `serialize` parameter. `commands_v3.bind_file_descriptor_set` is therefore not modelled.
- `json.loads` of inbound messages is a parameter. A normalized result that is truthy but not a dict makes `dict.update` take the slow path over pairs. That path is modelled as a failure caught by the handler.
- `bind_file_descriptor_set_from_path` and the file reads in `proto_loader.py` are file I/O. The registration loops take the mapping directly.
- paho-mqtt is the flag `connected` and the `wire` log. `connect_and_start`, `stop`, the watchdog thread with its wait and join, and the coordinator's `stop` are threads and I/O and are left out. `_on_connect` sets the flag: the real client reports connection itself.
- Every clock reading is a whole number of seconds passed in as `now`. Fractional seconds and `int()` truncation of float time differences are not modelled.
- `coordinator.py` as shown does not parse: the `try` of `_handle_message` has its `except` after `seconds_since_update`. The model follows the evident intent, a catch-all inside the handler and a separate `seconds_since_update`.
- Transport.MqttClient.WatchdogStep: the model follows the code. The timestamp moves only when `reconnect()` returns normally, even though one might expect every forced reconnect to reset it.
- `DeviceContext` is flattened into the coordinator's `serial` and `family` constants.
- DataBridge.ExpandKeys: states the key set of `new_params2`, not each value. A spread key `k.k2` can collide with a flat key of the same text, and then the later write wins.
- DataBridge.Prefix: `str()` of a non-text `cmdFunc` or `cmdId` uses the model's `repr`, which does not escape string contents.
- `_REGISTRY` is a field of a `Registry` object rather than a module global.
- `int()` of text accepts ASCII digits only; Python also accepts other Unicode decimal digits (`int("١٢")` is 12).
- CPython's 4300-digit limit on int-to-text and text-to-int conversion is not modelled. Longer texts parse here but raise there, and so does `json.dumps` of a `set_ac_charge_power` argument of more than 4300 digits.
- Values.CoercionsAgree: `int(float(f)) == int(f)` holds here for every int, because `float()` is exact in the model. In Python it holds only for `abs(f) <= 2**53`: `int(float(2**53 + 1))` is `2**53`, and int64 or uint64 protobuf fields can exceed that bound.
- Values.RealOfInt: `float(i)` is exact here for every int. Python rounds ints beyond 2**53 to the nearest double, so truncation no longer gives `i` back, and from 1e16 on its `repr` uses an exponent (`1e+16`) instead of `str(i)` followed by `.0`.
- The number entities pass floats to `set_min_soc` and `set_ac_charge_power`; the model takes an int argument. The float-to-int step (`int(percent)` at commands_v3.py:20, `int(watts)` at commands_v3.py:25) is left out, and so are its raises: `int(nan)` raises in both, and `int(inf)` in `set_ac_charge_power`.
