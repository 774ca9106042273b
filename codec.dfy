/**
 * The v3 protobuf codec (`mqtt/codec_v3.py`): a JSON envelope carries a
 * base64 protobuf payload; it is parsed first as a `Send_Header_Msg` holding
 * repeated `Header`s whose inner payloads are dispatched by
 * `(cmd_func, cmd_id)`, and otherwise as one message dispatched by
 * `(moduleType, cmd)`. Parsed fields are normalized to dotted keys.
 *
 * The module's globals (the two dispatch tables, the descriptor pool and the
 * two counters) are the fields of class `Codec`. Protobuf parsing itself is
 * not modelled: it is the `parse` function of a `Protobuf` value, which maps
 * a message type name and bytes to the parsed message's fields or to a
 * `DecodeError`.
 */
module CodecV3 {
  import opened Wrappers
  import opened Dicts
  import opened Values
  import Base64

  // ---------------------------------------------------------------------
  // Descriptor pool

  /** The descriptor pool the codec resolves full message names against. */
  datatype Pool =
    | NoPool                     // nothing bound yet
    | CommonFallback             // the minimal Common.proto schema synthesized on demand
    | Bound(names: set<string>)  // a bound FileDescriptorSet: the full names it defines

  const CommonHeader := "Common.Header"
  const CommonSendHeaderMsg := "Common.Send_Header_Msg"

  /** `pool.FindMessageTypeByName(name)` succeeds */
  predicate Resolves(pool: Pool, name: string)
  {
    match pool
    case NoPool => false
    case CommonFallback => name == CommonHeader || name == CommonSendHeaderMsg
    case Bound(names) => name in names
  }

  /**
   * The pool after `_ensure_common_descriptors()`: a bound pool is kept, and
   * otherwise the synthesized Common schema is installed.
   */
  function EnsureCommon(pool: Pool): (r: Pool)
    ensures pool != NoPool ==> r == pool
    ensures r != NoPool
    ensures pool == NoPool ==> Resolves(r, CommonHeader) && Resolves(r, CommonSendHeaderMsg)
  {
    if pool == NoPool then CommonFallback else pool
  }

  /** Why `register_dispatch` / `register_cmd_dispatch` raise. */
  datatype RegisterError =
    | PoolNotBound                  // RuntimeError
    | UnknownMessage(name: string)  // KeyError from FindMessageTypeByName

  function Registration(pool: Pool, name: string): (r: Result<(), RegisterError>)
    ensures r.Ok? <==> Resolves(pool, name)
    ensures r == Err(PoolNotBound) <==> pool == NoPool
  {
    if pool == NoPool then Err(PoolNotBound)
    else if !Resolves(pool, name) then Err(UnknownMessage(name))
    else Ok(())
  }

  /**
   * `_try_find_message(names)`: the first of `names` the pool resolves, or
   * None when there is no pool or none resolves.
   */
  function FirstResolvable(pool: Pool, names: seq<string>): (r: Option<string>)
    ensures r.None? <==> forall i | 0 <= i < |names| :: !Resolves(pool, names[i])
    ensures r.Some? ==> exists i | 0 <= i < |names| ::
              names[i] == r.value && Resolves(pool, r.value) &&
              forall j | 0 <= j < i :: !Resolves(pool, names[j])
    decreases |names|
  {
    if |names| == 0 then None
    else if Resolves(pool, names[0]) then Some(names[0])
    else
      var r := FirstResolvable(pool, names[1..]);
      assert forall i | 0 < i < |names| :: names[i] == names[1..][i - 1];
      r
  }

  const SendNames: seq<string> := [
    "Send_Header_Msg",
    "Common.Send_Header_Msg",
    "com.ecoflow.corebiz.mqtt.proto.Send_Header_Msg",
    "com.ecoflow.corebiz.mqtt.proto.Common.Send_Header_Msg"
  ]

  const HeaderNames: seq<string> := [
    "Header",
    "Common.Header",
    "com.ecoflow.corebiz.mqtt.proto.Header",
    "com.ecoflow.corebiz.mqtt.proto.Common.Header"
  ]

  /** The statically generated classes `protos.Common_pb2.Send_Header_Msg` and `Header`. */
  const StaticSendHeaderMsg := "protos.Common_pb2.Send_Header_Msg"
  const StaticHeader := "protos.Common_pb2.Header"

  /** In the synthesized schema the second alias of each list is the one that resolves. */
  lemma CommonFallbackNames()
    ensures FirstResolvable(CommonFallback, SendNames) == Some(CommonSendHeaderMsg)
    ensures FirstResolvable(CommonFallback, HeaderNames) == Some(CommonHeader)
  {
    assert !Resolves(CommonFallback, SendNames[0]);
    assert !Resolves(CommonFallback, HeaderNames[0]);
    assert SendNames[1..][0] == CommonSendHeaderMsg;
    assert HeaderNames[1..][0] == CommonHeader;
  }

  // ---------------------------------------------------------------------
  // XOR obfuscation of header payloads

  /** The byte `_xor_in_place` XORs with: the low 8 bits of a positive key. */
  function XorKey(key: int): byte
    requires key > 0
  {
    (key % 256) as byte
  }

  /** The buffer after `_xor_in_place(buf, key)`. */
  function Xored(b: seq<byte>, key: int): seq<byte>
  {
    if key <= 0 then b else seq(|b|, i requires 0 <= i < |b| => b[i] ^ XorKey(key))
  }

  /** `_xor_in_place(buf, key)`: XOR every byte with `key & 0xFF`, unless `key <= 0`. */
  method XorInPlace(buf: array<byte>, key: int)
    modifies buf
    ensures buf[..] == Xored(old(buf[..]), key)
  {
    if key <= 0 {
      return;
    }
    var k := (key % 256) as byte;
    for i := 0 to buf.Length
      invariant forall j | 0 <= j < i :: buf[j] == old(buf[j]) ^ k
      invariant forall j | i <= j < buf.Length :: buf[j] == old(buf[j])
    {
      buf[i] := buf[i] ^ k;
    }
    assert k == XorKey(key);
    assert forall j | 0 <= j < buf.Length :: buf[..][j] == Xored(old(buf[..]), key)[j];
  }

  /** XOR with the same key undoes itself, and keeps the length. */
  lemma XoredTwice(b: seq<byte>, key: int)
    ensures |Xored(b, key)| == |b|
    ensures Xored(Xored(b, key), key) == b
  {
    if key > 0 {
      var x := Xored(b, key);
      forall i | 0 <= i < |b| ensures Xored(x, key)[i] == b[i] {
        assert x[i] == b[i] ^ XorKey(key);
      }
    }
  }

  /** A key that is not positive, or a multiple of 256, leaves the bytes alone. */
  lemma XoredIdentity(b: seq<byte>, key: int)
    requires key <= 0 || key % 256 == 0
    ensures Xored(b, key) == b
  {
    if key > 0 {
      forall i | 0 <= i < |b| ensures Xored(b, key)[i] == b[i] {
        assert XorKey(key) == 0;
      }
    }
  }

  // ---------------------------------------------------------------------
  // Normalization

  datatype Coercion = ToInt | ToFloat | ToBool

  /** The rows of `_normalize`: message field, normalized key, coercion. */
  function Row(i: nat): (string, string, Coercion)
    requires i < 15
  {
    if i == 0 then ("soc", "pd.soc", ToInt)
    else if i == 1 then ("remain_minutes", "pd.remainTime", ToInt)
    else if i == 2 then ("ac_out_watts", "ac.outWatts", ToInt)
    else if i == 3 then ("ac_out_volts", "ac.outVolts", ToFloat)
    else if i == 4 then ("ac_enabled", "ac.enabled", ToBool)
    else if i == 5 then ("dc_out_watts", "dc.outWatts", ToInt)
    else if i == 6 then ("dc_enabled", "dc.enabled", ToBool)
    else if i == 7 then ("grid_present", "grid.present", ToBool)
    else if i == 8 then ("charging", "charge.charging", ToBool)
    else if i == 9 then ("temp_c", "bms.tempC", ToFloat)
    else if i == 10 then ("min_soc", "bms.minSoc", ToInt)
    else if i == 11 then ("ac_limit_w", "charge.acLimitW", ToInt)
    else if i == 12 then ("xboost", "inverter.xBoost", ToBool)
    else if i == 13 then ("watts_in_sum", "pd.wattsInSum", ToInt)
    else ("watts_out_sum", "pd.wattsOutSum", ToInt)
  }

  function NormalizeTable(): seq<(string, string, Coercion)>
  {
    seq(15, i requires 0 <= i < 15 => Row(i))
  }

  /** `int(f)`, `float(f)` or `bool(f)`; None where Python raises. */
  function Coerce(c: Coercion, f: Field): Option<Json>
  {
    match c
    case ToInt => (match IntOfField(f) case Some(i) => Some(Int(i)) case None => None)
    case ToFloat => (match FloatOfField(f) case Some(r) => Some(Float(r)) case None => None)
    case ToBool => Some(Bool(BoolOfField(f)))
  }

  /** The normalized keys of rows `t`, in order. */
  function Targets(t: seq<(string, string, Coercion)>): (ks: seq<string>)
    ensures |ks| == |t| && forall i | 0 <= i < |t| :: ks[i] == t[i].1
  {
    seq(|t|, i requires 0 <= i < |t| => t[i].1)
  }

  /** `_normalize` restricted to the rows `t`; None when a coercion raises. */
  function NormalizeRows(msg: Bag, t: seq<(string, string, Coercion)>): Option<Dict<string, Json>>
    decreases |t|
  {
    if |t| == 0 then Some([])
    else
      var rest := NormalizeRows(msg, t[1..]);
      if t[0].0 !in msg then rest
      else match (Coerce(t[0].2, msg[t[0].0]), rest)
        case (Some(v), Some(r)) => Some([(t[0].1, v)] + r)
        case _ => None
  }

  /** `_normalize(msg)` */
  function Normalize(msg: Bag): Option<Dict<string, Json>>
  {
    NormalizeRows(msg, NormalizeTable())
  }

  /**
   * Over rows with distinct keys: the result exists exactly when every present
   * field coerces, and then each row's key is present exactly when its field
   * is, holding the coerced value, and no other key appears.
   */
  lemma {:induction false} NormalizeRowsSpec(msg: Bag, t: seq<(string, string, Coercion)>)
    requires forall i, j | 0 <= i < j < |t| :: t[i].1 != t[j].1
    ensures var r := NormalizeRows(msg, t);
      (r.Some? <==> forall i | 0 <= i < |t| && t[i].0 in msg :: Coerce(t[i].2, msg[t[i].0]).Some?) &&
      (r.Some? ==> (DistinctKeys(r.value) &&
        (forall i | 0 <= i < |t| ::
          Get(r.value, t[i].1) == if t[i].0 in msg then Coerce(t[i].2, msg[t[i].0]) else None) &&
        (forall k | HasKey(r.value, k) :: k in Targets(t))))
    decreases |t|
  {
    if |t| > 0 {
      var t' := t[1..];
      assert forall i | 0 < i < |t| :: t[i] == t'[i - 1];
      NormalizeRowsSpec(msg, t');
      var rest := NormalizeRows(msg, t');
      if rest.Some? {
        forall k | HasKey(rest.value, k) ensures k != t[0].1 && k in Targets(t) {
          var i :| 0 <= i < |t'| && Targets(t')[i] == k;
          assert t[i + 1].1 == k;
        }
        assert !HasKey(rest.value, t[0].1);
        if t[0].0 in msg && Coerce(t[0].2, msg[t[0].0]).Some? {
          var r := [(t[0].1, Coerce(t[0].2, msg[t[0].0]).value)] + rest.value;
          assert r[1..] == rest.value;
          assert DistinctKeys(r) by {
            forall i, j | 0 <= i < j < |r| ensures r[i].0 != r[j].0 {
              if i == 0 {
                assert HasKey(rest.value, r[j].0) by { GetAt(rest.value, j - 1); }
              }
            }
          }
          forall i | 0 < i < |t| ensures Get(r, t[i].1) == Get(rest.value, t'[i - 1].1) {
            assert t[i].1 != t[0].1;
          }
          forall k | HasKey(r, k) ensures k in Targets(t) {
            if k != t[0].1 { assert HasKey(rest.value, k); }
          }
        }
      }
    }
  }

  /** The table's normalized keys are all different. */
  lemma TableKeysDistinct()
    ensures forall i, j | 0 <= i < j < |NormalizeTable()| :: NormalizeTable()[i].1 != NormalizeTable()[j].1
  {
  }

  /**
   * `_normalize` emits a key exactly when its source field is present, with
   * the coerced value, each key once, and nothing outside the table.
   */
  lemma NormalizeSpec(msg: Bag)
    ensures var r := Normalize(msg);
      (r.Some? <==> forall i | 0 <= i < |NormalizeTable()| && NormalizeTable()[i].0 in msg ::
                      Coerce(NormalizeTable()[i].2, msg[NormalizeTable()[i].0]).Some?) &&
      (r.Some? ==> (DistinctKeys(r.value) &&
        (forall i | 0 <= i < |NormalizeTable()| ::
          Get(r.value, NormalizeTable()[i].1) ==
            if NormalizeTable()[i].0 in msg then Coerce(NormalizeTable()[i].2, msg[NormalizeTable()[i].0]) else None) &&
        (forall k | HasKey(r.value, k) :: k in Targets(NormalizeTable()))))
  {
    TableKeysDistinct();
    NormalizeRowsSpec(msg, NormalizeTable());
  }

  // ---------------------------------------------------------------------
  // Decoding, as a function of the codec's state

  /** What parsing bytes as a message type yields. */
  datatype Parsed =
    | Parsed(bag: Bag)
    | Malformed   // protobuf's DecodeError
    | Failed      // any other exception raised while parsing

  /**
   * The protobuf runtime: `parse(typeName, bytes)`, and whether the statically
   * generated `protos.Common_pb2` module can be imported.
   */
  datatype Protobuf = Protobuf(parse: (string, seq<byte>) -> Parsed, staticCommon: bool)

  /** The codec's module globals. */
  datatype CodecState = CodecState(
    dispatch: map<(int, int), string>,     // (moduleType, cmd) -> message type
    dispatchCmd: map<(int, int), string>,  // (cmd_func, cmd_id) -> inner message type
    pool: Pool,
    decoded: nat,
    errors: nat)

  /** What one header contributes to the nested decode. */
  datatype Step =
    | Skip                               // no inner type bound for its (cmd_func, cmd_id)
    | Merge(fields: Dict<string, Json>)  // its normalized inner message
    | Abort(decodeError: bool)           // an exception; true for protobuf's DecodeError

  /** Outcome of the nested `Send_Header_Msg` attempt. */
  datatype Nested =
    | NotTried                           // no Send_Header_Msg / Header type available
    | Merged(out: Dict<string, Json>)    // every header handled; the merged fields
    | Aborted(decodeError: bool)

  /** `int(getattr(h, snake, getattr(h, camel, 0)))` */
  function HeaderInt(h: Bag, snake: string, camel: string): Option<int>
  {
    IntOfField(FieldOr(h, snake, FieldOr(h, camel, FInt(0))))
  }

  /** One iteration of the header loop. */
  function HeaderStep(h: Bag, inner: map<(int, int), string>, pb: Protobuf): Step
  {
    var encType := HeaderInt(h, "enc_type", "encType");
    var sq := IntOfField(FieldOr(h, "seq", FInt(0)));
    var cmdFunc := HeaderInt(h, "cmd_func", "cmdFunc");
    var cmdId := HeaderInt(h, "cmd_id", "cmdId");
    var pdata := BytesOfField(FieldOr(h, "pdata", FBytes([])));
    if encType.None? || sq.None? || cmdFunc.None? || cmdId.None? || pdata.None? then Abort(false)
    else
      var payload := if encType.value == 1 && |pdata.value| > 0 then Xored(pdata.value, sq.value) else pdata.value;
      if (cmdFunc.value, cmdId.value) !in inner then Skip
      else match pb.parse(inner[(cmdFunc.value, cmdId.value)], payload)
        case Malformed => Abort(true)
        case Failed => Abort(false)
        case Parsed(msg) =>
          match Normalize(msg)
          case None => Abort(false)
          case Some(n) => Merge(n)
  }

  /** The header loop from `hs` on, with `acc` merged so far. */
  function MergeHeaders(hs: seq<Bag>, inner: map<(int, int), string>, pb: Protobuf, acc: Dict<string, Json>): Nested
    decreases |hs|
  {
    if |hs| == 0 then Merged(acc)
    else match HeaderStep(hs[0], inner, pb)
      case Skip => MergeHeaders(hs[1..], inner, pb, acc)
      case Merge(n) => MergeHeaders(hs[1..], inner, pb, Update(acc, n))
      case Abort(e) => Aborted(e)
  }

  /** Parse `data` as `sendType` and merge its headers (`msg`; none when it has no such field). */
  function SendHeaders(sendType: string, inner: map<(int, int), string>, data: seq<byte>, pb: Protobuf): Nested
  {
    match pb.parse(sendType, data)
    case Malformed => Aborted(true)
    case Failed => Aborted(false)
    case Parsed(sent) =>
      if "msg" !in sent then Merged([])
      else match ListOfField(sent["msg"])
        case None => Aborted(false)
        case Some(hs) => MergeHeaders(hs, inner, pb, [])
  }

  /** The nested attempt: look both types up (falling back to the static classes), then parse. */
  function NestedFrame(pool: Pool, inner: map<(int, int), string>, data: seq<byte>, pb: Protobuf): Nested
  {
    var send := FirstResolvable(pool, SendNames);
    var header := FirstResolvable(pool, HeaderNames);
    var send' := if (send.None? || header.None?) && pb.staticCommon then Some(StaticSendHeaderMsg) else send;
    var header' := if (send.None? || header.None?) && pb.staticCommon then Some(StaticHeader) else header;
    if send'.None? || header'.None? then NotTried
    else SendHeaders(send'.value, inner, data, pb)
  }

  /** The envelope's routing numbers and payload, or where decoding stops before parsing. */
  datatype Prelude =
    | Payload(moduleType: int, cmd: int, data: seq<byte>)
    | NoPayload  // pData missing or empty: `{}` with no count
    | Raised     // not a dict, a routing number `int()` rejects, or base64 that does not decode

  function ReadEnvelope(env: Json): Prelude
  {
    if !env.Obj? then Raised
    else
      var moduleType := IntOfJson(GetOr(env.entries, "moduleType", Int(-1)));
      var cmd := IntOfJson(GetOr(env.entries, "cmd", Int(-1)));
      if moduleType.None? || cmd.None? then Raised
      else
        var pData := GetOr(env.entries, "pData", Null);
        if !Truthy(pData) then NoPayload
        else match Base64.DecodeJson(pData)
          case Err(_) => Raised
          case Ok(data) => Payload(moduleType.value, cmd.value, data)
  }

  /** A decode's returned dictionary and the codec's state after it. */
  datatype Decoding = Decoding(out: Dict<string, Json>, state: CodecState)

  /** The legacy path: one message dispatched by `(moduleType, cmd)`. */
  function Legacy(st: CodecState, moduleType: int, cmd: int, data: seq<byte>, pb: Protobuf): Decoding
  {
    if (moduleType, cmd) !in st.dispatch then Decoding([], st)
    else match pb.parse(st.dispatch[(moduleType, cmd)], data)
      case Malformed => Decoding([], st.(errors := st.errors + 1))
      case Failed => Decoding([], st.(errors := st.errors + 1))
      case Parsed(msg) =>
        match Normalize(msg)
        case None => Decoding([], st.(errors := st.errors + 1))
        case Some(n) => Decoding(n, if |n| > 0 then st.(decoded := st.decoded + 1) else st)
  }

  /** `decode_v3` once the payload bytes are known: the nested attempt, then the legacy path. */
  function FromPayload(st: CodecState, moduleType: int, cmd: int, data: seq<byte>, pb: Protobuf): Decoding
  {
    var st1 := st.(pool := EnsureCommon(st.pool));
    match NestedFrame(st1.pool, st1.dispatchCmd, data, pb)
    case Merged(out) =>
      if |out| > 0 then Decoding(out, st1.(decoded := st1.decoded + 1))
      else Legacy(st1, moduleType, cmd, data, pb)
    case Aborted(decodeError) =>
      Legacy(if decodeError then st1.(errors := st1.errors + 1) else st1, moduleType, cmd, data, pb)
    case NotTried => Legacy(st1, moduleType, cmd, data, pb)
  }

  /** `decode_v3(env)` from state `st`. */
  function Decode(st: CodecState, env: Json, pb: Protobuf): Decoding
  {
    match ReadEnvelope(env)
    case Raised => Decoding([], st.(errors := st.errors + 1))
    case NoPayload => Decoding([], st)
    case Payload(moduleType, cmd, data) => FromPayload(st, moduleType, cmd, data, pb)
  }

  // ---------------------------------------------------------------------
  // What one decode does to the counters and the result

  lemma LegacyCounters(st: CodecState, moduleType: int, cmd: int, data: seq<byte>, pb: Protobuf)
    ensures var d := Legacy(st, moduleType, cmd, data, pb);
      d.state.(decoded := st.decoded, errors := st.errors) == st &&
      d.state.decoded == st.decoded + (if |d.out| > 0 then 1 else 0) &&
      d.state.errors == st.errors + (if d.state.errors == st.errors then 0 else 1) &&
      (d.state.errors > st.errors ==> d.out == [])
  {
  }

  /** A legacy parse that raises, `DecodeError` or any other exception, gives `{}` and one error. */
  lemma LegacyParseRaises(st: CodecState, moduleType: int, cmd: int, data: seq<byte>, pb: Protobuf)
    requires (moduleType, cmd) in st.dispatch
    requires !pb.parse(st.dispatch[(moduleType, cmd)], data).Parsed?
    ensures Legacy(st, moduleType, cmd, data, pb) == Decoding([], st.(errors := st.errors + 1))
  {
  }

  /**
   * A nested attempt that raised something other than `DecodeError` is not
   * counted: the payload goes to the legacy path with the state it had.
   */
  lemma NestedFailureUncounted(st: CodecState, moduleType: int, cmd: int, data: seq<byte>, pb: Protobuf)
    requires NestedFrame(EnsureCommon(st.pool), st.dispatchCmd, data, pb) == Aborted(false)
    ensures FromPayload(st, moduleType, cmd, data, pb) ==
      Legacy(st.(pool := EnsureCommon(st.pool)), moduleType, cmd, data, pb)
  {
  }

  lemma PayloadCounters(st: CodecState, moduleType: int, cmd: int, data: seq<byte>, pb: Protobuf)
    ensures var d := FromPayload(st, moduleType, cmd, data, pb);
      d.state == st.(pool := EnsureCommon(st.pool), decoded := d.state.decoded, errors := d.state.errors) &&
      d.state.decoded == st.decoded + (if |d.out| > 0 then 1 else 0) &&
      st.errors <= d.state.errors <= st.errors + 2 &&
      (|d.out| > 0 ==> d.state.errors <= st.errors + 1)
  {
    var st1 := st.(pool := EnsureCommon(st.pool));
    var n := NestedFrame(st1.pool, st1.dispatchCmd, data, pb);
    if n.Merged? && |n.out| > 0 {
    } else if n.Aborted? && n.decodeError {
      LegacyCounters(st1.(errors := st1.errors + 1), moduleType, cmd, data, pb);
    } else {
      LegacyCounters(st1, moduleType, cmd, data, pb);
    }
  }

  /**
   * One decode changes neither dispatch table, at most installs the fallback
   * pool, counts a success exactly when it returns a non-empty result, and
   * counts at most two errors (a nested DecodeError and a legacy failure),
   * at most one when it returns fields.
   */
  lemma DecodeCounters(st: CodecState, env: Json, pb: Protobuf)
    ensures var d := Decode(st, env, pb);
      d.state.dispatch == st.dispatch && d.state.dispatchCmd == st.dispatchCmd &&
      (d.state.pool == st.pool || (st.pool == NoPool && d.state.pool == CommonFallback)) &&
      d.state.decoded == st.decoded + (if |d.out| > 0 then 1 else 0) &&
      st.errors <= d.state.errors <= st.errors + 2 &&
      (|d.out| > 0 ==> d.state.errors <= st.errors + 1)
  {
    if ReadEnvelope(env).Payload? {
      var e := ReadEnvelope(env);
      PayloadCounters(st, e.moduleType, e.cmd, e.data, pb);
    }
  }

  /** No payload (missing, null, empty): `{}`, and no counter moves. */
  lemma DecodeWithoutPayload(st: CodecState, entries: Dict<string, Json>, pb: Protobuf)
    requires IntOfJson(GetOr(entries, "moduleType", Int(-1))).Some?
    requires IntOfJson(GetOr(entries, "cmd", Int(-1))).Some?
    requires !Truthy(GetOr(entries, "pData", Null))
    ensures Decode(st, Obj(entries), pb) == Decoding([], st)
  {
  }

  /** Anything that breaks before parsing (not a dict, bad routing number, bad base64) counts one error and yields `{}`. */
  lemma DecodeRaised(st: CodecState, env: Json, pb: Protobuf)
    requires ReadEnvelope(env) == Raised
    ensures Decode(st, env, pb) == Decoding([], st.(errors := st.errors + 1))
  {
  }

  /** A nested result with fields is returned whatever the legacy table holds. */
  lemma NestedWins(st: CodecState, env: Json, pb: Protobuf, outer: map<(int, int), string>)
    requires ReadEnvelope(env).Payload?
    requires var n := NestedFrame(EnsureCommon(st.pool), st.dispatchCmd, ReadEnvelope(env).data, pb);
      n.Merged? && |n.out| > 0
    ensures Decode(st, env, pb).out == Decode(st.(dispatch := outer), env, pb).out
    ensures Decode(st, env, pb).out == NestedFrame(EnsureCommon(st.pool), st.dispatchCmd, ReadEnvelope(env).data, pb).out
  {
  }

  /** Once the nested attempt yields fields, they are the result and count as one decode. */
  lemma NestedResult(st: CodecState, moduleType: int, cmd: int, data: seq<byte>, pb: Protobuf)
    requires var n := NestedFrame(EnsureCommon(st.pool), st.dispatchCmd, data, pb); n.Merged? && |n.out| > 0
    ensures FromPayload(st, moduleType, cmd, data, pb) ==
      Decoding(NestedFrame(EnsureCommon(st.pool), st.dispatchCmd, data, pb).out,
               st.(pool := EnsureCommon(st.pool), decoded := st.decoded + 1))
  {
  }

  /** With no inner type bound, the header loop merges nothing; it can only stop on a header it cannot read. */
  lemma {:induction false} MergeUnbound(hs: seq<Bag>, pb: Protobuf, acc: Dict<string, Json>)
    ensures MergeHeaders(hs, map[], pb, acc) == Merged(acc) || MergeHeaders(hs, map[], pb, acc) == Aborted(false)
    decreases |hs|
  {
    if |hs| > 0 {
      MergeUnbound(hs[1..], pb, acc);
    }
  }

  /** The header's numbers and bytes all read, as `int(...)` and `bytes(...)` do without raising. */
  predicate HeaderReadable(h: Bag)
  {
    HeaderInt(h, "enc_type", "encType").Some? && IntOfField(FieldOr(h, "seq", FInt(0))).Some? &&
    HeaderInt(h, "cmd_func", "cmdFunc").Some? && HeaderInt(h, "cmd_id", "cmdId").Some? &&
    BytesOfField(FieldOr(h, "pdata", FBytes([]))).Some?
  }

  /** The `(cmd_func, cmd_id)` pair of a readable header. */
  function HeaderKey(h: Bag): (int, int)
    requires HeaderReadable(h)
  {
    (HeaderInt(h, "cmd_func", "cmdFunc").value, HeaderInt(h, "cmd_id", "cmdId").value)
  }

  /** A header whose numbers or bytes do not read stops the loop with an exception other than DecodeError. */
  lemma HeaderUnreadable(h: Bag, inner: map<(int, int), string>, pb: Protobuf)
    requires !HeaderReadable(h)
    ensures HeaderStep(h, inner, pb) == Abort(false)
  {
  }

  /** A readable header whose pair no inner type is bound to is skipped, whatever the table. */
  lemma HeaderUnbound(h: Bag, inner: map<(int, int), string>, pb: Protobuf)
    requires HeaderReadable(h) && HeaderKey(h) !in inner
    ensures HeaderStep(h, inner, pb) == Skip
  {
  }

  /**
   * The bytes the inner type parses: when `enc_type` is 1 and `pdata` is
   * non-empty, the bytes whose XOR with `seq` is `pdata`; otherwise `pdata`
   * itself. The step's outcome is then that parse, normalized.
   */
  lemma HeaderParses(h: Bag, inner: map<(int, int), string>, pb: Protobuf, bytes: seq<byte>)
    requires HeaderReadable(h) && HeaderKey(h) in inner
    requires var sq := IntOfField(FieldOr(h, "seq", FInt(0))).value;
      var pdata := BytesOfField(FieldOr(h, "pdata", FBytes([]))).value;
      if HeaderInt(h, "enc_type", "encType").value == 1 && |pdata| > 0
      then |bytes| == |pdata| && Xored(bytes, sq) == pdata
      else bytes == pdata
    ensures var parsed := pb.parse(inner[HeaderKey(h)], bytes);
      (parsed.Malformed? ==> HeaderStep(h, inner, pb) == Abort(true)) &&
      (parsed.Failed? ==> HeaderStep(h, inner, pb) == Abort(false)) &&
      (parsed.Parsed? && Normalize(parsed.bag).None? ==> HeaderStep(h, inner, pb) == Abort(false)) &&
      (parsed.Parsed? && Normalize(parsed.bag).Some? ==> HeaderStep(h, inner, pb) == Merge(Normalize(parsed.bag).value))
  {
    var sq := IntOfField(FieldOr(h, "seq", FInt(0))).value;
    var pdata := BytesOfField(FieldOr(h, "pdata", FBytes([]))).value;
    if HeaderInt(h, "enc_type", "encType").value == 1 && |pdata| > 0 {
      XoredTwice(bytes, sq);
      assert bytes == Xored(pdata, sq);
    }
  }

  /** A step that merges fields including `k`. */
  predicate Sets(step: Step, k: string)
  {
    step.Merge? && HasKey(step.fields, k)
  }

  /** Header `i` merges fields that include `k`. */
  predicate SetsKey(hs: seq<Bag>, inner: map<(int, int), string>, pb: Protobuf, i: nat, k: string)
  {
    i < |hs| && Sets(HeaderStep(hs[i], inner, pb), k)
  }

  /** One unfolding of the header loop: the first header's step, then the rest. */
  lemma MergeUnfold(hs: seq<Bag>, inner: map<(int, int), string>, pb: Protobuf, acc: Dict<string, Json>)
    requires |hs| > 0 && !HeaderStep(hs[0], inner, pb).Abort?
    ensures var step := HeaderStep(hs[0], inner, pb);
      MergeHeaders(hs, inner, pb, acc) ==
      MergeHeaders(hs[1..], inner, pb, if step.Merge? then Update(acc, step.fields) else acc)
  {
  }

  /** The step each header takes, in order. */
  function Steps(hs: seq<Bag>, inner: map<(int, int), string>, pb: Protobuf): (r: seq<Step>)
    ensures |r| == |hs|
    ensures forall i | 0 <= i < |hs| :: r[i] == HeaderStep(hs[i], inner, pb)
  {
    seq(|hs|, i requires 0 <= i < |hs| => HeaderStep(hs[i], inner, pb))
  }

  /** The header loop run over steps already taken. */
  function Fold(steps: seq<Step>, acc: Dict<string, Json>): Nested
    decreases |steps|
  {
    if |steps| == 0 then Merged(acc)
    else match steps[0]
      case Skip => Fold(steps[1..], acc)
      case Merge(n) => Fold(steps[1..], Update(acc, n))
      case Abort(e) => Aborted(e)
  }

  /** The header loop is the fold of its headers' steps. */
  lemma {:induction false} MergeFolds(hs: seq<Bag>, inner: map<(int, int), string>, pb: Protobuf,
                                      acc: Dict<string, Json>)
    ensures MergeHeaders(hs, inner, pb, acc) == Fold(Steps(hs, inner, pb), acc)
    decreases |hs|
  {
    if |hs| > 0 {
      var st := Steps(hs, inner, pb);
      var rest := Steps(hs[1..], inner, pb);
      forall j | 0 <= j < |hs| - 1 ensures st[1..][j] == rest[j] {
        assert hs[1..][j] == hs[j + 1];
      }
      assert st[1..] == rest;
      var step := HeaderStep(hs[0], inner, pb);
      if !step.Abort? {
        MergeFolds(hs[1..], inner, pb, if step.Merge? then Update(acc, step.fields) else acc);
      }
    }
  }

  lemma {:induction false} FoldNoAbort(steps: seq<Step>, acc: Dict<string, Json>)
    requires Fold(steps, acc).Merged?
    ensures forall i | 0 <= i < |steps| :: !steps[i].Abort?
    decreases |steps|
  {
    if |steps| > 0 {
      var s := steps[0];
      FoldNoAbort(steps[1..], if s.Merge? then Update(acc, s.fields) else acc);
      forall i | 1 <= i < |steps| ensures !steps[i].Abort? {
        assert steps[i] == steps[1..][i - 1];
      }
    }
  }

  lemma {:induction false} FoldKeeps(steps: seq<Step>, acc: Dict<string, Json>, k: string)
    requires Fold(steps, acc).Merged?
    requires forall i | 0 <= i < |steps| :: !Sets(steps[i], k)
    ensures Get(Fold(steps, acc).out, k) == Get(acc, k)
    decreases |steps|
  {
    if |steps| > 0 {
      var s := steps[0];
      assert !Sets(s, k);
      var acc' := if s.Merge? then Update(acc, s.fields) else acc;
      assert Get(acc', k) == Get(acc, k);
      forall i | 0 <= i < |steps| - 1 ensures !Sets(steps[1..][i], k) {
        assert steps[1..][i] == steps[i + 1];
      }
      FoldKeeps(steps[1..], acc', k);
    }
  }

  lemma {:induction false} FoldLastWins(steps: seq<Step>, acc: Dict<string, Json>, i: nat, k: string)
    requires Fold(steps, acc).Merged?
    requires i < |steps| && Sets(steps[i], k)
    requires forall j | i < j < |steps| :: !Sets(steps[j], k)
    ensures Get(Fold(steps, acc).out, k) == Last(steps[i].fields, k)
    decreases |steps|
  {
    var s := steps[0];
    FoldNoAbort(steps, acc);
    var acc' := if s.Merge? then Update(acc, s.fields) else acc;
    if i == 0 {
      assert Get(acc', k) == Last(s.fields, k);
      forall j | 0 <= j < |steps| - 1 ensures !Sets(steps[1..][j], k) {
        assert steps[1..][j] == steps[j + 1];
      }
      FoldKeeps(steps[1..], acc', k);
    } else {
      assert steps[1..][i - 1] == steps[i];
      forall j | i - 1 < j < |steps| - 1 ensures !Sets(steps[1..][j], k) {
        assert steps[1..][j] == steps[j + 1];
      }
      FoldLastWins(steps[1..], acc', i - 1, k);
    }
  }

  /** A header loop that completes met no failing header. */
  lemma MergeNoAbort(hs: seq<Bag>, inner: map<(int, int), string>, pb: Protobuf, acc: Dict<string, Json>)
    requires MergeHeaders(hs, inner, pb, acc).Merged?
    ensures forall i | 0 <= i < |hs| :: !HeaderStep(hs[i], inner, pb).Abort?
  {
    MergeFolds(hs, inner, pb, acc);
    FoldNoAbort(Steps(hs, inner, pb), acc);
  }

  /** In a completed header loop, a key no header's fields have keeps the value it had before. */
  lemma MergeKeeps(hs: seq<Bag>, inner: map<(int, int), string>, pb: Protobuf,
                   acc: Dict<string, Json>, k: string)
    requires MergeHeaders(hs, inner, pb, acc).Merged?
    requires forall i | 0 <= i < |hs| :: !SetsKey(hs, inner, pb, i, k)
    ensures Get(MergeHeaders(hs, inner, pb, acc).out, k) == Get(acc, k)
  {
    MergeFolds(hs, inner, pb, acc);
    var st := Steps(hs, inner, pb);
    forall i | 0 <= i < |st| ensures !Sets(st[i], k) {
      assert !SetsKey(hs, inner, pb, i, k);
    }
    FoldKeeps(st, acc, k);
  }

  /**
   * In a completed header loop, a key takes its value from the last header
   * whose fields have it: the merge runs left to right and later headers win.
   */
  lemma MergeLastWins(hs: seq<Bag>, inner: map<(int, int), string>, pb: Protobuf,
                      acc: Dict<string, Json>, i: nat, k: string)
    requires MergeHeaders(hs, inner, pb, acc).Merged?
    requires SetsKey(hs, inner, pb, i, k)
    requires forall j | i < j < |hs| :: !SetsKey(hs, inner, pb, j, k)
    ensures Get(MergeHeaders(hs, inner, pb, acc).out, k) == Last(HeaderStep(hs[i], inner, pb).fields, k)
  {
    MergeFolds(hs, inner, pb, acc);
    var st := Steps(hs, inner, pb);
    forall j | i < j < |st| ensures !Sets(st[j], k) {
      assert !SetsKey(hs, inner, pb, j, k);
    }
    FoldLastWins(st, acc, i, k);
  }

  /** With no inner type bound, the nested attempt never yields fields. */
  lemma NestedUnbound(pool: Pool, data: seq<byte>, pb: Protobuf)
    ensures var n := NestedFrame(pool, map[], data, pb); n.Merged? ==> n.out == []
  {
    var send := FirstResolvable(pool, SendNames);
    var header := FirstResolvable(pool, HeaderNames);
    var send' := if (send.None? || header.None?) && pb.staticCommon then Some(StaticSendHeaderMsg) else send;
    if send'.Some? && pb.parse(send'.value, data).Parsed? {
      var sent := pb.parse(send'.value, data).bag;
      if "msg" in sent && ListOfField(sent["msg"]).Some? {
        MergeUnbound(ListOfField(sent["msg"]).value, pb, []);
      }
    }
  }

  /**
   * A frame bound in neither table yields `{}` and is not counted as decoded;
   * the only error it can count is a malformed `Send_Header_Msg`.
   */
  lemma UnboundFrameIgnored(st: CodecState, env: Json, pb: Protobuf)
    requires st.dispatchCmd == map[]
    requires ReadEnvelope(env).Payload?
    requires (ReadEnvelope(env).moduleType, ReadEnvelope(env).cmd) !in st.dispatch
    ensures var d := Decode(st, env, pb);
      d.out == [] && d.state.decoded == st.decoded &&
      (d.state.errors == st.errors + 1 <==>
        NestedFrame(EnsureCommon(st.pool), map[], ReadEnvelope(env).data, pb) == Aborted(true)) &&
      (d.state.errors != st.errors + 1 ==> d.state.errors == st.errors)
  {
    NestedUnbound(EnsureCommon(st.pool), ReadEnvelope(env).data, pb);
  }

  /** A message with only `soc` normalizes to the one key `pd.soc`. */
  lemma NormalizeSoc(soc: int)
    ensures Normalize(map["soc" := FInt(soc)]) == Some([("pd.soc", Int(soc))])
  {
    var msg := map["soc" := FInt(soc)];
    var t := NormalizeTable();
    assert t[0] == ("soc", "pd.soc", ToInt);
    NormalizeAbsent(msg, t, 1);
    assert Coerce(ToInt, FInt(soc)) == Some(Int(soc));
    assert |t| == 15 && "soc" in msg && msg["soc"] == FInt(soc);
    assert [("pd.soc", Int(soc))] + [] == [("pd.soc", Int(soc))];
    assert NormalizeRows(msg, t) == Some([("pd.soc", Int(soc))]);
  }

  /** The envelope `{"moduleType": 1, "cmd": 2, "pData": text}` carries the bytes `text` decodes to. */
  lemma EnvelopeCarries(text: string, frame: seq<byte>)
    requires |text| > 0 && Base64.Decode(text) == Ok(frame)
    ensures ReadEnvelope(Obj([("moduleType", Int(1)), ("cmd", Int(2)), ("pData", Str(text))])) == Payload(1, 2, frame)
  {
    var entries := [("moduleType", Int(1)), ("cmd", Int(2)), ("pData", Str(text))];
    assert GetOr(entries, "moduleType", Int(-1)) == Int(1);
    var rest := entries[1..];
    assert rest[0] == ("cmd", Int(2)) && rest[1..] == [("pData", Str(text))];
    assert "moduleType" != "cmd" && "moduleType" != "pData" && "cmd" != "pData";
    assert Get(entries, "cmd") == Get(rest, "cmd") == Some(Int(2));
    assert Get(entries, "pData") == Get(rest, "pData") == Get(rest[1..], "pData") == Some(Str(text));
  }

  /** A header XOR-obfuscated with `sq`, addressed to `(cmd_func, cmd_id) = (10, 20)`. */
  function ObfuscatedHeader(inner: seq<byte>, sq: int): Bag
  {
    map["enc_type" := FInt(1), "seq" := FInt(sq), "cmd_func" := FInt(10), "cmd_id" := FInt(20),
        "pdata" := FBytes(Xored(inner, sq))]
  }

  /** The numbers and bytes the header loop reads from such a header. */
  lemma ObfuscatedHeaderFields(inner: seq<byte>, sq: int)
    ensures var h := ObfuscatedHeader(inner, sq);
      HeaderInt(h, "enc_type", "encType") == Some(1) && IntOfField(FieldOr(h, "seq", FInt(0))) == Some(sq) &&
      HeaderInt(h, "cmd_func", "cmdFunc") == Some(10) && HeaderInt(h, "cmd_id", "cmdId") == Some(20) &&
      BytesOfField(FieldOr(h, "pdata", FBytes([]))) == Some(Xored(inner, sq))
  {
    var h := ObfuscatedHeader(inner, sq);
    assert "enc_type" in h && h["enc_type"] == FInt(1);
    assert "seq" in h && h["seq"] == FInt(sq);
    assert "cmd_func" in h && h["cmd_func"] == FInt(10);
    assert "cmd_id" in h && h["cmd_id"] == FInt(20);
    assert "pdata" in h && h["pdata"] == FBytes(Xored(inner, sq));
  }

  /** An XOR-obfuscated header: the inner type sees the bytes XORed back with `seq`. */
  lemma ObfuscatedHeaderStep(inner: seq<byte>, sq: int, innerType: string, soc: int, pb: Protobuf)
    requires |inner| > 0
    requires pb.parse(innerType, inner) == Parsed(map["soc" := FInt(soc)])
    ensures HeaderStep(ObfuscatedHeader(inner, sq), map[(10, 20) := innerType], pb) == Merge([("pd.soc", Int(soc))])
  {
    ObfuscatedHeaderFields(inner, sq);
    XoredTwice(inner, sq);
    NormalizeSoc(soc);
  }

  /**
   * An end-to-end frame: a base64 `Send_Header_Msg` whose one header is
   * XOR-obfuscated with its `seq` and addressed to a bound `(cmd_func,
   * cmd_id)`; the inner message's `soc` comes out as `pd.soc`, counted once.
   */
  lemma ObfuscatedHeaderDecodes(st: CodecState, frame: seq<byte>, inner: seq<byte>, sq: int,
                                innerType: string, soc: int, pb: Protobuf)
    requires st.pool == NoPool && st.dispatchCmd == map[(10, 20) := innerType]
    requires |frame| > 0 && |inner| > 0
    requires pb.parse(CommonSendHeaderMsg, frame) == Parsed(map["msg" := FMsgs([ObfuscatedHeader(inner, sq)])])
    requires pb.parse(innerType, inner) == Parsed(map["soc" := FInt(soc)])
    ensures Decode(st, Obj([("moduleType", Int(1)), ("cmd", Int(2)), ("pData", Str(Base64.Encode(frame)))]), pb)
         == Decoding([("pd.soc", Int(soc))], st.(pool := CommonFallback, decoded := st.decoded + 1))
  {
    var env := Obj([("moduleType", Int(1)), ("cmd", Int(2)), ("pData", Str(Base64.Encode(frame)))]);
    assert ReadEnvelope(env) == Payload(1, 2, frame) by {
      Base64.RoundTrip(frame);
      Base64.EncodeLength(frame);
      EnvelopeCarries(Base64.Encode(frame), frame);
    }
    assert NestedFrame(CommonFallback, st.dispatchCmd, frame, pb) == Merged([("pd.soc", Int(soc))]) by {
      ObfuscatedNested(frame, inner, sq, innerType, soc, pb);
    }
    NestedResult(st, 1, 2, frame, pb);
  }

  /** The nested attempt on such a frame, in the synthesized pool. */
  lemma ObfuscatedNested(frame: seq<byte>, inner: seq<byte>, sq: int, innerType: string, soc: int, pb: Protobuf)
    requires |inner| > 0
    requires pb.parse(CommonSendHeaderMsg, frame) == Parsed(map["msg" := FMsgs([ObfuscatedHeader(inner, sq)])])
    requires pb.parse(innerType, inner) == Parsed(map["soc" := FInt(soc)])
    ensures NestedFrame(CommonFallback, map[(10, 20) := innerType], frame, pb) == Merged([("pd.soc", Int(soc))])
  {
    var inners := map[(10, 20) := innerType];
    var out := [("pd.soc", Int(soc))];
    assert SendHeaders(CommonSendHeaderMsg, inners, frame, pb) == Merged(out) by {
      var h := ObfuscatedHeader(inner, sq);
      var sent := map["msg" := FMsgs([h])];
      assert "msg" in sent && ListOfField(sent["msg"]) == Some([h]);
      ObfuscatedMerge(inner, sq, innerType, soc, pb);
    }
    CommonFallbackNames();
  }

  /** The header loop over that one header. */
  lemma ObfuscatedMerge(inner: seq<byte>, sq: int, innerType: string, soc: int, pb: Protobuf)
    requires |inner| > 0
    requires pb.parse(innerType, inner) == Parsed(map["soc" := FInt(soc)])
    ensures MergeHeaders([ObfuscatedHeader(inner, sq)], map[(10, 20) := innerType], pb, []) == Merged([("pd.soc", Int(soc))])
  {
    var h := ObfuscatedHeader(inner, sq);
    ObfuscatedHeaderStep(inner, sq, innerType, soc, pb);
    assert [h][1..] == [];
    assert Update([], [("pd.soc", Int(soc))]) == [("pd.soc", Int(soc))];
  }

  /** Rows from `k` on whose fields are all absent contribute nothing. */
  lemma {:induction false} NormalizeAbsent(msg: Bag, t: seq<(string, string, Coercion)>, k: nat)
    requires k <= |t| && forall i | k <= i < |t| :: t[i].0 !in msg
    ensures NormalizeRows(msg, t[k..]) == Some([])
    decreases |t| - k
  {
    if k < |t| {
      NormalizeAbsent(msg, t, k + 1);
      assert t[k..][1..] == t[k + 1..];
    }
  }

  // ---------------------------------------------------------------------
  // The codec's state

  class Codec {
    var dispatch: map<(int, int), string>
    var dispatchCmd: map<(int, int), string>
    var pool: Pool
    var messagesDecoded: nat
    var decodeErrors: nat

    /** The globals at import: empty tables, no pool, zero counters. */
    constructor ()
      ensures State() == CodecState(map[], map[], NoPool, 0, 0)
    {
      dispatch := map[];
      dispatchCmd := map[];
      pool := NoPool;
      messagesDecoded := 0;
      decodeErrors := 0;
    }

    function State(): CodecState
      reads this
    {
      CodecState(dispatch, dispatchCmd, pool, messagesDecoded, decodeErrors)
    }

    /** `bind_descriptors`: the outer table becomes a copy of `table`. */
    method BindDescriptors(table: map<(int, int), string>)
      modifies this
      ensures State() == old(State()).(dispatch := table)
    {
      dispatch := table;
    }

    /** `bind_file_descriptor_set`: a pool of the set's message names replaces the current one. */
    method BindFileDescriptorSet(names: set<string>)
      modifies this
      ensures State() == old(State()).(pool := Bound(names))
    {
      pool := Bound(names);
    }

    /** `register_dispatch`: fails without a pool or for an unknown name; otherwise sets one entry. */
    method RegisterDispatch(moduleType: int, cmd: int, name: string) returns (r: Result<(), RegisterError>)
      modifies this
      ensures r == Registration(old(pool), name)
      ensures State() == old(State()).(dispatch := if r.Ok? then old(dispatch)[(moduleType, cmd) := name] else old(dispatch))
    {
      r := Registration(pool, name);
      if r.Ok? {
        dispatch := dispatch[(moduleType, cmd) := name];
      }
    }

    /** `register_cmd_dispatch`: as `register_dispatch`, for the inner table. */
    method RegisterCmdDispatch(cmdFunc: int, cmdId: int, name: string) returns (r: Result<(), RegisterError>)
      modifies this
      ensures r == Registration(old(pool), name)
      ensures State() == old(State()).(dispatchCmd := if r.Ok? then old(dispatchCmd)[(cmdFunc, cmdId) := name] else old(dispatchCmd))
    {
      r := Registration(pool, name);
      if r.Ok? {
        dispatchCmd := dispatchCmd[(cmdFunc, cmdId) := name];
      }
    }

    /** `_ensure_common_descriptors()` */
    method EnsureCommonDescriptors()
      modifies this
      ensures State() == old(State()).(pool := EnsureCommon(old(pool)))
    {
      if pool == NoPool {
        pool := CommonFallback;
      }
    }

    /** `_try_find_message(names)` */
    method TryFindMessage(names: seq<string>) returns (r: Option<string>)
      ensures r == FirstResolvable(pool, names)
    {
      if pool == NoPool {
        return None;
      }
      var i := 0;
      while i < |names|
        invariant 0 <= i <= |names|
        invariant forall j | 0 <= j < i :: !Resolves(pool, names[j])
      {
        if Resolves(pool, names[i]) {
          return Some(names[i]);
        }
        i := i + 1;
      }
      return None;
    }

    /** One iteration of the header loop. */
    method DecodeHeader(h: Bag, pb: Protobuf) returns (r: Step)
      ensures r == HeaderStep(h, dispatchCmd, pb)
    {
      var encType := HeaderInt(h, "enc_type", "encType");
      var sq := IntOfField(FieldOr(h, "seq", FInt(0)));
      var cmdFunc := HeaderInt(h, "cmd_func", "cmdFunc");
      var cmdId := HeaderInt(h, "cmd_id", "cmdId");
      var pdata := BytesOfField(FieldOr(h, "pdata", FBytes([])));
      if encType.None? || sq.None? || cmdFunc.None? || cmdId.None? || pdata.None? {
        return Abort(false);
      }
      var payload := pdata.value;
      if encType.value == 1 && |payload| > 0 {
        var buf := new byte[|payload|](k requires 0 <= k < |payload| => payload[k]);
        assert buf[..] == payload;
        XorInPlace(buf, sq.value);
        payload := buf[..];
      }
      if (cmdFunc.value, cmdId.value) !in dispatchCmd {
        return Skip;
      }
      var inner := pb.parse(dispatchCmd[(cmdFunc.value, cmdId.value)], payload);
      if inner.Malformed? {
        return Abort(true);
      } else if inner.Failed? {
        return Abort(false);
      }
      var normalized := Normalize(inner.bag);
      if normalized.None? {
        return Abort(false);
      }
      return Merge(normalized.value);
    }

    /** The `try` block of the nested attempt: parse the envelope, then run the header loop. */
    method DecodeCommon(sendType: string, data: seq<byte>, pb: Protobuf) returns (r: Nested)
      ensures r == SendHeaders(sendType, dispatchCmd, data, pb)
    {
      var sent := pb.parse(sendType, data);
      if sent.Malformed? {
        return Aborted(true);
      } else if sent.Failed? {
        return Aborted(false);
      }
      var headers: seq<Bag> := [];
      if "msg" in sent.bag {
        var listed := ListOfField(sent.bag["msg"]);
        if listed.None? {
          return Aborted(false);
        }
        headers := listed.value;
      }
      var out: Dict<string, Json> := [];
      var i := 0;
      while i < |headers|
        invariant 0 <= i <= |headers|
        invariant MergeHeaders(headers[i..], dispatchCmd, pb, out) == SendHeaders(sendType, dispatchCmd, data, pb)
      {
        assert headers[i..][0] == headers[i] && headers[i..][1..] == headers[i + 1..];
        var step := DecodeHeader(headers[i], pb);
        if step.Abort? {
          return Aborted(step.decodeError);
        }
        if step.Merge? {
          out := Update(out, step.fields);
        }
        i := i + 1;
      }
      return Merged(out);
    }

    /** `decode_v3(env)`: never raises; failures count in `decodeErrors` and yield `{}`. */
    method DecodeV3(env: Json, pb: Protobuf) returns (out: Dict<string, Json>)
      modifies this
      ensures Decoding(out, State()) == Decode(old(State()), env, pb)
    {
      if !env.Obj? {
        decodeErrors := decodeErrors + 1;
        return [];
      }
      var moduleType := IntOfJson(GetOr(env.entries, "moduleType", Int(-1)));
      var cmd := IntOfJson(GetOr(env.entries, "cmd", Int(-1)));
      if moduleType.None? || cmd.None? {
        decodeErrors := decodeErrors + 1;
        return [];
      }
      var pData := GetOr(env.entries, "pData", Null);
      if !Truthy(pData) {
        return [];
      }
      var data := Base64.DecodeJson(pData);
      if data.Err? {
        decodeErrors := decodeErrors + 1;
        return [];
      }
      assert ReadEnvelope(env) == Payload(moduleType.value, cmd.value, data.value);
      out := DecodePayload(moduleType.value, cmd.value, data.value, pb);
    }

    /**
     * Look up `Send_Header_Msg` and `Header` under their aliases, fall back to
     * the static classes, and parse when both are available.
     */
    method TryCommonEnvelope(data: seq<byte>, pb: Protobuf) returns (r: Nested)
      ensures r == NestedFrame(pool, dispatchCmd, data, pb)
    {
      var sendType := TryFindMessage(SendNames);
      var headerType := TryFindMessage(HeaderNames);
      if (sendType.None? || headerType.None?) && pb.staticCommon {
        sendType, headerType := Some(StaticSendHeaderMsg), Some(StaticHeader);
      }
      r := NotTried;
      if sendType.Some? && headerType.Some? {
        r := DecodeCommon(sendType.value, data, pb);
      }
    }

    /** The rest of `decode_v3` once the payload bytes are known. */
    method DecodePayload(moduleType: int, cmd: int, data: seq<byte>, pb: Protobuf) returns (out: Dict<string, Json>)
      modifies this
      ensures Decoding(out, State()) == FromPayload(old(State()), moduleType, cmd, data, pb)
    {
      EnsureCommonDescriptors();
      var nested := TryCommonEnvelope(data, pb);
      if nested.Merged? && |nested.out| > 0 {
        messagesDecoded := messagesDecoded + 1;
        return nested.out;
      }
      if nested.Aborted? && nested.decodeError {
        decodeErrors := decodeErrors + 1;
      }
      out := DecodeLegacy(moduleType, cmd, data, pb);
    }

    /** The legacy path of `decode_v3`. */
    method DecodeLegacy(moduleType: int, cmd: int, data: seq<byte>, pb: Protobuf) returns (out: Dict<string, Json>)
      modifies this
      ensures Decoding(out, State()) == Legacy(old(State()), moduleType, cmd, data, pb)
    {
      if (moduleType, cmd) !in dispatch {
        return [];
      }
      var msg := pb.parse(dispatch[(moduleType, cmd)], data);
      var normalized := if !msg.Parsed? then None else Normalize(msg.bag);
      ghost var st := State();
      if normalized.None? {
        decodeErrors := decodeErrors + 1;
        assert State() == st.(errors := st.errors + 1);
        return [];
      }
      if |normalized.value| > 0 {
        messagesDecoded := messagesDecoded + 1;
        assert State() == st.(decoded := st.decoded + 1);
      }
      return normalized.value;
    }

    /** `get_metrics()` */
    function GetMetrics(): (m: Dict<string, int>)
      reads this
      ensures Get(m, "messages_decoded") == Some(messagesDecoded)
      ensures Get(m, "decode_errors") == Some(decodeErrors)
      ensures KeySet(m) == {"messages_decoded", "decode_errors"}
    {
      [("messages_decoded", messagesDecoded as int), ("decode_errors", decodeErrors as int)]
    }

    /** `reset_metrics()`: both counters back to zero, nothing else changes. */
    method ResetMetrics()
      modifies this
      ensures State() == old(State()).(decoded := 0, errors := 0)
    {
      messagesDecoded := 0;
      decodeErrors := 0;
    }
  }
}
