/**
 * Family dispatch (`mqtt/__init__.py`): v3 envelopes go through the codec,
 * JSON-family envelopes are already normalized and pass through, anything
 * else decodes to nothing.
 */
module Envelope {
  import opened Dicts
  import opened Values
  import opened CodecV3

  /** The model families a device profile can name. */
  datatype Family = FamilyV3 | FamilyJson | OtherFamily(name: string)

  /**
   * What `decode_envelope(family, envelope)` returns, and the codec state it
   * leaves: only the v3 family reaches the codec.
   */
  function DecodeEnvelopeSpec(st: CodecState, family: Family, env: Json, pb: Protobuf): (r: (Json, CodecState))
    ensures family != FamilyV3 ==> r.1 == st
    ensures family == FamilyJson ==> r.0 == env
    ensures family.OtherFamily? ==> r.0 == Obj([])
    ensures family == FamilyV3 ==> r.0 == Obj(Decode(st, env, pb).out) && r.1 == Decode(st, env, pb).state
  {
    match family
    case FamilyV3 =>
      var d := Decode(st, env, pb);
      (Obj(d.out), d.state)
    case FamilyJson => (env, st)
    case OtherFamily(_) => (Obj([]), st)
  }

  /** `decode_envelope(family, envelope)` */
  method DecodeEnvelope(codec: Codec, family: Family, env: Json, pb: Protobuf) returns (r: Json)
    modifies codec
    ensures (r, codec.State()) == DecodeEnvelopeSpec(old(codec.State()), family, env, pb)
  {
    match family
    case FamilyV3 =>
      var out := codec.DecodeV3(env, pb);
      r := Obj(out);
    case FamilyJson =>
      r := env;
    case OtherFamily(_) =>
      r := Obj([]);
  }
}
