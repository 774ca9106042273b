/**
 * The public-API data bridge (`devices/public/data_bridge.py`): it flattens
 * a device report into one level of dotted keys under `params`, prefixed by
 * the report's status type (or its `cmdFunc_cmdId`), keeps the report itself
 * under `raw_data`, and copies the routing metadata to the top level.
 */
module DataBridge {
  import opened Wrappers
  import opened Dicts
  import opened Values

  // ---------------------------------------------------------------------
  // Status names

  /** Row `i` of `plain_to_status`. */
  function StatusRow(i: nat): (string, string)
    requires i < 9
  {
    if i == 0 then ("pd", "pdStatus")
    else if i == 1 then ("mppt", "mpptStatus")
    else if i == 2 then ("bms_emsStatus", "emsStatus")
    else if i == 3 then ("bms_bmsStatus", "bmsStatus")
    else if i == 4 then ("bms_bmsInfo", "bmsInfo")
    else if i == 5 then ("inv", "invStatus")
    else if i == 6 then ("bms_slave", "bmsSlaveStatus")
    else if i == 7 then ("bms_slave_bmsSlaveStatus_1", "bmsSlaveStatus_1")
    else ("bms_slave_bmsSlaveStatus_2", "bmsSlaveStatus_2")
  }

  /** `plain_to_status` */
  function PlainToStatus(): Dict<string, string>
  {
    seq(9, i requires 0 <= i < 9 => StatusRow(i))
  }

  /** `status_to_plain`: every pair of `plain_to_status` turned around. */
  function StatusToPlain(): Dict<string, string>
  {
    var p := PlainToStatus();
    seq(|p|, i requires 0 <= i < |p| => (p[i].1, p[i].0))
  }

  /** No two plain names and no two status names are the same. */
  lemma StatusNamesDistinct()
    ensures DistinctKeys(PlainToStatus())
    ensures DistinctKeys(StatusToPlain())
  {
    var p := PlainToStatus();
    forall i, j | 0 <= i < j < 9 ensures p[i].0 != p[j].0 && p[i].1 != p[j].1 {
      assert p[i] == StatusRow(i) && p[j] == StatusRow(j);
    }
  }

  /** `status_to_plain` inverts `plain_to_status`, both ways round. */
  lemma StatusRoundTrip(plain: string, status: string)
    ensures Get(PlainToStatus(), plain) == Some(status) <==> Get(StatusToPlain(), status) == Some(plain)
  {
    StatusNamesDistinct();
    var p, q := PlainToStatus(), StatusToPlain();
    if Get(p, plain) == Some(status) {
      var i := KeyIndex(p, plain);
      GetAt(p, i);
      GetAt(q, i);
    }
    if Get(q, status) == Some(plain) {
      var i := KeyIndex(q, status);
      GetAt(q, i);
      GetAt(p, i);
    }
  }

  // ---------------------------------------------------------------------
  // The flattening, as functions

  datatype BridgeError =
    | TypeCodeNotText     // `"unknown_" + typeCode` raises before the lookup
    | NotADict(key: string)  // `.items()` on a `param` / `params` that is not a dict

  /**
   * The key prefix: the plain name of a `typeCode` (or `unknown_<typeCode>`),
   * else `<cmdFunc>_<cmdId>` when both are present, else nothing; a
   * non-empty prefix ends in a dot.
   */
  function Prefix(raw: Dict<string, Json>): (r: Result<string, BridgeError>)
    ensures r.Err? <==> HasKey(raw, "typeCode") && !Get(raw, "typeCode").value.Str?
    ensures r.Ok? && r.value != [] ==> r.value[|r.value| - 1] == '.'
    ensures r.Ok? && !HasKey(raw, "typeCode") && !(HasKey(raw, "cmdFunc") && HasKey(raw, "cmdId")) ==> r.value == []
  {
    match Get(raw, "typeCode")
    case Some(code) =>
      if code.Str? then Ok(GetOr(StatusToPlain(), code.s, "unknown_" + code.s) + ".")
      else Err(TypeCodeNotText)
    case None =>
      if HasKey(raw, "cmdFunc") && HasKey(raw, "cmdId") then
        Ok(PyStr(Get(raw, "cmdFunc").value) + "_" + PyStr(Get(raw, "cmdId").value) + ".")
      else Ok("")
  }

  /** A report of a known status type is filed under that type's plain name. */
  lemma PrefixOfStatus(raw: Dict<string, Json>, plain: string, status: string)
    requires Get(PlainToStatus(), plain) == Some(status)
    requires Get(raw, "typeCode") == Some(Str(status))
    ensures Prefix(raw) == Ok(plain + ".")
  {
    StatusRoundTrip(plain, status);
  }

  /** `d[prefix + k] = v` for each entry of `entries`, in order. */
  function PutAll(d: Dict<string, Json>, prefix: string, entries: Dict<string, Json>): Dict<string, Json>
    decreases |entries|
  {
    if |entries| == 0 then d else PutAll(Put(d, prefix + entries[0].0, entries[0].1), prefix, entries[1..])
  }

  /** As `PutAll`, skipping the `param` and `params` entries. */
  function PutOthers(d: Dict<string, Json>, prefix: string, entries: Dict<string, Json>): Dict<string, Json>
    decreases |entries|
  {
    if |entries| == 0 then d
    else
      var k := entries[0].0;
      var d' := if k != "param" && k != "params" then Put(d, prefix + k, entries[0].1) else d;
      PutOthers(d', prefix, entries[1..])
  }

  /** The entries of a `param` / `params` section written in; absent, nothing. */
  function Section(raw: Dict<string, Json>, key: string, prefix: string, d: Dict<string, Json>): Result<Dict<string, Json>, BridgeError>
  {
    match Get(raw, key)
    case None => Ok(d)
    case Some(v) => if v.Obj? then Ok(PutAll(d, prefix, v.entries)) else Err(NotADict(key))
  }

  /** `new_params`: `param`, then `params`, then every other top-level entry, all prefixed. */
  function Flatten(raw: Dict<string, Json>, prefix: string): Result<Dict<string, Json>, BridgeError>
  {
    match Section(raw, "param", prefix, [])
    case Err(e) => Err(e)
    case Ok(d1) =>
      match Section(raw, "params", prefix, d1)
      case Err(e) => Err(e)
      case Ok(d2) => Ok(PutOthers(d2, prefix, raw))
  }

  /** `new_params2`: each entry kept, and a dict value also spread one level down as `k.k2`. */
  function Expand(acc: Dict<string, Json>, entries: Dict<string, Json>): Dict<string, Json>
    decreases |entries|
  {
    if |entries| == 0 then acc
    else
      var k := entries[0].0;
      var v := entries[0].1;
      var acc' := Put(acc, k, v);
      Expand(if v.Obj? then PutAll(acc', k + ".", v.entries) else acc', entries[1..])
  }

  /** `result[key] = raw_data[key]` when the report has `key`. */
  function CopyIfPresent(r: Dict<string, Json>, raw: Dict<string, Json>, key: string): (r': Dict<string, Json>)
    ensures Get(r', key) == if HasKey(raw, key) then Get(raw, key) else Get(r, key)
    ensures forall k | k != key :: Get(r', k) == Get(r, k)
    ensures KeySet(r') == KeySet(r) + (KeySet(raw) * {key})
  {
    HasKeyIsKeySet(raw, key);
    if HasKey(raw, key) then Put(r, key, Get(raw, key).value) else r
  }

  /** The result dict around the flattened `params`. */
  function Assemble(raw: Dict<string, Json>, params: Dict<string, Json>): Dict<string, Json>
  {
    var r := [("params", Obj(params)), ("raw_data", Obj(raw))];
    CopyIfPresent(CopyIfPresent(CopyIfPresent(r, raw, "moduleSn"), raw, "sn"), raw, "time")
  }

  /** `to_plain(raw_data)` */
  function ToPlainSpec(raw: Dict<string, Json>): Result<Dict<string, Json>, BridgeError>
  {
    match Prefix(raw)
    case Err(e) => Err(e)
    case Ok(prefix) =>
      match Flatten(raw, prefix)
      case Err(e) => Err(e)
      case Ok(flat) => Ok(Assemble(raw, Expand([], flat)))
  }

  // ---------------------------------------------------------------------
  // What the flattening promises

  /** The entries of `entries` under prefixed keys. */
  function Prefixed(prefix: string, entries: Dict<string, Json>): Dict<string, Json>
  {
    seq(|entries|, i requires 0 <= i < |entries| => (prefix + entries[i].0, entries[i].1))
  }

  /** The entries other than `param` and `params`, in order. */
  function Others(entries: Dict<string, Json>): Dict<string, Json>
    decreases |entries|
  {
    if |entries| == 0 then []
    else
      var k := entries[0].0;
      (if k != "param" && k != "params" then [entries[0]] else []) + Others(entries[1..])
  }

  /** Writing prefixed entries one by one is `dict.update` with the prefixed entries. */
  lemma {:induction false} PutAllIsUpdate(d: Dict<string, Json>, prefix: string, entries: Dict<string, Json>)
    ensures PutAll(d, prefix, entries) == Update(d, Prefixed(prefix, entries))
    decreases |entries|
  {
    if |entries| > 0 {
      var e := Prefixed(prefix, entries);
      assert e[1..] == Prefixed(prefix, entries[1..]);
      PutAllIsUpdate(Put(d, prefix + entries[0].0, entries[0].1), prefix, entries[1..]);
    }
  }

  /** The top-level pass is `dict.update` with the other entries, prefixed. */
  lemma {:induction false} PutOthersIsUpdate(d: Dict<string, Json>, prefix: string, entries: Dict<string, Json>)
    ensures PutOthers(d, prefix, entries) == Update(d, Prefixed(prefix, Others(entries)))
    decreases |entries|
  {
    if |entries| > 0 {
      var k := entries[0].0;
      var rest := Prefixed(prefix, Others(entries[1..]));
      if k != "param" && k != "params" {
        assert Others(entries) == [entries[0]] + Others(entries[1..]);
        var e := Prefixed(prefix, Others(entries));
        assert e == [(prefix + k, entries[0].1)] + rest;
        assert e[0] == (prefix + k, entries[0].1) && e[1..] == rest;
        PutOthersIsUpdate(Put(d, prefix + k, entries[0].1), prefix, entries[1..]);
      } else {
        assert Others(entries) == Others(entries[1..]);
        PutOthersIsUpdate(d, prefix, entries[1..]);
      }
    }
  }

  /**
   * `new_params` is `param`, then `params`, then the other top-level entries,
   * each merged over the one before: a later write wins.
   */
  lemma FlattenIsUpdates(raw: Dict<string, Json>, prefix: string)
    requires Flatten(raw, prefix).Ok?
    ensures var param := if HasKey(raw, "param") then Get(raw, "param").value.entries else [];
      var params := if HasKey(raw, "params") then Get(raw, "params").value.entries else [];
      Flatten(raw, prefix).value ==
        Update(Update(Update([], Prefixed(prefix, param)), Prefixed(prefix, params)), Prefixed(prefix, Others(raw)))
  {
    var param := if HasKey(raw, "param") then Get(raw, "param").value.entries else [];
    var params := if HasKey(raw, "params") then Get(raw, "params").value.entries else [];
    PutAllIsUpdate([], prefix, param);
    var d1 := Update([], Prefixed(prefix, param));
    PutAllIsUpdate(d1, prefix, params);
    var d2 := Update(d1, Prefixed(prefix, params));
    assert Section(raw, "param", prefix, []) == Ok(d1);
    assert Section(raw, "params", prefix, d1) == Ok(d2);
    PutOthersIsUpdate(d2, prefix, raw);
  }

  /** A key other than `param` / `params` keeps its value when the others are picked out. */
  lemma {:induction false} OthersGet(entries: Dict<string, Json>, k: string)
    requires k != "param" && k != "params"
    ensures Get(Others(entries), k) == Get(entries, k)
    decreases |entries|
  {
    if |entries| > 0 {
      if entries[0].0 != "param" && entries[0].0 != "params" {
        assert Others(entries) == [entries[0]] + Others(entries[1..]);
        assert Others(entries)[1..] == Others(entries[1..]);
      } else {
        assert Others(entries) == Others(entries[1..]);
      }
      OthersGet(entries[1..], k);
    }
  }

  /** Only keys of the entries are picked out. */
  lemma {:induction false} OthersKeys(entries: Dict<string, Json>)
    ensures KeySet(Others(entries)) == KeySet(entries) - {"param", "params"}
    decreases |entries|
  {
    if |entries| > 0 {
      OthersKeys(entries[1..]);
      KeySetCons(entries);
      var k := entries[0].0;
      if k != "param" && k != "params" {
        KeySetCons(Others(entries));
        assert Others(entries)[1..] == Others(entries[1..]);
      } else {
        assert Others(entries) == Others(entries[1..]);
      }
    }
  }

  /** Prefixing is one-to-one, so a prefixed key finds exactly its own entry. */
  lemma {:induction false} PrefixedGet(prefix: string, entries: Dict<string, Json>, k: string)
    ensures Get(Prefixed(prefix, entries), prefix + k) == Get(entries, k)
    ensures Last(Prefixed(prefix, entries), prefix + k) == Last(entries, k)
    decreases |entries|
  {
    if |entries| > 0 {
      var e := Prefixed(prefix, entries);
      assert e[1..] == Prefixed(prefix, entries[1..]);
      if entries[0].0 != k {
        assert (prefix + entries[0].0)[|prefix|..] == entries[0].0;
        assert (prefix + k)[|prefix|..] == k;
      }
      PrefixedGet(prefix, entries[1..], k);
    }
  }

  /**
   * Every top-level entry other than `param` / `params` lands in
   * `new_params` under its prefixed key with its own value: the top-level
   * pass comes last.
   */
  lemma FlattenTopLevel(raw: Dict<string, Json>, prefix: string, k: string)
    requires DistinctKeys(raw)
    requires Flatten(raw, prefix).Ok? && HasKey(raw, k) && k != "param" && k != "params"
    ensures Get(Flatten(raw, prefix).value, prefix + k) == Get(raw, k)
  {
    FlattenIsUpdates(raw, prefix);
    var o := Others(raw);
    OthersGet(raw, k);
    OthersKeys(raw);
    HasKeyIsKeySet(raw, k);
    HasKeyIsKeySet(o, k);
    PrefixedGet(prefix, o, k);
    HasKeyIsKeySet(Prefixed(prefix, o), prefix + k);
    OthersDistinct(raw);
    GetIsLast(o, k);
  }

  lemma {:induction false} OthersDistinct(entries: Dict<string, Json>)
    requires DistinctKeys(entries)
    ensures DistinctKeys(Others(entries))
    decreases |entries|
  {
    if |entries| > 0 {
      DistinctTail(entries);
      OthersDistinct(entries[1..]);
      OthersKeys(entries[1..]);
      var o := Others(entries);
      if entries[0].0 != "param" && entries[0].0 != "params" {
        assert o == [entries[0]] + Others(entries[1..]);
        forall i, j | 0 <= i < j < |o| ensures o[i].0 != o[j].0 {
          if i == 0 {
            assert o[j] == Others(entries[1..])[j - 1];
            assert o[j].0 in KeySet(Others(entries[1..]));
          } else {
            assert o[i] == Others(entries[1..])[i - 1] && o[j] == Others(entries[1..])[j - 1];
          }
        }
      }
    }
  }

  /** The keys `PutAll` writes. */
  lemma {:induction false} PutAllKeys(d: Dict<string, Json>, prefix: string, entries: Dict<string, Json>)
    ensures KeySet(PutAll(d, prefix, entries)) == KeySet(d) + set k | k in KeySet(entries) :: prefix + k
    decreases |entries|
  {
    if |entries| > 0 {
      PutAllKeys(Put(d, prefix + entries[0].0, entries[0].1), prefix, entries[1..]);
      KeySetCons(entries);
    }
  }

  /** The `k.k2` keys that spreading `entries` adds. */
  function Spread(entries: Dict<string, Json>): set<string>
    decreases |entries|
  {
    if |entries| == 0 then {}
    else
      var k := entries[0].0;
      var v := entries[0].1;
      (if v.Obj? then set k2 | k2 in KeySet(v.entries) :: k + "." + k2 else {}) + Spread(entries[1..])
  }

  /** `new_params2` has exactly the keys of `new_params` plus the spread `k.k2` keys. */
  lemma {:induction false} ExpandKeys(acc: Dict<string, Json>, entries: Dict<string, Json>)
    ensures KeySet(Expand(acc, entries)) == KeySet(acc) + KeySet(entries) + Spread(entries)
    decreases |entries|
  {
    if |entries| > 0 {
      var k := entries[0].0;
      var v := entries[0].1;
      var acc' := Put(acc, k, v);
      if v.Obj? {
        PutAllKeys(acc', k + ".", v.entries);
        ExpandKeys(PutAll(acc', k + ".", v.entries), entries[1..]);
      } else {
        ExpandKeys(acc', entries[1..]);
      }
      KeySetCons(entries);
    }
  }

  /**
   * The result holds `params` and the untouched report under `raw_data`,
   * and `moduleSn`, `sn` and `time` exactly when the report has them, with
   * the report's values.
   */
  lemma AssembleSpec(raw: Dict<string, Json>, params: Dict<string, Json>)
    ensures var r := Assemble(raw, params);
      Get(r, "params") == Some(Obj(params)) && Get(r, "raw_data") == Some(Obj(raw)) &&
      Get(r, "moduleSn") == Get(raw, "moduleSn") && Get(r, "sn") == Get(raw, "sn") &&
      Get(r, "time") == Get(raw, "time") &&
      KeySet(r) == {"params", "raw_data"} + (KeySet(raw) * {"moduleSn", "sn", "time"})
  {
    var r := [("params", Obj(params)), ("raw_data", Obj(raw))];
    assert |"params"| == 6 && |"raw_data"| == 8 && |"moduleSn"| == 8 && |"sn"| == 2 && |"time"| == 4;
    assert "raw_data"[0] != "moduleSn"[0];
    PairGet(r[0], r[1], "moduleSn");
    PairGet(r[0], r[1], "sn");
    PairGet(r[0], r[1], "time");
    PairGets(r[0], r[1]);
    assert KeySet(r) == {"params", "raw_data"} by {
      assert r[1..] == [("raw_data", Obj(raw))];
      assert r[0].0 == "params" && r[1].0 == "raw_data";
    }
    CopyThree(r, raw, "moduleSn", "sn", "time");
    var r3 := Assemble(raw, params);
    assert "params" != "moduleSn" && "params" != "sn" && "params" != "time";
    assert "raw_data" != "moduleSn" && "raw_data" != "sn" && "raw_data" != "time";
    assert Get(r3, "params") == Get(r, "params") && Get(r3, "raw_data") == Get(r, "raw_data");
  }

  lemma PairGets(a: (string, Json), b: (string, Json))
    requires a.0 != b.0
    ensures Get([a, b], a.0) == Some(a.1) && Get([a, b], b.0) == Some(b.1)
  {
    var d := [a, b];
    assert d[1..] == [b];
  }

  /** Three copies, one key each, in a row. */
  lemma CopyThree(r: Dict<string, Json>, raw: Dict<string, Json>, x: string, y: string, z: string)
    requires x != y && x != z && y != z
    requires Get(r, x) == None && Get(r, y) == None && Get(r, z) == None
    ensures var r3 := CopyIfPresent(CopyIfPresent(CopyIfPresent(r, raw, x), raw, y), raw, z);
      Get(r3, x) == Get(raw, x) && Get(r3, y) == Get(raw, y) && Get(r3, z) == Get(raw, z) &&
      (forall k | k != x && k != y && k != z :: Get(r3, k) == Get(r, k)) &&
      KeySet(r3) == KeySet(r) + (KeySet(raw) * {x, y, z})
  {
    var r1 := CopyIfPresent(r, raw, x);
    var r2 := CopyIfPresent(r1, raw, y);
    var r3 := CopyIfPresent(r2, raw, z);
    assert KeySet(r3) == KeySet(r) + (KeySet(raw) * {x, y, z}) by {
      assert KeySet(r3) == KeySet(r) + (KeySet(raw) * {x}) + (KeySet(raw) * {y}) + (KeySet(raw) * {z});
      ThreeKeys(KeySet(r), KeySet(raw), x, y, z);
    }
  }

  lemma ThreeKeys(a: set<string>, b: set<string>, x: string, y: string, z: string)
    ensures a + (b * {x}) + (b * {y}) + (b * {z}) == a + (b * {x, y, z})
  {
  }

  lemma PairGet(a: (string, Json), b: (string, Json), x: string)
    requires x != a.0 && x != b.0
    ensures Get([a, b], x) == None
  {
    var d := [a, b];
    assert d[1..] == [b] && d[1..][1..] == [];
    assert Get(d[1..][1..], x) == None;
    assert Get(d[1..], x) == None;
  }

  /**
   * Every top-level key other than `param` / `params` (`typeCode` included)
   * appears among the flat keys under the prefix.
   */
  lemma ToPlainKeepsTopLevel(raw: Dict<string, Json>, k: string)
    requires ToPlainSpec(raw).Ok? && HasKey(raw, k) && k != "param" && k != "params"
    ensures Prefix(raw).Ok?
    ensures var params := Get(ToPlainSpec(raw).value, "params");
      params.Some? && params.value.Obj? && Prefix(raw).value + k in KeySet(params.value.entries)
  {
    var prefix := Prefix(raw).value;
    var flat := Flatten(raw, prefix).value;
    FlattenHasTopLevel(raw, prefix, k);
    ExpandKeys([], flat);
    AssembleSpec(raw, Expand([], flat));
  }

  lemma FlattenHasTopLevel(raw: Dict<string, Json>, prefix: string, k: string)
    requires Flatten(raw, prefix).Ok? && HasKey(raw, k) && k != "param" && k != "params"
    ensures prefix + k in KeySet(Flatten(raw, prefix).value)
  {
    FlattenIsUpdates(raw, prefix);
    OthersKeys(raw);
    HasKeyIsKeySet(raw, k);
    var o := Others(raw);
    assert k in KeySet(o);
    var i :| 0 <= i < |o| && o[i].0 == k;
    assert Prefixed(prefix, o)[i].0 == prefix + k;
  }

  // ---------------------------------------------------------------------
  // The flattening, as the source writes it

  /** `for k, v in entries.items(): d[f"{prefix}{k}"] = v` */
  method PutAllInto(d: Dict<string, Json>, prefix: string, entries: Dict<string, Json>) returns (r: Dict<string, Json>)
    ensures r == PutAll(d, prefix, entries)
  {
    r := d;
    var i := 0;
    while i < |entries|
      invariant 0 <= i <= |entries|
      invariant PutAll(r, prefix, entries[i..]) == PutAll(d, prefix, entries)
    {
      assert entries[i..][1..] == entries[i + 1..];
      r := Put(r, prefix + entries[i].0, entries[i].1);
      i := i + 1;
    }
  }

  /** `new_params`: the two sections, then the top-level loop. */
  method FlattenInto(raw: Dict<string, Json>, prefix: string) returns (r: Result<Dict<string, Json>, BridgeError>)
    ensures r == Flatten(raw, prefix)
  {
    var newParams: Dict<string, Json> := [];
    var param := Get(raw, "param");
    if param.Some? {
      if !param.value.Obj? {
        return Err(NotADict("param"));
      }
      newParams := PutAllInto(newParams, prefix, param.value.entries);
    }
    var params := Get(raw, "params");
    if params.Some? {
      if !params.value.Obj? {
        return Err(NotADict("params"));
      }
      newParams := PutAllInto(newParams, prefix, params.value.entries);
    }
    ghost var d2 := newParams;
    var i := 0;
    while i < |raw|
      invariant 0 <= i <= |raw|
      invariant PutOthers(newParams, prefix, raw[i..]) == PutOthers(d2, prefix, raw)
    {
      assert raw[i..][1..] == raw[i + 1..];
      var k := raw[i].0;
      if k != "param" && k != "params" {
        newParams := Put(newParams, prefix + k, raw[i].1);
      }
      i := i + 1;
    }
    return Ok(newParams);
  }

  /** `new_params2`: each entry, then its one-level spread when it is a dict. */
  method ExpandInto(entries: Dict<string, Json>) returns (r: Dict<string, Json>)
    ensures r == Expand([], entries)
  {
    r := [];
    var i := 0;
    while i < |entries|
      invariant 0 <= i <= |entries|
      invariant Expand(r, entries[i..]) == Expand([], entries)
    {
      assert entries[i..][1..] == entries[i + 1..];
      var k := entries[i].0;
      var v := entries[i].1;
      r := Put(r, k, v);
      if v.Obj? {
        r := PutAllInto(r, k + ".", v.entries);
      }
      i := i + 1;
    }
  }

  /** `to_plain(raw_data)`; the report itself is left as it was. */
  method ToPlain(raw: Dict<string, Json>) returns (r: Result<Dict<string, Json>, BridgeError>)
    ensures r == ToPlainSpec(raw)
  {
    var prefix := Prefix(raw);
    if prefix.Err? {
      return Err(prefix.error);
    }
    var flat := FlattenInto(raw, prefix.value);
    if flat.Err? {
      return Err(flat.error);
    }
    var params := ExpandInto(flat.value);
    return Ok(Assemble(raw, params));
  }
}
