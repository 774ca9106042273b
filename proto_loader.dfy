/**
 * Loading the codec's dispatch tables from a mapping `{"a,b": "full.Name"}`
 * (`mqtt/proto_loader.py`). Each key is split on its first comma, both parts
 * are read as integers, and the entry is registered with the codec; entries
 * go in mapping order and the first failure stops the load, keeping what was
 * registered before it. Reading the file and its JSON text is left out: the
 * mapping arrives as a dictionary.
 */
module ProtoLoader {
  import opened Wrappers
  import opened Dicts
  import opened Values
  import opened CodecV3

  /** `key.split(",", 1)` unpacked into two parts; None when the unpacking raises. */
  function SplitKey(key: string): (r: Option<(string, string)>)
    ensures r.None? <==> ',' !in key
    ensures r.Some? ==> ',' !in r.value.0 && key == r.value.0 + "," + r.value.1
  {
    var j := Find(key, ',', 0);
    if j == |key| then None
    else
      assert key == key[..j] + "," + key[j + 1..];
      Some((key[..j], key[j + 1..]))
  }

  datatype LoadError =
    | KeyWithoutComma(key: string)  // ValueError from unpacking the split
    | NotAnInteger(key: string)     // ValueError from int()
    | Registering(error: RegisterError)

  /** `(int(a.strip()), int(b.strip()))` for the two halves of `key`. */
  function ParseKey(key: string): Result<(int, int), LoadError>
  {
    match SplitKey(key)
    case None => Err(KeyWithoutComma(key))
    case Some(parts) =>
      match (ParseInt(Strip(parts.0)), ParseInt(Strip(parts.1)))
      case (Some(a), Some(b)) => Ok((a, b))
      case _ => Err(NotAnInteger(key))
  }

  lemma IntToStringShape(i: int)
    ensures ',' !in IntToString(i)
    ensures Strip(IntToString(i)) == IntToString(i)
  {
    var s := IntToString(i);
    if i < 0 {
      forall k | 0 <= k < |s| ensures s[k] != ',' {
        if k > 0 { assert s[k] == NatToString(-i)[k - 1]; }
      }
    }
    StripUnspaced(s);
  }

  /** A key splits at its first comma: `x` has none, so the split gives `x` and `y` back. */
  lemma SplitAtFirstComma(x: string, y: string)
    requires ',' !in x
    ensures SplitKey(x + "," + y) == Some((x, y))
  {
    var key := x + "," + y;
    var j := Find(key, ',', 0);
    assert key[|x|] == ',';
    assert forall k | 0 <= k < |x| :: key[k] == x[k];
    assert j == |x|;
    assert key[..j] == x && key[j + 1..] == y;
  }

  /** A number written with one leading space strips back to itself. */
  lemma StripPadded(a: int)
    ensures Strip(" " + IntToString(a)) == IntToString(a)
  {
    var x := IntToString(a);
    IntToStringShape(a);
    assert TrimLeft(" " + x, false) == TrimLeft(x, false) by {
      assert (" " + x)[1..] == x;
    }
  }

  /** The key written for a pair of integers reads back as that pair. */
  lemma ParseKeyText(a: int, b: int)
    ensures ParseKey(IntToString(a) + "," + IntToString(b)) == Ok((a, b))
  {
    IntToStringShape(a);
    IntToStringShape(b);
    SplitAtFirstComma(IntToString(a), IntToString(b));
    ParseIntToString(a);
    ParseIntToString(b);
  }

  /** Whitespace around either number is ignored: `" 1, 2"` names the same entry as `"1,2"`. */
  lemma ParseKeyPadded(a: int, b: int)
    ensures ParseKey(" " + IntToString(a) + ", " + IntToString(b)) == Ok((a, b))
  {
    var x, y := IntToString(a), IntToString(b);
    IntToStringShape(a);
    assert " " + x + ", " + y == (" " + x) + "," + (" " + y);
    assert ',' !in " " + x;
    SplitAtFirstComma(" " + x, " " + y);
    StripPadded(a);
    StripPadded(b);
    ParseIntToString(a);
    ParseIntToString(b);
  }

  /** The split is on the first comma only, so a second comma makes the second half unreadable. */
  lemma ParseKeyTwoCommas()
    ensures ParseKey("1,2,3") == Err(NotAnInteger("1,2,3"))
  {
    assert Find("1,2,3", ',', 0) == 1;
    assert "1,2,3"[2..] == "2,3";
    assert "2,3"[..2] == "2,";
    assert "2,"[..1] == "2";
    assert DigitRun("2,") == None;
    assert Strip("2,3") == "2,3";
    assert ParseInt("2,3") == None;
  }

  // ---------------------------------------------------------------------
  // The registration loop

  /** What a load leaves: the table after the entries that went in, and the error that stopped it. */
  datatype Loaded = Loaded(table: map<(int, int), string>, error: Option<LoadError>)

  /** Registering `mapping` in order into `table`, stopping at the first failure. */
  function Load(table: map<(int, int), string>, pool: Pool, mapping: Dict<string, string>): Loaded
    decreases |mapping|
  {
    if |mapping| == 0 then Loaded(table, None)
    else
      match ParseKey(mapping[0].0)
      case Err(e) => Loaded(table, Some(e))
      case Ok(key) =>
        match Registration(pool, mapping[0].1)
        case Err(e) => Loaded(table, Some(Registering(e)))
        case Ok(_) => Load(table[key := mapping[0].1], pool, mapping[1..])
  }

  /** Entry `i` can go in: its key parses and its message name resolves. */
  predicate Accepted(pool: Pool, mapping: Dict<string, string>, i: nat)
    requires i < |mapping|
  {
    ParseKey(mapping[i].0).Ok? && Resolves(pool, mapping[i].1)
  }

  /** Some entry of `mapping` parses to `key`. */
  predicate Names(mapping: Dict<string, string>, key: (int, int))
  {
    exists i | 0 <= i < |mapping| :: ParseKey(mapping[i].0) == Ok(key)
  }

  /** A later entry of `mapping` parses to the same key as entry `i`. */
  predicate Overridden(mapping: Dict<string, string>, i: nat)
    requires i < |mapping|
  {
    exists j | i < j < |mapping| :: ParseKey(mapping[j].0) == ParseKey(mapping[i].0)
  }

  lemma TailOf(mapping: Dict<string, string>)
    requires |mapping| > 0
    ensures forall i | 0 <= i < |mapping| - 1 :: mapping[1..][i] == mapping[i + 1]
  {
  }

  /** An accepted first entry goes into the table and the load goes on with the rest. */
  lemma LoadStep(table: map<(int, int), string>, pool: Pool, mapping: Dict<string, string>)
    requires |mapping| > 0 && Accepted(pool, mapping, 0)
    ensures Load(table, pool, mapping) == Load(table[ParseKey(mapping[0].0).value := mapping[0].1], pool, mapping[1..])
  {
  }

  /** The same step on the first `i` entries. */
  lemma LoadPrefixStep(table: map<(int, int), string>, pool: Pool, mapping: Dict<string, string>, i: nat)
    requires 0 < i <= |mapping| && Accepted(pool, mapping, 0)
    ensures Load(table, pool, mapping[..i]) ==
      Load(table[ParseKey(mapping[0].0).value := mapping[0].1], pool, mapping[1..][..i - 1])
  {
    var prefix := mapping[..i];
    assert prefix[0] == mapping[0] && prefix[1..] == mapping[1..][..i - 1];
    assert Accepted(pool, prefix, 0);
    LoadStep(table, pool, prefix);
  }

  /** A load finishes exactly when every entry is accepted. */
  lemma {:induction false} LoadCompletes(table: map<(int, int), string>, pool: Pool, mapping: Dict<string, string>)
    ensures Load(table, pool, mapping).error.None? <==> forall i | 0 <= i < |mapping| :: Accepted(pool, mapping, i)
    decreases |mapping|
  {
    if |mapping| > 0 {
      TailOf(mapping);
      var key := ParseKey(mapping[0].0);
      if key.Ok? && Resolves(pool, mapping[0].1) {
        LoadCompletes(table[key.value := mapping[0].1], pool, mapping[1..]);
        if forall i | 0 <= i < |mapping[1..]| :: Accepted(pool, mapping[1..], i) {
          forall i | 0 <= i < |mapping| ensures Accepted(pool, mapping, i) {
            if i > 0 { assert Accepted(pool, mapping[1..], i - 1); }
          }
        } else {
          var i :| 0 <= i < |mapping[1..]| && !Accepted(pool, mapping[1..], i);
          assert !Accepted(pool, mapping, i + 1);
        }
      } else {
        assert !Accepted(pool, mapping, 0);
      }
    }
  }

  /** A key no entry names keeps its place and value in the table. */
  lemma {:induction false} LoadUntouched(table: map<(int, int), string>, pool: Pool, mapping: Dict<string, string>, key: (int, int))
    requires !Names(mapping, key)
    ensures key in Load(table, pool, mapping).table <==> key in table
    ensures key in table ==> Load(table, pool, mapping).table[key] == table[key]
    decreases |mapping|
  {
    if |mapping| > 0 {
      TailOf(mapping);
      var k := ParseKey(mapping[0].0);
      if k.Ok? && Resolves(pool, mapping[0].1) {
        assert k.value != key;
        assert !Names(mapping[1..], key);
        LoadUntouched(table[k.value := mapping[0].1], pool, mapping[1..], key);
      }
    }
  }

  /**
   * After a complete load every entry's key is in the table, and an entry no
   * later entry overrides holds its message name: among keys equal after
   * parsing, the last entry wins.
   */
  lemma {:induction false} LoadLastWins(table: map<(int, int), string>, pool: Pool, mapping: Dict<string, string>, i: nat)
    requires i < |mapping|
    requires Load(table, pool, mapping).error.None?
    ensures ParseKey(mapping[i].0).Ok?
    ensures ParseKey(mapping[i].0).value in Load(table, pool, mapping).table
    ensures !Overridden(mapping, i) ==>
      Load(table, pool, mapping).table[ParseKey(mapping[i].0).value] == mapping[i].1
    decreases |mapping|
  {
    LoadCompletes(table, pool, mapping);
    assert Accepted(pool, mapping, 0);
    var k := ParseKey(mapping[0].0);
    var next := table[k.value := mapping[0].1];
    LoadStep(table, pool, mapping);
    if i > 0 {
      assert mapping[1..][i - 1] == mapping[i];
      LoadLastWins(next, pool, mapping[1..], i - 1);
      if !Overridden(mapping, i) {
        assert !Overridden(mapping[1..], i - 1) by {
          forall j | i - 1 < j < |mapping| - 1
            ensures ParseKey(mapping[1..][j].0) != ParseKey(mapping[i].0)
          {
            assert mapping[1..][j] == mapping[j + 1];
          }
        }
      }
    } else if Overridden(mapping, 0) {
      var j :| 0 < j < |mapping| && ParseKey(mapping[j].0) == k;
      assert mapping[1..][j - 1] == mapping[j];
      LoadLastWins(next, pool, mapping[1..], j - 1);
    } else {
      assert !Names(mapping[1..], k.value) by {
        forall j | 0 <= j < |mapping| - 1 ensures ParseKey(mapping[1..][j].0) != k {
          assert mapping[1..][j] == mapping[j + 1];
        }
      }
      LoadUntouched(next, pool, mapping[1..], k.value);
    }
  }

  /**
   * A load stopped by entry `i` keeps the registrations of the entries before
   * it and reports entry `i`'s error.
   */
  lemma {:induction false} LoadStopsAt(table: map<(int, int), string>, pool: Pool, mapping: Dict<string, string>, i: nat)
    requires i < |mapping| && !Accepted(pool, mapping, i)
    requires forall k | 0 <= k < i :: Accepted(pool, mapping, k)
    ensures Load(table, pool, mapping).table == Load(table, pool, mapping[..i]).table
    ensures Load(table, pool, mapping).error ==
      if ParseKey(mapping[i].0).Err? then Some(ParseKey(mapping[i].0).error)
      else Some(Registering(Registration(pool, mapping[i].1).error))
    decreases i
  {
    if i > 0 {
      assert Accepted(pool, mapping, 0);
      var k := ParseKey(mapping[0].0);
      var next := table[k.value := mapping[0].1];
      LoadStep(table, pool, mapping);
      LoadPrefixStep(table, pool, mapping, i);
      AcceptedTail(pool, mapping, i);
      assert mapping[1..][i - 1] == mapping[i];
      assert !Accepted(pool, mapping[1..], i - 1);
      LoadStopsAt(next, pool, mapping[1..], i - 1);
    } else {
      assert mapping[..0] == [];
      assert Load(table, pool, mapping[..0]) == Loaded(table, None);
    }
  }

  /** Entries accepted before `i` stay accepted, one place earlier, in the tail. */
  lemma AcceptedTail(pool: Pool, mapping: Dict<string, string>, i: nat)
    requires 0 < i <= |mapping|
    requires forall k | 0 <= k < i :: Accepted(pool, mapping, k)
    ensures forall j | 0 <= j < i - 1 :: Accepted(pool, mapping[1..], j)
  {
    forall j | 0 <= j < i - 1 ensures Accepted(pool, mapping[1..], j) {
      assert mapping[1..][j] == mapping[j + 1];
      assert Accepted(pool, mapping, j + 1);
    }
  }

  /** Without a bound pool nothing can be registered: the first key that parses fails. */
  lemma NothingWithoutPool(table: map<(int, int), string>, mapping: Dict<string, string>)
    requires |mapping| > 0
    ensures Load(table, NoPool, mapping) ==
      if ParseKey(mapping[0].0).Err? then Loaded(table, Some(ParseKey(mapping[0].0).error))
      else Loaded(table, Some(Registering(PoolNotBound)))
  {
  }

  /** `register_dispatch_from_json`: loads the outer table and nothing else. */
  method RegisterDispatchFromJson(codec: Codec, mapping: Dict<string, string>) returns (r: Option<LoadError>)
    modifies codec
    ensures r == Load(old(codec.dispatch), old(codec.pool), mapping).error
    ensures codec.State() == old(codec.State()).(dispatch := Load(old(codec.dispatch), old(codec.pool), mapping).table)
  {
    var i := 0;
    while i < |mapping|
      invariant 0 <= i <= |mapping|
      invariant codec.State() == old(codec.State()).(dispatch := codec.dispatch)
      invariant Load(codec.dispatch, codec.pool, mapping[i..]) == Load(old(codec.dispatch), old(codec.pool), mapping)
    {
      assert mapping[i..][1..] == mapping[i + 1..];
      var key := ParseKey(mapping[i].0);
      if key.Err? {
        return Some(key.error);
      }
      var reg := codec.RegisterDispatch(key.value.0, key.value.1, mapping[i].1);
      if reg.Err? {
        return Some(Registering(reg.error));
      }
      i := i + 1;
    }
    return None;
  }

  /** `register_cmd_dispatch_from_json`: loads the inner table and nothing else. */
  method RegisterCmdDispatchFromJson(codec: Codec, mapping: Dict<string, string>) returns (r: Option<LoadError>)
    modifies codec
    ensures r == Load(old(codec.dispatchCmd), old(codec.pool), mapping).error
    ensures codec.State() == old(codec.State()).(dispatchCmd := Load(old(codec.dispatchCmd), old(codec.pool), mapping).table)
  {
    var i := 0;
    while i < |mapping|
      invariant 0 <= i <= |mapping|
      invariant codec.State() == old(codec.State()).(dispatchCmd := codec.dispatchCmd)
      invariant Load(codec.dispatchCmd, codec.pool, mapping[i..]) == Load(old(codec.dispatchCmd), old(codec.pool), mapping)
    {
      assert mapping[i..][1..] == mapping[i + 1..];
      var key := ParseKey(mapping[i].0);
      if key.Err? {
        return Some(key.error);
      }
      var reg := codec.RegisterCmdDispatch(key.value.0, key.value.1, mapping[i].1);
      if reg.Err? {
        return Some(Registering(reg.error));
      }
      i := i + 1;
    }
    return None;
  }
}
