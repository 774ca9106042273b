/**
 * The device registry (`devices/registry.py`): profiles filed by name in
 * insertion order, and the lookup of the profile that lists a product code.
 */
module Registry {
  import opened Wrappers
  import opened Dicts
  import opened Envelope

  /** What the integration knows about one device model. */
  datatype DeviceProfile = DeviceProfile(productCodes: seq<string>, family: Family, profileModule: string)

  /** The River 3 Plus profile that `register_defaults` files. */
  function River3PlusProfile(): DeviceProfile
  {
    DeviceProfile(["R3P", "RIVER_3_PLUS"], FamilyV3, ".internal.river_3_plus")
  }

  const River3PlusName := "RIVER_3_PLUS"

  /**
   * The first profile, in filing order, whose product codes include `code`;
   * `None` exactly when no profile lists it.
   */
  function FindIn(profiles: Dict<string, DeviceProfile>, code: string): (r: Option<DeviceProfile>)
    ensures r.None? <==> forall i | 0 <= i < |profiles| :: code !in profiles[i].1.productCodes
    ensures r.Some? ==> exists i | 0 <= i < |profiles| ::
      profiles[i].1 == r.value && code in r.value.productCodes &&
      forall j | 0 <= j < i :: code !in profiles[j].1.productCodes
    decreases |profiles|
  {
    if |profiles| == 0 then None
    else if code in profiles[0].1.productCodes then Some(profiles[0].1)
    else
      var r := FindIn(profiles[1..], code);
      assert forall i | 1 <= i < |profiles| :: profiles[i] == profiles[1..][i - 1];
      if r.Some? then
        var i :| 0 <= i < |profiles[1..]| && profiles[1..][i].1 == r.value && code in r.value.productCodes &&
          forall j | 0 <= j < i :: code !in profiles[1..][j].1.productCodes;
        assert profiles[i + 1].1 == r.value;
        r
      else r
  }

  class Registry {
    var profiles: Dict<string, DeviceProfile>

    /** `_REGISTRY = {}` */
    constructor ()
      ensures profiles == []
    {
      profiles := [];
    }

    /** `register_defaults()`: files the River 3 Plus profile under its name, replacing any earlier one. */
    method RegisterDefaults()
      modifies this
      ensures profiles == Put(old(profiles), River3PlusName, River3PlusProfile())
    {
      profiles := Put(profiles, River3PlusName, River3PlusProfile());
    }

    /** `find_profile_by_product(product_code)`: the profiles are scanned in filing order. */
    method FindProfileByProduct(code: string) returns (r: Option<DeviceProfile>)
      ensures r == FindIn(profiles, code)
    {
      var i := 0;
      while i < |profiles|
        invariant 0 <= i <= |profiles|
        invariant FindIn(profiles[i..], code) == FindIn(profiles, code)
      {
        assert profiles[i..][1..] == profiles[i + 1..];
        if code in profiles[i].1.productCodes {
          return Some(profiles[i].1);
        }
        i := i + 1;
      }
      return None;
    }
  }

  /** Registering the defaults a second time changes nothing. */
  lemma RegisterDefaultsIdempotent(profiles: Dict<string, DeviceProfile>)
    ensures var once := Put(profiles, River3PlusName, River3PlusProfile());
      Put(once, River3PlusName, River3PlusProfile()) == once
  {
    PutExisting(Put(profiles, River3PlusName, River3PlusProfile()), River3PlusName, River3PlusProfile());
  }

  /**
   * Once the defaults are registered in an empty registry, both River 3 Plus
   * codes find the v3 profile and a code nobody lists finds nothing.
   */
  lemma DefaultsFind(code: string)
    ensures var profiles := Put([], River3PlusName, River3PlusProfile());
      FindIn(profiles, "R3P") == Some(River3PlusProfile()) &&
      FindIn(profiles, "RIVER_3_PLUS") == Some(River3PlusProfile()) &&
      FindIn(profiles, "R3P").value.family == FamilyV3 &&
      (code != "R3P" && code != "RIVER_3_PLUS" ==> FindIn(profiles, code).None?)
  {
    var profiles := Put([], River3PlusName, River3PlusProfile());
    assert profiles == [(River3PlusName, River3PlusProfile())];
    assert profiles[1..] == [];
    assert "R3P" in River3PlusProfile().productCodes;
    assert "RIVER_3_PLUS" in River3PlusProfile().productCodes;
  }

  /**
   * An earlier profile that lists a code shadows every later one: filing a
   * profile under a new name never changes what an already-listed code finds.
   */
  lemma {:induction false} FindKeepsEarlier(profiles: Dict<string, DeviceProfile>, name: string, p: DeviceProfile, code: string)
    requires !HasKey(profiles, name) && FindIn(profiles, code).Some?
    ensures FindIn(Put(profiles, name, p), code) == FindIn(profiles, code)
    decreases |profiles|
  {
    var r := Put(profiles, name, p);
    assert r == profiles + [(name, p)];
    if code !in profiles[0].1.productCodes {
      assert r[1..] == profiles[1..] + [(name, p)];
      assert !HasKey(profiles[1..], name) by {
        assert Get(profiles, name) == Get(profiles[1..], name);
      }
      FindKeepsEarlier(profiles[1..], name, p, code);
      assert Put(profiles[1..], name, p) == profiles[1..] + [(name, p)];
    }
  }
}
