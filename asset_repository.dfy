/** The asset store: a hash map from asset id to asset object, kept in
    memory (the file it is saved to is not part of this model). */
module AssetRepository {
  import opened Wrappers
  import opened Numerics
  import opened Ids
  import opened Assets
  import opened Valuation

  class AssetFileRepository {
    var assets: map<Uuid, Asset>

    /** A repository whose file is missing or empty. */
    constructor ()
      ensures assets == map[]
    {
      assets := map[];
    }

    /** The records of the stored assets, by key. */
    ghost function Snapshot(): (m: map<Uuid, AssetRecord>)
      reads this, assets.Values
      ensures m.Keys == assets.Keys
    {
      map k | k in assets :: assets[k].Record()
    }

    /** `addAsset`: refuses null and an id already present; otherwise stores
        the asset under its own id. */
    method AddAsset(asset: Asset?) returns (ok: bool)
      modifies this
      ensures ok <==> asset != null && asset.id !in old(assets)
      ensures assets == if ok then old(assets)[asset.id := asset] else old(assets)
    {
      if asset == null || asset.id in assets {
        return false;
      }
      assets := assets[asset.id := asset];
      return true;
    }

    /** `removeAsset`: true exactly when something was stored under the id. */
    method RemoveAsset(assetId: Option<Uuid>) returns (ok: bool)
      modifies this
      ensures ok <==> assetId.Some? && assetId.value in old(assets)
      ensures assets == if ok then old(assets) - {assetId.value} else old(assets)
    {
      if assetId.None? || assetId.value !in assets {
        return false;
      }
      assets := assets - {assetId.value};
      return true;
    }

    /** `updateAsset`: stores the new object under an id already present,
        whatever the new object's own id is. */
    method UpdateAsset(assetId: Option<Uuid>, newAsset: Asset?) returns (ok: bool)
      modifies this
      ensures ok <==> assetId.Some? && newAsset != null && assetId.value in old(assets)
      ensures assets == if ok then old(assets)[assetId.value := newAsset] else old(assets)
    {
      if assetId.None? || newAsset == null || assetId.value !in assets {
        return false;
      }
      assets := assets[assetId.value := newAsset];
      return true;
    }

    /** `updateCurrentValue`: sets the current value of the stored object.
        Every key under which that same object is stored sees the change. */
    method UpdateCurrentValue(assetId: Option<Uuid>, newValue: Option<real>) returns (ok: bool)
      modifies assets.Values
      ensures ok <==> assetId.Some? && newValue.Some? && assetId.value in assets
      ensures ok ==> assets[assetId.value].Record() == old(assets[assetId.value].Record()).(currentValue := newValue)
      ensures forall a :: a in assets.Values && (!ok || a != assets[assetId.value]) ==> a.Record() == old(a.Record())
    {
      if assetId.None? || newValue.None? || assetId.value !in assets {
        return false;
      }
      var asset := assets[assetId.value];
      asset.SetCurrentValue(newValue);
      return true;
    }

    /** `getAssetById`: the stored object, or null. */
    function GetAssetById(assetId: Option<Uuid>): (a: Asset?)
      reads this
      ensures a != null <==> assetId.Some? && assetId.value in assets
      ensures a != null ==> a == assets[assetId.value]
    {
      if assetId.Some? && assetId.value in assets then assets[assetId.value] else null
    }

    /** `getUserAssets`: the stored assets whose owner is the user, in the
        map's iteration order (any order), each listed once per key. `ks`
        are the keys they were found under. */
    method GetUserAssets(userId: Option<Uuid>) returns (r: seq<Asset>, ghost ks: seq<Uuid>)
      ensures |r| == |ks| && Distinct(ks) && KeySet(ks) == Owned(Snapshot(), userId)
      ensures forall i :: 0 <= i < |ks| ==> ks[i] in assets && r[i] == assets[ks[i]]
    {
      r, ks := [], [];
      if userId.None? {
        return;
      }
      ghost var owned := Owned(Snapshot(), userId);
      var remaining := assets.Keys;
      while remaining != {}
        invariant remaining <= assets.Keys
        invariant |r| == |ks| && Distinct(ks)
        invariant forall i :: 0 <= i < |ks| ==> ks[i] in assets && ks[i] !in remaining && r[i] == assets[ks[i]]
        invariant KeySet(ks) == owned - remaining
        decreases remaining
      {
        var k :| k in remaining;
        assert k in owned <==> assets[k].userId == userId;
        if assets[k].userId == userId {
          DistinctAppend(ks, k);
          r, ks := r + [assets[k]], ks + [k];
        }
        remaining := remaining - {k};
      }
    }

    /** `calculateNetWorth`: the unconverted sum of the user's current
        values; a null value is a NullPointerException. */
    method CalculateNetWorth(userId: Option<Uuid>) returns (r: Result<real, Exception>)
      ensures r == NetWorth(Snapshot(), Owned(Snapshot(), userId))
    {
      var list, ks := GetUserAssets(userId);
      ghost var m := Snapshot();
      var total := 0.0;
      var i := 0;
      while i < |list|
        invariant i <= |list|
        invariant KeySet(ks[..i]) <= m.Keys
        invariant forall j :: 0 <= j < i ==> m[ks[j]].currentValue.Some?
        invariant total == SumOver(KeySet(ks[..i]), m, CurrentValue)
      {
        var value := list[i].currentValue;
        if value.None? {
          assert m[ks[i]].currentValue.None?;
          return Err(NullPointer);
        }
        SumOverStep(ks, i, m, CurrentValue);
        total := total + value.value;
        i := i + 1;
      }
      assert ks[..i] == ks;
      return Ok(total);
    }
  
    /** `getUserAssetDistribution`: the net worth first (so a null value is
        a NullPointerException), then per asset its value divided by the
        total, rounded to four places and scaled to percent, added to the
        entry of its category; a zero total with assets present divides by
        zero. */
    method GetUserAssetDistribution(userId: Option<Uuid>) returns (r: Result<map<Option<AssetType>, real>, Exception>)
      ensures r == Distribution(Snapshot(), Owned(Snapshot(), userId))
    {
      var list, ks := GetUserAssets(userId);
      ghost var m := Snapshot();
      ghost var owned := Owned(m, userId);
      var netWorth := CalculateNetWorth(userId);
      if netWorth.Err? {
        return Err(netWorth.error);
      }
      var total := netWorth.value;
      assert !HasNullValue(m, owned) && total == SumOver(owned, m, CurrentValue);
      forall j | 0 <= j < |ks|
        ensures m[ks[j]] == list[j].Record() && m[ks[j]].currentValue.Some?
      {
        assert ks[j] in owned;
      }
      r := SharesOf(list, ks, m, total);
    }

    /** The loop of `getUserAssetDistribution` over the user's assets,
        listed under the distinct keys `ks` of the snapshot `m`, each with a
        value. */
    static method SharesOf(list: seq<Asset>, ghost ks: seq<Uuid>, ghost m: map<Uuid, AssetRecord>, total: real)
      returns (r: Result<map<Option<AssetType>, real>, Exception>)
      requires |list| == |ks| && Distinct(ks) && KeySet(ks) <= m.Keys
      requires forall j :: 0 <= j < |ks| ==> m[ks[j]] == list[j].Record() && m[ks[j]].currentValue.Some?
      ensures r == if KeySet(ks) != {} && total == 0.0 then Err(Arithmetic) else Ok(Shares(m, KeySet(ks), total))
    {
      var dist: map<Option<AssetType>, real> := map[];
      var i := 0;
      assert KeySet(ks[..0]) == {};
      assert Shares(m, {}, total) == map[] by {
        assert TypesOf(m, {}) == {};
      }
      while i < |list|
        invariant i <= |list|
        invariant KeySet(ks[..i]) <= KeySet(ks)
        invariant dist == Shares(m, KeySet(ks[..i]), total)
        invariant i > 0 ==> total != 0.0
      {
        if total == 0.0 {
          assert ks[0] in KeySet(ks);
          return Err(Arithmetic);
        }
        var asset := list[i];
        var share := Percentage(asset.currentValue.value, total);
        KeySetStep(ks, i);
        SharesAdd(KeySet(ks[..i]), m, total, ks[i]);
        dist := AddShare(dist, asset.assetType, share);
        i := i + 1;
      }
      assert ks[..i] == ks;
      assert i == 0 ==> KeySet(ks) == {};
      return Ok(dist);
    }
  }
}
