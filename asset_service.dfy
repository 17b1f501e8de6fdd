/** The asset service: null guards in front of the asset repository, the
    copy-over update, and the valuation, performance and net-worth-in-base
    calculations. */
module AssetServices {
  import opened Wrappers
  import opened Numerics
  import opened Ids
  import opened Text
  import opened Assets
  import opened Currency
  import opened Valuation
  import opened AssetRepository

  /** What one list entry adds to a valuation: its current value, or nothing
      when the entry or its value is null. */
  function EntryValue(a: Option<AssetRecord>): real {
    if a.Some? && a.value.currentValue.Some? then a.value.currentValue.value else 0.0
  }

  /** The sum of the entries' values, from the first to the last. */
  function SumValues(s: seq<Option<AssetRecord>>): real {
    if s == [] then 0.0 else SumValues(s[..|s| - 1]) + EntryValue(s[|s| - 1])
  }

  /** `calculateValuation`: the raw sum of the non-null current values of
      the non-null assets; 0 for a null or empty list. */
  function CalculateValuation(assets: Option<seq<Option<AssetRecord>>>): (r: real)
    ensures assets.None? || assets.value == [] ==> r == 0.0
    ensures assets.Some? && (forall a :: a in assets.value ==> EntryValue(a) >= 0.0) ==> r >= 0.0
  {
    if assets.None? || assets.value == [] then 0.0
    else
      SumValuesNonNegative(assets.value);
      SumValues(assets.value)
  }

  lemma {:induction false} SumValuesNonNegative(s: seq<Option<AssetRecord>>)
    ensures (forall a :: a in s ==> EntryValue(a) >= 0.0) ==> SumValues(s) >= 0.0
  {
    if s != [] {
      assert forall a :: a in s[..|s| - 1] ==> a in s;
      SumValuesNonNegative(s[..|s| - 1]);
    }
  }

  /** The valuation of two lists one after the other is the sum of their
      valuations. */
  lemma {:induction false} SumValuesAppend(s: seq<Option<AssetRecord>>, t: seq<Option<AssetRecord>>)
    ensures SumValues(s + t) == SumValues(s) + SumValues(t)
    decreases |t|
  {
    if t == [] {
      assert s + t == s;
    } else {
      assert (s + t)[..|s + t| - 1] == s + t[..|t| - 1];
      SumValuesAppend(s, t[..|t| - 1]);
    }
  }

  /** Null entries and entries without a value add nothing. */
  lemma SkipsNulls(s: seq<Option<AssetRecord>>, a: Option<AssetRecord>)
    requires a.None? || a.value.currentValue.None?
    ensures SumValues(s + [a]) == SumValues(s) && SumValues([a] + s) == SumValues(s)
  {
    SumValuesAppend(s, [a]);
    SumValuesAppend([a], s);
    assert SumValues([a]) == SumValues([]) + EntryValue(a);
  }

  /** The records of the assets listed under distinct keys of a snapshot. */
  function Listed(ks: seq<Uuid>, m: map<Uuid, AssetRecord>): (s: seq<Option<AssetRecord>>)
    requires KeySet(ks) <= m.Keys
    ensures |s| == |ks| && forall i :: 0 <= i < |ks| ==> s[i] == Some(m[ks[i]])
  {
    seq(|ks|, i requires 0 <= i < |ks| => Some(m[ks[i]]))
  }

  /** The valuation of a user's asset list, in whatever order the repository
      listed it, is the repository's net worth of that user's assets when
      none of them lacks a value. */
  lemma {:induction false} ValuationOfListed(ks: seq<Uuid>, m: map<Uuid, AssetRecord>)
    requires Distinct(ks) && KeySet(ks) <= m.Keys
    ensures SumValues(Listed(ks, m)) == SumOver(KeySet(ks), m, CurrentValue)
    decreases |ks|
  {
    if ks == [] {
      assert KeySet(ks) == {};
    } else {
      var n := |ks| - 1;
      var front, s := ks[..n], Listed(ks, m);
      assert Distinct(front) && KeySet(front) <= m.Keys;
      assert s[..n] == Listed(front, m);
      assert SumValues(s) == SumValues(s[..n]) + Eval(CurrentValue, m[ks[n]]);
      ValuationOfListed(front, m);
      SumOverStep(ks, n, m, CurrentValue);
      assert ks[..n + 1] == ks;
    }
  }

  /** `calculatePerformance` on a non-null list: each non-null asset's id
      mapped to its return on investment, the first asset winning when two
      share an id. */
  function PerformanceOf(s: seq<Option<AssetRecord>>): (r: map<Uuid, real>)
    ensures r.Keys == set a | a in s && a.Some? :: a.value.id
  {
    if s == [] then map[]
    else
      var rest := PerformanceOf(s[1..]);
      assert forall a :: a in s <==> a == s[0] || a in s[1..];
      if s[0].Some? then rest[s[0].value.id := Roi(s[0].value.purchasePrice, s[0].value.currentValue)]
      else rest
  }

  /** `calculatePerformance`: an empty map for a null or empty list. */
  function CalculatePerformance(assets: Option<seq<Option<AssetRecord>>>): (r: map<Uuid, real>)
    ensures assets.None? ==> r == map[]
    ensures assets.Some? ==> r.Keys == set a | a in assets.value && a.Some? :: a.value.id
  {
    if assets.None? || assets.value == [] then map[] else PerformanceOf(assets.value)
  }

  /** The entry for an id is the return of the first asset in the list with
      that id. */
  lemma {:induction false} PerformanceFirstWins(s: seq<Option<AssetRecord>>, i: nat)
    requires i < |s| && s[i].Some?
    requires forall j :: 0 <= j < i ==> s[j].None? || s[j].value.id != s[i].value.id
    ensures s[i].value.id in PerformanceOf(s)
    ensures PerformanceOf(s)[s[i].value.id] == Roi(s[i].value.purchasePrice, s[i].value.currentValue)
  {
    if i > 0 {
      PerformanceFirstWins(s[1..], i - 1);
    }
  }

  class AssetService {
    const repo: AssetFileRepository

    constructor (repo: AssetFileRepository)
      ensures this.repo == repo
    {
      this.repo := repo;
    }

    /** `new AssetService(repo)`: a null repository is an
        IllegalArgumentException. */
    static method Create(repo: AssetFileRepository?) returns (r: Result<AssetService, Exception>)
      ensures repo == null <==> r == Err(IllegalArgument)
      ensures r.Ok? ==> fresh(r.value) && r.value.repo == repo
    {
      if repo == null {
        return Err(IllegalArgument);
      }
      var service := new AssetService(repo);
      return Ok(service);
    }

    /** `getAssetById`: null for a null id, without asking the repository. */
    function GetAssetById(assetId: Option<Uuid>): (a: Asset?)
      reads repo
      ensures a != null <==> assetId.Some? && assetId.value in repo.assets
      ensures a != null ==> a == repo.assets[assetId.value]
    {
      if assetId.None? then null else repo.GetAssetById(assetId)
    }

    /** `getAssets`: an empty list for a null user. */
    method GetAssets(userId: Option<Uuid>) returns (r: seq<Asset>, ghost ks: seq<Uuid>)
      ensures userId.None? ==> r == []
      ensures |r| == |ks| && Distinct(ks) && KeySet(ks) == Owned(repo.Snapshot(), userId)
      ensures forall i :: 0 <= i < |ks| ==> ks[i] in repo.assets && r[i] == repo.assets[ks[i]]
    {
      if userId.None? {
        return [], [];
      }
      r, ks := repo.GetUserAssets(userId);
    }

    /** `addAsset`: false for null, otherwise the repository's answer. */
    method AddAsset(asset: Asset?) returns (ok: bool)
      modifies repo
      ensures ok <==> asset != null && asset.id !in old(repo.assets)
      ensures repo.assets == if ok then old(repo.assets)[asset.id := asset] else old(repo.assets)
    {
      if asset == null {
        return false;
      }
      ok := repo.AddAsset(asset);
    }

    /** `removeAsset`: false for a null id, otherwise the repository's answer. */
    method RemoveAsset(assetId: Option<Uuid>) returns (ok: bool)
      modifies repo
      ensures ok <==> assetId.Some? && assetId.value in old(repo.assets)
      ensures repo.assets == if ok then old(repo.assets) - {assetId.value} else old(repo.assets)
    {
      if assetId.None? {
        return false;
      }
      ok := repo.RemoveAsset(assetId);
    }

    /** `updateAsset`: copies the user, name, type, purchase price, purchase
        date, current value and currency of `newAssetData` onto the stored
        asset, which keeps its id and its zakatable flag, and stores it back
        under the same key. Nothing else changes. */
    method UpdateAsset(assetIdToUpdate: Option<Uuid>, newAssetData: Asset?) returns (ok: bool)
      modifies repo, repo.assets.Values
      ensures ok <==> assetIdToUpdate.Some? && newAssetData != null && assetIdToUpdate.value in old(repo.assets)
      ensures repo.assets == old(repo.assets)
      ensures ok ==> var a := repo.assets[assetIdToUpdate.value];
                     a.Record() == old(newAssetData.Record()).(id := a.id, zakatable := old(a.zakatable))
      ensures forall a :: a in repo.assets.Values && (!ok || a != repo.assets[assetIdToUpdate.value]) ==>
                a.Record() == old(a.Record())
    {
      if assetIdToUpdate.None? || newAssetData == null {
        return false;
      }
      var target := repo.GetAssetById(assetIdToUpdate);
      if target == null {
        return false;
      }
      target.SetUserId(newAssetData.userId);
      target.SetName(newAssetData.name);
      target.SetType(newAssetData.assetType);
      target.SetPurchasePrice(newAssetData.purchasePrice);
      target.SetPurchaseDate(newAssetData.purchaseDate);
      target.SetCurrentValue(newAssetData.currentValue);
      target.SetCurrency(newAssetData.currency);
      ok := repo.UpdateAsset(assetIdToUpdate, target);
    }

    /** `updateAssetCurrentValue`: false for a null id or value, otherwise
        the repository's answer. */
    method UpdateAssetCurrentValue(assetId: Option<Uuid>, newValue: Option<real>) returns (ok: bool)
      modifies repo.assets.Values
      ensures ok <==> assetId.Some? && newValue.Some? && assetId.value in repo.assets
      ensures ok ==> repo.assets[assetId.value].Record() == old(repo.assets[assetId.value].Record()).(currentValue := newValue)
      ensures forall a :: a in repo.assets.Values && (!ok || a != repo.assets[assetId.value]) ==> a.Record() == old(a.Record())
    {
      if assetId.None? || newValue.None? {
        return false;
      }
      ok := repo.UpdateCurrentValue(assetId, newValue);
    }

    /** `calculateUserNetWorth`: 0 for a null user, otherwise the
        repository's unconverted sum. */
    method CalculateUserNetWorth(userId: Option<Uuid>) returns (r: Result<real, Exception>)
      ensures userId.None? ==> r == Ok(0.0)
      ensures r == NetWorth(repo.Snapshot(), Owned(repo.Snapshot(), userId))
    {
      if userId.None? {
        NoAssets(repo.Snapshot(), "", map[]);
        return Ok(0.0);
      }
      r := repo.CalculateNetWorth(userId);
    }

    /** `calculateUserNetWorthInBase`: 0 for a null user or a null or blank
        base code; otherwise, over the user's assets, the sum of what each
        adds in the base currency (see ValueInBase), the table being the
        shared conversion table. An ArithmeticException escapes. */
    method CalculateUserNetWorthInBase(userId: Option<Uuid>, baseCurrencyCode: Option<string>, conv: CurrencyConversion)
      returns (r: Result<real, Exception>)
      ensures userId.None? || baseCurrencyCode.None? || Trim(baseCurrencyCode.value) == [] ==> r == Ok(0.0)
      ensures userId.Some? && baseCurrencyCode.Some? && Trim(baseCurrencyCode.value) != [] ==>
                r == NetWorthInBase(repo.Snapshot(), Owned(repo.Snapshot(), userId), baseCurrencyCode.value, conv.rates)
    {
      if userId.None? || baseCurrencyCode.None? || Trim(baseCurrencyCode.value) == [] {
        return Ok(0.0);
      }
      r := NetWorthOfUserIn(userId, baseCurrencyCode.value, conv);
    }

    /** The part of `calculateUserNetWorthInBase` past its guards. */
    method NetWorthOfUserIn(userId: Option<Uuid>, base: string, conv: CurrencyConversion)
      returns (r: Result<real, Exception>)
      ensures r == NetWorthInBase(repo.Snapshot(), Owned(repo.Snapshot(), userId), base, conv.rates)
    {
      var list, ks := repo.GetUserAssets(userId);
      ghost var m := repo.Snapshot();
      if |list| == 0 {
        assert Owned(m, userId) == {};
        NoAssets(m, base, conv.rates);
        return Ok(0.0);
      }
      forall j | 0 <= j < |ks|
        ensures m[ks[j]] == list[j].Record()
      {
        assert ks[j] in repo.assets;
      }
      r := SumInBase(list, ks, m, base, conv);
    }

    /** The loop of `calculateUserNetWorthInBase` over the user's assets,
        listed under the distinct keys `ks` of the snapshot `m`. */
    static method SumInBase(list: seq<Asset>, ghost ks: seq<Uuid>, ghost m: map<Uuid, AssetRecord>,
                            base: string, conv: CurrencyConversion)
      returns (r: Result<real, Exception>)
      requires |list| == |ks| && Distinct(ks) && KeySet(ks) <= m.Keys
      requires forall j :: 0 <= j < |ks| ==> m[ks[j]] == list[j].Record()
      ensures r == NetWorthInBase(m, KeySet(ks), base, conv.rates)
    {
      ghost var term := InBase(base, conv.rates);
      var total := 0.0;
      var i := 0;
      assert KeySet(ks[..0]) == {};
      while i < |list|
        invariant i <= |list|
        invariant KeySet(ks[..i]) <= KeySet(ks)
        invariant forall j :: 0 <= j < i ==> ValueInBase(m[ks[j]], base, conv.rates).Ok?
        invariant total == SumOver(KeySet(ks[..i]), m, term)
      {
        var next := AddValueInBase(total, list[i], base, conv);
        if next.Err? {
          NetWorthInBaseFails(m, KeySet(ks), base, conv.rates, ks[i]);
          return Err(next.error);
        }
        RunningTotalStep(ks, i, m, term, total, next.value - total);
        total := next.value;
        i := i + 1;
      }
      assert ks[..i] == ks;
      NetWorthInBaseSucceeds(m, KeySet(ks), base, conv.rates);
      return Ok(total);
    }

    /** The body of the net-worth-in-base loop: an asset with a value and a
        currency adds the value itself when its code equals the base ignoring
        case, else the converted value, 0 when the conversion throws an
        IllegalArgumentException. */
    static method AddValueInBase(total: real, asset: Asset, base: string, conv: CurrencyConversion)
      returns (r: Result<real, Exception>)
      ensures r.Err? <==> ValueInBase(asset.Record(), base, conv.rates).Err?
      ensures r.Err? ==> r == Err(Arithmetic)
      ensures r.Ok? ==> r.value - total == Eval(InBase(base, conv.rates), asset.Record())
    {
      if asset.currentValue.Some? && asset.currency.Some? {
        var code := asset.currency.value;
        var valueInBase: real;
        if EqualsIgnoreCase(code, base) {
          valueInBase := asset.currentValue.value;
        } else {
          var converted := conv.Convert(code, base, asset.currentValue.value);
          if converted.Err? && converted.error != IllegalArgument {
            return Err(converted.error);
          }
          valueInBase := if converted.Ok? then converted.value else 0.0;
        }
        return Ok(total + valueInBase);
      }
      return Ok(total);
    }

    /** `getAssetDistributionForUser`: an empty map for a null user,
        otherwise the repository's distribution. */
    method GetAssetDistributionForUser(userId: Option<Uuid>) returns (r: Result<map<Option<AssetType>, real>, Exception>)
      ensures userId.None? ==> r == Ok(map[])
      ensures r == Distribution(repo.Snapshot(), Owned(repo.Snapshot(), userId))
    {
      if userId.None? {
        NoAssets(repo.Snapshot(), "", map[]);
        return Ok(map[]);
      }
      r := repo.GetUserAssetDistribution(userId);
    }
  }
}
