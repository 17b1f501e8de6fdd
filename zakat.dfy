/** Zakat: the nisab thresholds from metal prices, the levy on a selection
    of assets, and the hawl (one lunar year of holding) of an asset. */
module Zakat {
  import opened Wrappers
  import opened Ids
  import opened Assets
  import opened AssetRepository
  import opened AssetServices

  /** Grams of gold and of silver whose value is the nisab. */
  const GoldNisabWeight: real := 87.48
  const SilverNisabWeight: real := 612.36

  /** The levy: 2.5 per cent. */
  const ZakatRate: real := 0.025

  /** Days in the lunar year after which an asset's hawl completes. */
  const HawlDays: int := 354

  /** `getGoldNisab`: the price of a gram of gold times the nisab weight. */
  function GoldNisab(goldPricePerGram: real): (n: real)
    ensures goldPricePerGram >= 0.0 ==> n >= 0.0
  {
    goldPricePerGram * GoldNisabWeight
  }

  /** `getSilverNisab`: the price of a gram of silver times the nisab weight. */
  function SilverNisab(silverPricePerGram: real): (n: real)
    ensures silverPricePerGram >= 0.0 ==> n >= 0.0
  {
    silverPricePerGram * SilverNisabWeight
  }

  /** At 4780 per gram of gold and 52.22 per gram of silver the two nisab
      values are 418154.4 and 31977.4392. */
  lemma NisabExamples()
    ensures GoldNisab(4780.0) == 418154.4
    ensures SilverNisab(52.22) == 31977.4392
  {
  }

  /** A dearer metal never lowers the nisab, and so never raises the levy
      on a total that is not negative. */
  lemma NisabMonotonic(p1: real, p2: real, total: real)
    requires 0.0 <= p1 <= p2 && total >= 0.0
    ensures GoldNisab(p1) <= GoldNisab(p2) && SilverNisab(p1) <= SilverNisab(p2)
    ensures ZakatOn(GoldNisab(p2), total) <= ZakatOn(GoldNisab(p1), total)
    ensures ZakatOn(SilverNisab(p2), total) <= ZakatOn(SilverNisab(p1), total)
  {
  }

  /** The levy on a total: 2.5% of it when it reaches the nisab (the
      threshold itself included), nothing below it. */
  function ZakatOn(nisab: real, total: real): real {
    if total >= nisab then total * ZakatRate else 0.0
  }

  /** `calculateZakat`: the stream reduce of the selected assets' current
      values, where a null asset or a null value is a NullPointerException,
      then the levy on that total. */
  function CalculateZakat(nisab: real, selectedAssets: seq<Option<AssetRecord>>): (r: Result<real, Exception>)
    ensures r.Err? <==> exists a :: a in selectedAssets && (a.None? || a.value.currentValue.None?)
    ensures r.Err? ==> r.error == NullPointer
    ensures r.Ok? ==> r.value == ZakatOn(nisab, SumValues(selectedAssets))
  {
    if exists a :: a in selectedAssets && (a.None? || a.value.currentValue.None?) then Err(NullPointer)
    else Ok(ZakatOn(nisab, SumValues(selectedAssets)))
  }

  /** The levy is either nothing or exactly 2.5% of the total, so it never
      exceeds a total that is not negative. */
  lemma ZakatIsZeroOrRate(nisab: real, total: real)
    ensures ZakatOn(nisab, total) == 0.0 || ZakatOn(nisab, total) == total * ZakatRate
    ensures total >= 0.0 ==> 0.0 <= ZakatOn(nisab, total) <= total
  {
  }

  /** A total exactly at the nisab owes the levy; a total below it owes none. */
  lemma ZakatBoundary(nisab: real)
    ensures ZakatOn(nisab, nisab) == nisab * ZakatRate
    ensures forall total :: total < nisab ==> ZakatOn(nisab, total) == 0.0
  {
  }

  /** No selected assets: no levy, whatever the nisab, a zero or negative
      one included. */
  lemma ZakatOfNothing(nisab: real)
    ensures CalculateZakat(nisab, []) == Ok(0.0)
  {
  }

  /** With a nisab that is not negative, a larger total never owes less. */
  lemma ZakatMonotonic(nisab: real, t1: real, t2: real)
    requires nisab >= 0.0 && t1 <= t2
    ensures ZakatOn(nisab, t1) <= ZakatOn(nisab, t2)
  {
  }

  /** Replacing one entry of a list changes its valuation by the change in
      that entry's value. */
  lemma {:induction false} SumValuesUpdate(s: seq<Option<AssetRecord>>, i: nat, a: Option<AssetRecord>)
    requires i < |s|
    ensures SumValues(s[i := a]) == SumValues(s) - EntryValue(s[i]) + EntryValue(a)
    decreases |s|
  {
    var n := |s| - 1;
    if i < n {
      assert s[i := a][..n] == s[..n][i := a];
      SumValuesUpdate(s[..n], i, a);
    } else {
      assert s[i := a][..n] == s[..n];
    }
  }

  /** Raising the current value of one selected asset never lowers the levy
      (with a nisab that is not negative). */
  lemma ZakatMonotonicInValue(nisab: real, s: seq<Option<AssetRecord>>, i: nat, v: real)
    requires nisab >= 0.0 && i < |s| && s[i].Some? && s[i].value.currentValue.Some?
    requires s[i].value.currentValue.value <= v
    requires CalculateZakat(nisab, s).Ok?
    ensures var raised := s[i := Some(s[i].value.(currentValue := Some(v)))];
            CalculateZakat(nisab, raised).Ok? && CalculateZakat(nisab, s).value <= CalculateZakat(nisab, raised).value
  {
    var raised := s[i := Some(s[i].value.(currentValue := Some(v)))];
    SumValuesUpdate(s, i, raised[i]);
    forall a | a in raised
      ensures a.Some? && a.value.currentValue.Some?
    {
      var j :| 0 <= j < |raised| && raised[j] == a;
      if j != i {
        assert s[j] in s;
      }
    }
    ZakatMonotonic(nisab, SumValues(s), SumValues(raised));
  }

  /** The date on which a holding bought at `purchaseDate` completes its hawl:
      354 days later. */
  function HawlDate(purchaseDate: Millis): (h: Millis)
    ensures h > purchaseDate
    ensures (h - purchaseDate) % MillisPerDay == 0 && (h - purchaseDate) / MillisPerDay == 354
    ensures HawlPassed(h, purchaseDate + 354 * MillisPerDay) && !HawlPassed(h, purchaseDate + 353 * MillisPerDay)
  {
    purchaseDate + HawlDays * MillisPerDay
  }

  /** `Date.before(now) || Date.equals(now)`. */
  predicate HawlPassed(hawlDate: Millis, now: Millis) {
    hawlDate < now || hawlDate == now
  }

  /** Bought exactly 354 days before now: the hawl has passed; bought 353
      days before: it has not. */
  lemma HawlBoundary(now: Millis)
    ensures HawlPassed(HawlDate(now - 354 * MillisPerDay), now)
    ensures !HawlPassed(HawlDate(now - 353 * MillisPerDay), now)
  {
  }

  /** Once passed, the hawl stays passed as time goes on. */
  lemma HawlStaysPassed(hawlDate: Millis, now: Millis, later: Millis)
    requires HawlPassed(hawlDate, now) && now <= later
    ensures HawlPassed(hawlDate, later)
  {
  }

  class ZakatAndComplianceService {
    const assetRepo: AssetFileRepository?

    /** The repository is not checked for null. */
    constructor (assetRepo: AssetFileRepository?)
      ensures this.assetRepo == assetRepo
    {
      this.assetRepo := assetRepo;
    }

    /** `getHawlDate`: a missing repository, an unknown id (the lookup
        yields null) or a missing purchase date is a NullPointerException. */
    function GetHawlDate(assetId: Option<Uuid>): (r: Result<Millis, Exception>)
      reads this, assetRepo
      reads if assetRepo != null then assetRepo.assets.Values else {}
      ensures r.Err? <==> assetRepo == null || assetRepo.GetAssetById(assetId) == null ||
                           assetRepo.GetAssetById(assetId).purchaseDate.None?
      ensures r.Err? ==> r.error == NullPointer
      ensures r.Ok? ==> r.value == HawlDate(assetRepo.GetAssetById(assetId).purchaseDate.value)
    {
      if assetRepo == null then Err(NullPointer)
      else
        var asset := assetRepo.GetAssetById(assetId);
        if asset == null || asset.purchaseDate.None? then Err(NullPointer)
        else Ok(HawlDate(asset.purchaseDate.value))
    }

    /** `hasHawlPassed`, the clock's reading passed in as `now`. */
    function HasHawlPassed(assetId: Option<Uuid>, now: Millis): (r: Result<bool, Exception>)
      reads this, assetRepo
      reads if assetRepo != null then assetRepo.assets.Values else {}
      ensures r.Err? <==> GetHawlDate(assetId).Err?
      ensures r.Ok? ==> (r.value <==> GetHawlDate(assetId).value <= now)
    {
      match GetHawlDate(assetId)
      case Err(e) => Err(e)
      case Ok(hawlDate) => Ok(HawlPassed(hawlDate, now))
    }
  }
}
