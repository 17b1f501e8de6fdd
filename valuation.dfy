/** The sums behind net worth, valuation and the asset distribution. A
    repository keeps its assets in a hash map whose iteration order is
    unspecified, so a sum over a user's assets is specified as a sum over a
    SET of keys, which no order can change. */
module Valuation {
  import opened Wrappers
  import opened Numerics
  import opened Ids
  import opened Text
  import opened Assets
  import opened Currency

  /** What one asset adds to a net worth in a base currency: nothing when it
      has no value or no currency, its value unconverted when its currency
      code equals the base ignoring case, and otherwise its value converted
      into the base, where a failed lookup (IllegalArgumentException) counts
      as zero. An ArithmeticException (a zero base rate) is not caught. */
  function ValueInBase(a: AssetRecord, base: string, rates: map<string, real>): (r: Result<real, Exception>)
    ensures a.currentValue.None? || a.currency.None? ==> r == Ok(0.0)
    ensures a.currentValue.Some? && a.currency.Some? ==> r == CodeValueInBase(a.currency.value, base, a.currentValue.value, rates)
  {
    if a.currentValue.None? || a.currency.None? then Ok(0.0)
    else CodeValueInBase(a.currency.value, base, a.currentValue.value, rates)
  }

  /** What a value held in currency `code` adds in the base currency. */
  function CodeValueInBase(code: string, base: string, value: real, rates: map<string, real>): (r: Result<real, Exception>)
    ensures EqualsIgnoreCase(code, base) ==> r == Ok(value)
    ensures r.Err? <==> !EqualsIgnoreCase(code, base) && code in rates && base in rates && rates[base] == 0.0
    ensures r.Err? ==> r.error == Arithmetic
    ensures r.Ok? && !EqualsIgnoreCase(code, base) ==>
              r.value == if code in rates && base in rates then ConvertAt(value, rates[code], rates[base]) else 0.0
  {
    if EqualsIgnoreCase(code, base) then Ok(value)
    else
      match ConvertWith(rates, code, base, value)
      case Ok(v) => Ok(v)
      case Err(IllegalArgument) => Ok(0.0)
      case Err(e) => Err(e)
  }

  /** The quantity an asset contributes to a sum. */
  datatype Term =
    | CurrentValue                                      // its current value, 0 when null
    | InBase(base: string, rates: map<string, real>)    // its value in a base currency
    | TypeShare(t: Option<AssetType>, total: real)      // its percentage of `total`, if of type t

  function Eval(term: Term, a: AssetRecord): real {
    match term
    case CurrentValue => if a.currentValue.Some? then a.currentValue.value else 0.0
    case InBase(base, rates) =>
      var v := ValueInBase(a, base, rates);
      if v.Ok? then v.value else 0.0
    case TypeShare(t, total) =>
      if a.assetType == t && a.currentValue.Some? && total != 0.0 then
        Percentage(a.currentValue.value, total)
      else 0.0
  }

  /** The sum of a term over the assets stored under a set of keys. */
  ghost function SumOver(ks: set<Uuid>, m: map<Uuid, AssetRecord>, term: Term): real
    requires ks <= m.Keys
    decreases ks
  {
    if ks == {} then 0.0
    else
      var k :| k in ks;
      Eval(term, m[k]) + SumOver(ks - {k}, m, term)
  }

  /** Any key can be taken out of the sum first: the sum does not depend on
      the order in which the keys are visited. */
  lemma {:induction false} SumOverRemove(ks: set<Uuid>, m: map<Uuid, AssetRecord>, term: Term, k: Uuid)
    requires k in ks && ks <= m.Keys
    ensures SumOver(ks, m, term) == Eval(term, m[k]) + SumOver(ks - {k}, m, term)
    decreases ks
  {
    var j :| j in ks && SumOver(ks, m, term) == Eval(term, m[j]) + SumOver(ks - {j}, m, term);
    if j != k {
      SumOverRemove(ks - {j}, m, term, k);
      SumOverRemove(ks - {k}, m, term, j);
      assert ks - {j} - {k} == ks - {k} - {j};
    }
  }

  /** A sum over keys each contributing zero is zero. */
  lemma {:induction false} SumOverZero(ks: set<Uuid>, m: map<Uuid, AssetRecord>, term: Term)
    requires ks <= m.Keys
    requires forall k :: k in ks ==> Eval(term, m[k]) == 0.0
    ensures SumOver(ks, m, term) == 0.0
    decreases ks
  {
    if ks != {} {
      var k :| k in ks;
      SumOverRemove(ks, m, term, k);
      SumOverZero(ks - {k}, m, term);
    }
  }

  /** Raising what each asset contributes never lowers the sum. */
  lemma {:induction false} SumOverMonotonic(ks: set<Uuid>, m1: map<Uuid, AssetRecord>, t1: Term,
                                            m2: map<Uuid, AssetRecord>, t2: Term)
    requires ks <= m1.Keys && ks <= m2.Keys
    requires forall k :: k in ks ==> Eval(t1, m1[k]) <= Eval(t2, m2[k])
    ensures SumOver(ks, m1, t1) <= SumOver(ks, m2, t2)
    decreases ks
  {
    if ks != {} {
      var k :| k in ks;
      SumOverRemove(ks, m1, t1, k);
      SumOverRemove(ks, m2, t2, k);
      SumOverMonotonic(ks - {k}, m1, t1, m2, t2);
    }
  }

  /** A sum of contributions none of which is negative is not negative. */
  lemma {:induction false} SumOverNonNegative(ks: set<Uuid>, m: map<Uuid, AssetRecord>, term: Term)
    requires ks <= m.Keys
    requires forall k :: k in ks ==> Eval(term, m[k]) >= 0.0
    ensures SumOver(ks, m, term) >= 0.0
    decreases ks
  {
    if ks != {} {
      var k :| k in ks;
      SumOverRemove(ks, m, term, k);
      SumOverNonNegative(ks - {k}, m, term);
    }
  }

  /** Sums that agree asset by asset are equal. */
  lemma SumOverCongruent(ks: set<Uuid>, m1: map<Uuid, AssetRecord>, t1: Term,
                         m2: map<Uuid, AssetRecord>, t2: Term)
    requires ks <= m1.Keys && ks <= m2.Keys
    requires forall k :: k in ks ==> Eval(t1, m1[k]) == Eval(t2, m2[k])
    ensures SumOver(ks, m1, t1) == SumOver(ks, m2, t2)
  {
    SumOverMonotonic(ks, m1, t1, m2, t2);
    SumOverMonotonic(ks, m2, t2, m1, t1);
  }

  /** The keys whose asset belongs to the user: `userId.equals(getUserId())`,
      which never holds for a null owner; a null user owns nothing. */
  function Owned(m: map<Uuid, AssetRecord>, userId: Option<Uuid>): (ks: set<Uuid>)
    ensures ks <= m.Keys
    ensures userId.None? ==> ks == {}
    ensures forall k :: k in ks <==> k in m && userId.Some? && m[k].userId == userId
  {
    if userId.None? then {} else set k | k in m && m[k].userId == userId
  }

  /** The categories present among some assets; a null category is a key too. */
  function TypesOf(m: map<Uuid, AssetRecord>, ks: set<Uuid>): (ts: set<Option<AssetType>>)
    requires ks <= m.Keys
    ensures forall t :: t in ts <==> exists k :: k in ks && m[k].assetType == t
  {
    set k | k in ks :: m[k].assetType
  }

  predicate HasNullValue(m: map<Uuid, AssetRecord>, ks: set<Uuid>)
    requires ks <= m.Keys
  {
    exists k :: k in ks && m[k].currentValue.None?
  }

  /** `calculateNetWorth`: the stream reduce of the current values, which
      throws a NullPointerException at a null value. */
  ghost function NetWorth(m: map<Uuid, AssetRecord>, ks: set<Uuid>): Result<real, Exception>
    requires ks <= m.Keys
  {
    if HasNullValue(m, ks) then Err(NullPointer) else Ok(SumOver(ks, m, CurrentValue))
  }

  /** `getUserAssetDistribution`: per category, the sum of the assets'
      shares of the total, each share rounded to four places before it is
      scaled to percent. A zero total with assets present divides by zero. */
  ghost function Distribution(m: map<Uuid, AssetRecord>, ks: set<Uuid>): Result<map<Option<AssetType>, real>, Exception>
    requires ks <= m.Keys
  {
    match NetWorth(m, ks)
    case Err(e) => Err(e)
    case Ok(total) =>
      if ks != {} && total == 0.0 then Err(Arithmetic)
      else Ok(Shares(m, ks, total))
  }

  /** Per category present, the sum of the assets' shares of `total`. */
  ghost function Shares(m: map<Uuid, AssetRecord>, ks: set<Uuid>, total: real): map<Option<AssetType>, real>
    requires ks <= m.Keys
  {
    map t | t in TypesOf(m, ks) :: SumOver(ks, m, TypeShare(t, total))
  }

  /** `calculateUserNetWorthInBase` after its guards: the sum of what each
      asset adds in the base currency, unless one conversion divides by zero. */
  ghost function NetWorthInBase(m: map<Uuid, AssetRecord>, ks: set<Uuid>, base: string, rates: map<string, real>): Result<real, Exception>
    requires ks <= m.Keys
  {
    if exists k :: k in ks && ValueInBase(m[k], base, rates).Err? then Err(Arithmetic)
    else Ok(SumOver(ks, m, InBase(base, rates)))
  }

  /** One asset whose conversion fails makes the whole net worth in base fail. */
  lemma NetWorthInBaseFails(m: map<Uuid, AssetRecord>, ks: set<Uuid>, base: string, rates: map<string, real>, k: Uuid)
    requires ks <= m.Keys && k in ks && ValueInBase(m[k], base, rates).Err?
    ensures NetWorthInBase(m, ks, base, rates) == Err(Arithmetic)
  {
  }

  /** When every asset converts, the net worth in base is the sum of what
      each adds. */
  lemma NetWorthInBaseSucceeds(m: map<Uuid, AssetRecord>, ks: set<Uuid>, base: string, rates: map<string, real>)
    requires ks <= m.Keys && forall k :: k in ks ==> ValueInBase(m[k], base, rates).Ok?
    ensures NetWorthInBase(m, ks, base, rates) == Ok(SumOver(ks, m, InBase(base, rates)))
  {
  }

  /** No assets: zero net worth, in any currency, and an empty distribution. */
  lemma NoAssets(m: map<Uuid, AssetRecord>, base: string, rates: map<string, real>)
    ensures NetWorth(m, {}) == Ok(0.0)
    ensures NetWorthInBase(m, {}, base, rates) == Ok(0.0)
    ensures Distribution(m, {}) == Ok(map[])
  {
    assert TypesOf(m, {}) == {};
    assert Shares(m, {}, 0.0) == map[];
  }

  /** Raising current values never lowers the net worth, and with no
      negative values the net worth is not negative. */
  lemma NetWorthMonotonic(ks: set<Uuid>, m1: map<Uuid, AssetRecord>, m2: map<Uuid, AssetRecord>)
    requires ks <= m1.Keys && ks <= m2.Keys
    requires forall k :: k in ks ==> m1[k].currentValue.Some? && m2[k].currentValue.Some?
    requires forall k :: k in ks ==> m1[k].currentValue.value <= m2[k].currentValue.value
    ensures NetWorth(m1, ks).Ok? && NetWorth(m2, ks).Ok?
    ensures NetWorth(m1, ks).value <= NetWorth(m2, ks).value
    ensures (forall k :: k in ks ==> m1[k].currentValue.value >= 0.0) ==> NetWorth(m1, ks).value >= 0.0
  {
    SumOverMonotonic(ks, m1, CurrentValue, m2, CurrentValue);
    if forall k :: k in ks ==> m1[k].currentValue.value >= 0.0 {
      SumOverNonNegative(ks, m1, CurrentValue);
    }
  }

  /** When every asset is held in the base currency (ignoring case), the
      net worth in that currency is the plain net worth: nothing is
      converted or rounded. */
  lemma NetWorthInOwnCurrency(m: map<Uuid, AssetRecord>, ks: set<Uuid>, base: string, rates: map<string, real>)
    requires ks <= m.Keys
    requires forall k :: k in ks ==> m[k].currentValue.Some? && m[k].currency.Some?
    requires forall k :: k in ks ==> EqualsIgnoreCase(m[k].currency.value, base)
    ensures NetWorthInBase(m, ks, base, rates) == NetWorth(m, ks)
  {
    SumOverCongruent(ks, m, InBase(base, rates), m, CurrentValue);
  }

  /** The per-category sums of a distribution: a category absent from the
      assets gets nothing, and adding one more asset adds its share to its
      own category and nothing to the others. */
  lemma TypeShareAbsent(m: map<Uuid, AssetRecord>, ks: set<Uuid>, t: Option<AssetType>, total: real)
    requires ks <= m.Keys && t !in TypesOf(m, ks)
    ensures SumOver(ks, m, TypeShare(t, total)) == 0.0
  {
    SumOverZero(ks, m, TypeShare(t, total));
  }

  /** An asset's entry in the distribution is its value's percentage of the
      total to within half a hundredth of a percent. */
  lemma TypeShareError(a: AssetRecord, total: real)
    requires a.currentValue.Some? && total != 0.0
    ensures var share := Eval(TypeShare(a.assetType, total), a);
            -0.005 <= share - a.currentValue.value / total * 100.0 <= 0.005
  {
    RoundTenThousandthsError(a.currentValue.value / total);
  }

  /** Keys listed without repetition. */
  predicate Distinct(ks: seq<Uuid>) {
    forall i, j :: 0 <= i < j < |ks| ==> ks[i] != ks[j]
  }

  /** The keys listed in a sequence. */
  function KeySet(ks: seq<Uuid>): set<Uuid> {
    set k | k in ks
  }

  /** Appending a new key keeps a key list distinct and adds the key to its
      set. */
  lemma DistinctAppend(ks: seq<Uuid>, k: Uuid)
    requires Distinct(ks) && k !in ks
    ensures Distinct(ks + [k]) && KeySet(ks + [k]) == KeySet(ks) + {k}
  {
  }

  /** Visiting the next of a list of distinct keys adds a key not yet visited. */
  lemma KeySetStep(ks: seq<Uuid>, i: nat)
    requires i < |ks| && Distinct(ks)
    ensures KeySet(ks[..i + 1]) == KeySet(ks[..i]) + {ks[i]}
    ensures ks[i] !in KeySet(ks[..i])
    ensures KeySet(ks[..i + 1]) <= KeySet(ks)
  {
    assert ks[..i + 1] == ks[..i] + [ks[i]];
  }

  /** One step of a loop over distinct keys: the sum over the keys visited
      so far grows by the next key's contribution. */
  lemma SumOverStep(ks: seq<Uuid>, i: nat, m: map<Uuid, AssetRecord>, term: Term)
    requires i < |ks| && Distinct(ks) && KeySet(ks) <= m.Keys
    ensures KeySet(ks[..i]) <= KeySet(ks[..i + 1]) <= m.Keys
    ensures SumOver(KeySet(ks[..i + 1]), m, term) == SumOver(KeySet(ks[..i]), m, term) + Eval(term, m[ks[i]])
  {
    KeySetStep(ks, i);
    SumOverAdd(KeySet(ks[..i]), m, term, ks[i]);
  }

  /** The running total of a loop over distinct keys, after one more key. */
  lemma RunningTotalStep(ks: seq<Uuid>, i: nat, m: map<Uuid, AssetRecord>, term: Term, total: real, added: real)
    requires i < |ks| && Distinct(ks) && KeySet(ks) <= m.Keys
    requires total == SumOver(KeySet(ks[..i]), m, term) && added == Eval(term, m[ks[i]])
    ensures KeySet(ks[..i]) <= KeySet(ks[..i + 1]) <= m.Keys
    ensures total + added == SumOver(KeySet(ks[..i + 1]), m, term)
  {
    SumOverStep(ks, i, m, term);
  }

  lemma SumOverAdd(before: set<Uuid>, m: map<Uuid, AssetRecord>, term: Term, k: Uuid)
    requires before <= m.Keys && k in m && k !in before
    ensures SumOver(before + {k}, m, term) == SumOver(before, m, term) + Eval(term, m[k])
  {
    SumOverRemove(before + {k}, m, term, k);
    assert before + {k} - {k} == before;
  }

  /** `value.divide(total, 4, HALF_UP).multiply(100)`. */
  function Percentage(value: real, total: real): real
    requires total != 0.0
  {
    RoundTenThousandths(value / total) * 100.0
  }

  /** `dist.put(t, dist.getOrDefault(t, ZERO).add(share))`. */
  function AddShare(dist: map<Option<AssetType>, real>, t: Option<AssetType>, share: real): (d: map<Option<AssetType>, real>)
    ensures d.Keys == dist.Keys + {t}
    ensures d[t] == (if t in dist then dist[t] else 0.0) + share
    ensures forall u :: u in dist && u != t ==> d[u] == dist[u]
  {
    dist[t := (if t in dist then dist[t] else 0.0) + share]
  }

  /** One step of the distribution loop: the next asset's share is added
      to its category's entry (0 if the category is new) and every other
      entry is left as it was. */
  lemma SharesAdd(before: set<Uuid>, m: map<Uuid, AssetRecord>, total: real, k: Uuid)
    requires before <= m.Keys && k in m && k !in before
    requires m[k].currentValue.Some? && total != 0.0
    ensures Shares(m, before + {k}, total)
            == AddShare(Shares(m, before, total), m[k].assetType, Percentage(m[k].currentValue.value, total))
  {
    var after := before + {k};
    var tk := m[k].assetType;
    var dist := Shares(m, before, total);
    var share := Percentage(m[k].currentValue.value, total);
    var expected := AddShare(dist, tk, share);
    var next := Shares(m, after, total);
    assert TypesOf(m, after) == TypesOf(m, before) + {tk};
    forall t | t in TypesOf(m, after)
      ensures next[t] == expected[t]
    {
      SumOverAdd(before, m, TypeShare(t, total), k);
      if t == tk && tk !in dist {
        TypeShareAbsent(m, before, t, total);
      }
    }
    assert next.Keys == expected.Keys;
  }
}
