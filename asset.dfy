/** An asset: what the user owns, what it cost, what it is worth now and in
    which currency. */
module Assets {
  import opened Wrappers
  import opened Numerics
  import opened Ids

  /** The asset categories. */
  datatype AssetType = Cash | Stocks | Gold | RealEstate | Crypto | Other

  /** A snapshot of the eight stored values of an asset, on which the
      valuation and zakat arithmetic works. Every field but the id may be
      Java's null. */
  datatype AssetRecord = AssetRecord(
    id: Uuid,
    userId: Option<Uuid>,
    name: Option<string>,
    assetType: Option<AssetType>,
    purchasePrice: Option<real>,
    purchaseDate: Option<Millis>,
    currentValue: Option<real>,
    currency: Option<string>,
    zakatable: bool)

  /** The record of a freshly constructed asset: everything null but the
      id, and not zakatable. */
  function EmptyRecord(id: Uuid): (r: AssetRecord)
    ensures r.id == id && !r.zakatable
    ensures r.userId.None? && r.name.None? && r.assetType.None? && r.purchasePrice.None?
    ensures r.purchaseDate.None? && r.currentValue.None? && r.currency.None?
  {
    AssetRecord(id, None, None, None, None, None, None, None, false)
  }

  /** The return on investment in percent: the relative gain rounded HALF_UP
      to four places, times 100. It is 0 when the purchase price is null or
      zero, or the current value is null. */
  function Roi(purchasePrice: Option<real>, currentValue: Option<real>): (r: real)
    ensures purchasePrice.None? || purchasePrice == Some(0.0) || currentValue.None? ==> r == 0.0
    ensures purchasePrice.Some? && purchasePrice.value != 0.0 && currentValue.Some? ==>
              var pp, cv := purchasePrice.value, currentValue.value;
              -0.005 <= r - (cv - pp) / pp * 100.0 <= 0.005
  {
    if purchasePrice.None? || purchasePrice.value == 0.0 || currentValue.None? then 0.0
    else
      var pp, cv := purchasePrice.value, currentValue.value;
      RoundTenThousandthsError((cv - pp) / pp);
      RoundTenThousandths((cv - pp) / pp) * 100.0
  }

  /** An asset still worth what it cost has a return of zero. */
  lemma RoiOfUnchangedValue(price: real)
    requires price != 0.0
    ensures Roi(Some(price), Some(price)) == 0.0
  {
    assert (price - price) / price == 0.0;
    RoundZero();
  }

  /** With a positive purchase price the return grows with the current
      value: it is never negative for a gain and never positive for a loss. */
  lemma RoiMonotonic(price: real, v1: real, v2: real)
    requires price > 0.0 && v1 <= v2
    ensures Roi(Some(price), Some(v1)) <= Roi(Some(price), Some(v2))
    ensures v1 >= price ==> Roi(Some(price), Some(v1)) >= 0.0
    ensures v2 <= price ==> Roi(Some(price), Some(v2)) <= 0.0
  {
    var q1, q2 := (v1 - price) / price, (v2 - price) / price;
    assert Roi(Some(price), Some(v1)) == RoundTenThousandths(q1) * 100.0;
    assert Roi(Some(price), Some(v2)) == RoundTenThousandths(q2) * 100.0;
    DivMonotonic(v1 - price, v2 - price, price);
    RoundTenThousandthsMonotonic(q1, q2);
    RoundZero();
    if v1 >= price {
      DivMonotonic(0.0, v1 - price, price);
      RoundTenThousandthsMonotonic(0.0, q1);
    }
    if v2 <= price {
      DivMonotonic(v2 - price, 0.0, price);
      RoundTenThousandthsMonotonic(q2, 0.0);
    }
  }

  /** Bought at 3 and worth 4: a third is rounded to 0.3333 before it is
      scaled, so the return is 33.33, not 33.333…; bought at 200 and worth
      150, the return is -25. */
  lemma RoiExamples()
    ensures Roi(Some(3.0), Some(4.0)) == 33.33
    ensures Roi(Some(200.0), Some(150.0)) == -25.0
  {
    assert (4.0 - 3.0) / 3.0 * 10000.0 + 0.5 == 20003.0 / 6.0;
    FloorBounds(20003.0 / 6.0);
    assert (150.0 - 200.0) / 200.0 == -0.25;
    FloorBounds(0.5 + 2500.0);
  }

  /** An asset. The id is fixed at construction; the seven other stored
      values are changed by setters, and the zakatable flag by the views
      that bind to it. */
  class Asset {
    const id: Uuid
    var userId: Option<Uuid>
    var name: Option<string>
    var assetType: Option<AssetType>
    var purchasePrice: Option<real>
    var purchaseDate: Option<Millis>
    var currentValue: Option<real>
    var currency: Option<string>
    var zakatable: bool

    /** `new Asset()`, with the random id passed in. */
    constructor Empty(id: Uuid)
      ensures Record() == EmptyRecord(id)
    {
      this.id := id;
      userId := None;
      name := None;
      assetType := None;
      purchasePrice := None;
      purchaseDate := None;
      currentValue := None;
      currency := None;
      zakatable := false;
    }

    /** The full constructor: a fresh id, then the seven setters. */
    constructor (id: Uuid, userId: Option<Uuid>, name: Option<string>, assetType: Option<AssetType>,
                 purchasePrice: Option<real>, purchaseDate: Option<Millis>, currentValue: Option<real>,
                 currency: Option<string>)
      ensures Record() == AssetRecord(id, userId, name, assetType, purchasePrice, purchaseDate,
                                      currentValue, currency, false)
    {
      this.id := id;
      this.userId := userId;
      this.name := name;
      this.assetType := assetType;
      this.purchasePrice := purchasePrice;
      this.purchaseDate := purchaseDate;
      this.currentValue := currentValue;
      this.currency := currency;
      zakatable := false;
    }

    /** The stored values as a record. */
    function Record(): (r: AssetRecord)
      reads this
      ensures r.id == id && r.zakatable == zakatable
      ensures r.userId == userId && r.name == name && r.assetType == assetType
      ensures r.purchasePrice == purchasePrice && r.purchaseDate == purchaseDate
      ensures r.currentValue == currentValue && r.currency == currency
    {
      AssetRecord(id, userId, name, assetType, purchasePrice, purchaseDate, currentValue, currency, zakatable)
    }

    method SetUserId(userId: Option<Uuid>)
      modifies this`userId
      ensures Record() == old(Record()).(userId := userId)
    {
      this.userId := userId;
    }

    method SetName(name: Option<string>)
      modifies this`name
      ensures Record() == old(Record()).(name := name)
    {
      this.name := name;
    }

    method SetType(assetType: Option<AssetType>)
      modifies this`assetType
      ensures Record() == old(Record()).(assetType := assetType)
    {
      this.assetType := assetType;
    }

    method SetPurchasePrice(purchasePrice: Option<real>)
      modifies this`purchasePrice
      ensures Record() == old(Record()).(purchasePrice := purchasePrice)
    {
      this.purchasePrice := purchasePrice;
    }

    method SetPurchaseDate(purchaseDate: Option<Millis>)
      modifies this`purchaseDate
      ensures Record() == old(Record()).(purchaseDate := purchaseDate)
    {
      this.purchaseDate := purchaseDate;
    }

    method SetCurrentValue(currentValue: Option<real>)
      modifies this`currentValue
      ensures Record() == old(Record()).(currentValue := currentValue)
    {
      this.currentValue := currentValue;
    }

    method SetCurrency(currency: Option<string>)
      modifies this`currency
      ensures Record() == old(Record()).(currency := currency)
    {
      this.currency := currency;
    }

    /** `calculateROI()` of the stored price and value. */
    function CalculateRoi(): (r: real)
      reads this
      ensures r == Roi(purchasePrice, currentValue)
      ensures purchasePrice.None? || purchasePrice == Some(0.0) || currentValue.None? ==> r == 0.0
      ensures purchasePrice.Some? && purchasePrice.value != 0.0 && currentValue.Some? ==>
                var pp, cv := purchasePrice.value, currentValue.value;
                -0.005 <= r - (cv - pp) / pp * 100.0 <= 0.005
      ensures && purchasePrice.Some? && purchasePrice.value > 0.0 && currentValue.Some?
              && currentValue.value >= purchasePrice.value
              ==> r >= 0.0
    {
      if purchasePrice.Some? && purchasePrice.value > 0.0 && currentValue.Some? then
        RoiMonotonic(purchasePrice.value, currentValue.value, currentValue.value);
        Roi(purchasePrice, currentValue)
      else
        Roi(purchasePrice, currentValue)
    }
  }

  /** One entry of a Java object stream, as far as an asset's stream uses it. */
  datatype Serial =
    | NullRef
    | UuidRef(uuid: Uuid)
    | StringRef(text: string)
    | TypeRef(assetType: AssetType)
    | DecimalRef(decimal: real)
    | DateRef(millis: Millis)
    | CurrencyRef(code: string)

  function UuidEntry(u: Option<Uuid>): Serial {
    if u.Some? then UuidRef(u.value) else NullRef
  }

  function StringEntry(s: Option<string>): Serial {
    if s.Some? then StringRef(s.value) else NullRef
  }

  function TypeEntry(t: Option<AssetType>): Serial {
    if t.Some? then TypeRef(t.value) else NullRef
  }

  function DecimalEntry(d: Option<real>): Serial {
    if d.Some? then DecimalRef(d.value) else NullRef
  }

  function DateEntry(d: Option<Millis>): Serial {
    if d.Some? then DateRef(d.value) else NullRef
  }

  function CurrencyEntry(c: Option<string>): Serial {
    if c.Some? then CurrencyRef(c.value) else NullRef
  }

  /** `writeObject`: the id (the one non-transient field), then userId, name,
      type, purchase price, purchase date, current value and currency, in
      that order. The zakatable flag is not written. */
  function WriteObject(a: AssetRecord): (s: seq<Serial>)
    ensures |s| == 8 && s[0] == UuidRef(a.id)
    ensures s[1] == NullRef <==> a.userId.None?
    ensures s[2] == NullRef <==> a.name.None?
    ensures s[3] == NullRef <==> a.assetType.None?
    ensures s[4] == NullRef <==> a.purchasePrice.None?
    ensures s[5] == NullRef <==> a.purchaseDate.None?
    ensures s[6] == NullRef <==> a.currentValue.None?
    ensures s[7] == NullRef <==> a.currency.None?
    ensures forall k :: 0 <= k < 8 ==> SlotFits(k, s[k])
  {
    [UuidRef(a.id), UuidEntry(a.userId), StringEntry(a.name), TypeEntry(a.assetType),
     DecimalEntry(a.purchasePrice), DateEntry(a.purchaseDate), DecimalEntry(a.currentValue),
     CurrencyEntry(a.currency)]
  }

  /** The casts of `readObject`: null passes every cast, another entry of the
      wrong kind is a ClassCastException. */
  function ReadUuid(e: Serial): Result<Option<Uuid>, Exception> {
    match e
    case NullRef => Ok(None)
    case UuidRef(u) => Ok(Some(u))
    case _ => Err(ClassCast)
  }

  function ReadString(e: Serial): Result<Option<string>, Exception> {
    match e
    case NullRef => Ok(None)
    case StringRef(s) => Ok(Some(s))
    case _ => Err(ClassCast)
  }

  function ReadType(e: Serial): Result<Option<AssetType>, Exception> {
    match e
    case NullRef => Ok(None)
    case TypeRef(t) => Ok(Some(t))
    case _ => Err(ClassCast)
  }

  function ReadDecimal(e: Serial): Result<Option<real>, Exception> {
    match e
    case NullRef => Ok(None)
    case DecimalRef(d) => Ok(Some(d))
    case _ => Err(ClassCast)
  }

  function ReadDate(e: Serial): Result<Option<Millis>, Exception> {
    match e
    case NullRef => Ok(None)
    case DateRef(d) => Ok(Some(d))
    case _ => Err(ClassCast)
  }

  function ReadCurrency(e: Serial): Result<Option<string>, Exception> {
    match e
    case NullRef => Ok(None)
    case CurrencyRef(c) => Ok(Some(c))
    case _ => Err(ClassCast)
  }

  /** Whether entry `k` of an asset's stream passes the cast `readObject`
      applies to it: the id slot must hold an id, and each later slot null or
      a value of its field's class. */
  predicate SlotFits(k: nat, e: Serial) {
    if k == 0 then e.UuidRef?
    else if k == 1 then ReadUuid(e).Ok?
    else if k == 2 then ReadString(e).Ok?
    else if k == 3 then ReadType(e).Ok?
    else if k == 4 || k == 6 then ReadDecimal(e).Ok?
    else if k == 5 then ReadDate(e).Ok?
    else k == 7 && ReadCurrency(e).Ok?
  }

  /** `readObject`: the id, then the seven values in the order they were
      written, each read and cast before the next is read; the zakatable
      flag is re-initialised to false. Returns the record and the rest of
      the stream. */
  function ReadObject(s: seq<Serial>): (r: Result<(AssetRecord, seq<Serial>), Exception>)
    ensures r.Ok? ==> |s| >= 8 && r.value.1 == s[8..] && !r.value.0.zakatable
    ensures r.Ok? ==> WriteObject(r.value.0) == s[..8]
  {
    if |s| == 0 then Err(EndOfStream)
    else if s[0].NullRef? then Err(InvalidObject)
    else if !s[0].UuidRef? then Err(ClassCast)
    else if |s| == 1 then Err(EndOfStream)
    else match ReadUuid(s[1])
    case Err(e) => Err(e)
    case Ok(userId) =>
    if |s| == 2 then Err(EndOfStream)
    else match ReadString(s[2])
    case Err(e) => Err(e)
    case Ok(name) =>
    if |s| == 3 then Err(EndOfStream)
    else match ReadType(s[3])
    case Err(e) => Err(e)
    case Ok(assetType) =>
    if |s| == 4 then Err(EndOfStream)
    else match ReadDecimal(s[4])
    case Err(e) => Err(e)
    case Ok(price) =>
    if |s| == 5 then Err(EndOfStream)
    else match ReadDate(s[5])
    case Err(e) => Err(e)
    case Ok(date) =>
    if |s| == 6 then Err(EndOfStream)
    else match ReadDecimal(s[6])
    case Err(e) => Err(e)
    case Ok(value) =>
    if |s| == 7 then Err(EndOfStream)
    else match ReadCurrency(s[7])
    case Err(e) => Err(e)
    case Ok(currency) =>
    var a := AssetRecord(s[0].uuid, userId, name, assetType, price, date, value, currency, false);
    assert WriteObject(a) == s[..8];
    Ok((a, s[8..]))
  }

  /** The entries before `k` all pass their casts. */
  predicate FitsBefore(s: seq<Serial>, k: nat)
    requires k <= |s|
  {
    forall j :: 0 <= j < k ==> SlotFits(j, s[j])
  }

  /** What reading a stream gives, entry by entry: an asset when the first
      eight entries pass their casts; EndOfStream when the stream ends
      before the eighth with every entry so far passing; a null id is an
      invalid object; otherwise the first entry that fails its cast is a
      ClassCastException. */
  lemma ReadObjectOutcome(s: seq<Serial>)
    ensures ReadObject(s).Ok? <==> |s| >= 8 && FitsBefore(s, 8)
    ensures ReadObject(s) == Err(EndOfStream) <==> |s| < 8 && FitsBefore(s, |s|)
    ensures ReadObject(s) == Err(InvalidObject) <==> s != [] && s[0] == NullRef
    ensures ReadObject(s) == Err(ClassCast) <==>
              exists k :: 0 <= k < |s| && k < 8 && FitsBefore(s, k) && !SlotFits(k, s[k]) && s[0] != NullRef
  {
  }

  /** Reading back what was written restores the id and the seven values and
      leaves the rest of the stream unread; the zakatable flag comes back
      false whatever it was. */
  lemma WriteReadRoundTrip(a: AssetRecord, rest: seq<Serial>)
    ensures ReadObject(WriteObject(a) + rest) == Ok((a.(zakatable := false), rest))
  {
    var s := WriteObject(a) + rest;
    assert s[8..] == rest;
  }

  /** A stream cut short before the eighth entry is refused. */
  lemma TruncatedStreamFails(a: AssetRecord, n: nat)
    requires n < 8
    ensures ReadObject(WriteObject(a)[..n]) == Err(EndOfStream)
  {
  }
}
