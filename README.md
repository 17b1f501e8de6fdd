# Prospera core, modelled in Dafny

Prospera is a personal-finance desktop application. A user signs up and logs
in. They record assets: cash, stocks, gold, real estate, crypto and others,
each with a purchase price and date, a current value and a currency. The
application reports net worth, net worth converted into one base currency,
the split of that worth by asset type, and per-asset return on investment.
It also computes the Islamic alms (zakat) due on selected assets: 2.5% of
their total once it reaches the nisab threshold, priced in gold or silver.
It tracks the hawl, the lunar year an asset must be held, and keeps savings
goals with the monthly contribution each one still needs.

This project models that core:

- **Currency conversion.** A table of rates against the US dollar, which can
  be extended in place. Conversion rounds half-up to cents.
- **The asset entity.** Mutable fields, return on investment rounded to
  four places, and the order of fields in its serialised stream.
- **The asset repository.** An id → asset map with add, remove, update and
  current-value update. It lists a user's assets, sums their net worth and
  gives the percentage share of each asset type.
- **The asset service.** Null guards over the repository, field-by-field
  update of a stored asset, valuation of a list, and net worth converted
  into a base currency (a loop that swallows unknown currencies).
  Per-asset performance, and the distribution.
- **The zakat service.** Gold and silver nisab, the levy on a selection of
  assets, the hawl date and whether it has passed.
- **Users.** Lower-case, trimmed user names and e-mail addresses, and an
  id taken from the raw e-mail address.
- **The user repository.** Add and remove, lookup by id, by normalised
  e-mail address or by user name, and password-hash update.
- **The authentication service.** A session user set by log-in and cleared
  by log-out. Sign-up, a password check, and the e-mail, password and
  user-name validators. Each validator is written as a character-class
  predicate equivalent to its regular expression.
- **Savings goals.** Completion status, and the required monthly rate,
  rounded up to cents.

## Conventions

- **Decimals.** A `BigDecimal` is a `real`.
  - `divide(x, 2, HALF_UP)` is `Numerics.RoundCents`.
  - `divide(x, 2, CEILING)` is `Numerics.RoundCentsUp`.
  - `divide(x, 4, HALF_UP)` is `Numerics.RoundTenThousandths`.
- **Exceptions.** Every Java exception on a reachable path becomes an
  `Err` of `Wrappers.Result` or a `Fail` of `Wrappers.Outcome`.
- **Nulls.** A nullable value is an `Option`. A nullable object reference
  is a `T?`.
- **Objects.** Classes whose fields the source updates in place are Dafny
  classes. A class's `Record()` is the value snapshot of its fields, which
  the pure calculations read.
- **Dates.** A date is its millisecond count. The clock is a `now`
  parameter. A randomly generated id is a parameter of the constructor that
  makes it.
- **Maps.** A `HashMap` iterates in no fixed order. Every loop over one
  therefore picks its next key with `:|`. The sums it specifies are
  order-independent set sums (`Valuation.SumOver`).

The model follows the code where its behaviour is surprising:

- A new asset is not zakatable (`Asset.java:51-60`).
- `addConversionRate` accepts any rate, zero included, so a zero target
  rate makes `convert` throw `ArithmeticException`.
- `calculateUserNetWorthInBase` catches only `IllegalArgumentException`.
  An `ArithmeticException` from a zero base rate propagates.
- `getUserAssetDistribution` has no zero-total guard. A user whose values
  sum to zero gets `ArithmeticException`.

## Model

| member | source | states |
|---|---|---|
| Numerics.RoundCentsError | src/main/java/fcai/prospera/CurrencyConversion.java:45 | half-up rounding to cents moves a value by at most half a cent |
| Numerics.RoundCentsUpBounds | src/main/java/fcai/prospera/model/Goal.java:62 | ceiling rounding to cents never lowers a value and raises it by less than one cent |
| Numerics.RoundTenThousandthsError | src/main/java/fcai/prospera/model/Asset.java:137 | rounding to four places moves a value by at most 0.00005 |
| Numerics.HalfUpUnitsTie | src/main/java/fcai/prospera/CurrencyConversion.java:45 | a value exactly halfway between two integers rounds away from zero, on either side of zero |
| Numerics.RoundCentsTie | src/main/java/fcai/prospera/CurrencyConversion.java:45 | a half cent rounds to the cent further from zero: 0.125 gives 0.13 and -0.125 gives -0.13 |
| Numerics.RoundCentsMonotonic | src/main/java/fcai/prospera/CurrencyConversion.java:45 | rounding to cents preserves order |
| Numerics.RoundCentsExact | src/main/java/fcai/prospera/CurrencyConversion.java:45 | a whole number of cents is unchanged by rounding |
| JavaInts.ToInt32 | src/main/java/fcai/prospera/model/Goal.java:54 | the `(int)` cast lands in the 32-bit range and is the identity on it |
| JavaInts.ToInt64 | src/main/java/fcai/prospera/model/Goal.java:47 | long subtraction lands in the 64-bit range and is the identity on it |
| Text.ToLower | src/main/java/fcai/prospera/model/User.java:21-22 | lower-casing keeps the length and maps each character on its own |
| Text.ToLowerChar | src/main/java/fcai/prospera/model/User.java:21-22 | lower-casing leaves no upper-case letter, keeps blanks blank and changes nothing else |
| Text.Trim | src/main/java/fcai/prospera/model/User.java:21-22 | trim keeps a slice of the input: everything cut off is blank and its ends are not |
| Text.Normalize | src/main/java/fcai/prospera/model/User.java:21-22 | the normal form has no upper-case letter and no blank at either end |
| Text.NormalizeIdempotent | src/main/java/fcai/prospera/model/User.java:35 | normalising a normalised string changes nothing |
| Text.TrimToLowerCommute | src/main/java/fcai/prospera/model/User.java:21-22 | lower-casing and trimming commute |
| Text.EqualsIgnoreCaseIffLower | src/main/java/fcai/prospera/service/AssetService.java:160 | two codes are equal ignoring case exactly when their lower-case forms are equal |
| Currency.CurrencyConversion.constructor | src/main/java/fcai/prospera/CurrencyConversion.java:23-28 | the table starts with USD 1, EUR 1.13, GBP 1.33 and EGP 0.020 |
| Currency.CurrencyConversion.AddConversionRate | src/main/java/fcai/prospera/CurrencyConversion.java:19-21 | the code's rate is set or replaced, and no other entry changes |
| Currency.CurrencyConversion.Convert | src/main/java/fcai/prospera/CurrencyConversion.java:37-46 | against the object's table: IllegalArgument exactly for an unknown code, Arithmetic exactly for a zero target rate, otherwise the rounded amount, within half a cent of amount × from-rate ÷ to-rate |
| Currency.ConvertWith | src/main/java/fcai/prospera/CurrencyConversion.java:37-46 | an unknown code is IllegalArgument and a zero target rate is Arithmetic, both if-and-only-if; otherwise the result is the amount times the rate quotient, rounded to cents |
| Currency.ConvertAt | src/main/java/fcai/prospera/CurrencyConversion.java:45 | the converted amount is a whole number of cents within half a cent of the exact amount × from-rate ÷ to-rate |
| Currency.ConvertSameCurrency | src/main/java/fcai/prospera/CurrencyConversion.java:37-46 | converting a code to itself only rounds to cents, so an amount already in cents comes back unchanged |
| Currency.ConvertAtTie | src/main/java/fcai/prospera/CurrencyConversion.java:45 | an exact amount on a half cent converts to the cent above it: 0.125 gives 0.13 |
| Currency.ConvertAtMonotonic | src/main/java/fcai/prospera/CurrencyConversion.java:45 | with positive rates, a larger amount never converts to less |
| Currency.ConvertAtRoundTrip | src/main/java/fcai/prospera/CurrencyConversion.java:45 | converting there and back loses at most 0.005 × (1 + to-rate ÷ from-rate) |
| Currency.SeededConversions | src/main/java/fcai/prospera/CurrencyConversion.java:23-46 | with the seeded table, 1000 EUR is 1130 USD, 10 USD is 500 EGP, and JPY is unknown |
| Currency.CurrencyItem.DisplayName | src/main/java/fcai/prospera/CurrencyItem.java:21-23 | the display name is code, then " - ", the name, then " (", the symbol and ")", each piece at its place |
| Currency.DisplayNameSeparatesCodes | src/main/java/fcai/prospera/CurrencyItem.java:21-23 | with the same name and symbol, two display names are equal exactly when the codes are |
| Ids.NameUuidFromBytes | src/main/java/fcai/prospera/model/User.java:20 | the derived id depends on the given text alone |
| Assets.EmptyRecord | src/main/java/fcai/prospera/model/Asset.java:31-34 | a new asset has only its id; every field is null and it is not zakatable |
| Assets.Asset.Empty | src/main/java/fcai/prospera/model/Asset.java:31-34 | `Asset()` holds the empty record for its fresh id |
| Assets.Asset.constructor | src/main/java/fcai/prospera/model/Asset.java:36-60 | the full constructor stores the seven given fields under a fresh id and leaves the asset not zakatable |
| Assets.Asset.SetUserId | src/main/java/fcai/prospera/model/Asset.java:118 | only the owner changes |
| Assets.Asset.SetName | src/main/java/fcai/prospera/model/Asset.java:120 | only the name changes |
| Assets.Asset.SetType | src/main/java/fcai/prospera/model/Asset.java:122 | only the type changes |
| Assets.Asset.SetPurchasePrice | src/main/java/fcai/prospera/model/Asset.java:124 | only the purchase price changes |
| Assets.Asset.SetPurchaseDate | src/main/java/fcai/prospera/model/Asset.java:126 | only the purchase date changes |
| Assets.Asset.SetCurrentValue | src/main/java/fcai/prospera/model/Asset.java:128 | only the current value changes |
| Assets.Asset.SetCurrency | src/main/java/fcai/prospera/model/Asset.java:130 | only the currency changes |
| Assets.Roi | src/main/java/fcai/prospera/model/Asset.java:132-139 | ROI is 0 without a price, with a zero price or without a value; otherwise it is within 0.005 percentage points of (value − price) ÷ price × 100 |
| Assets.Asset.CalculateRoi | src/main/java/fcai/prospera/model/Asset.java:132-139 | the stored asset's ROI is `Roi` of its price and value: 0 for a null or zero price or a null value, otherwise within 0.005 of (value − price) ÷ price × 100, and not negative when the value has not fallen below a positive price |
| Assets.RoiOfUnchangedValue | src/main/java/fcai/prospera/model/Asset.java:132-139 | an unchanged value has ROI 0 |
| Assets.RoiMonotonic | src/main/java/fcai/prospera/model/Asset.java:132-139 | at a fixed positive price a higher value never has a lower ROI; a gain is not negative and a loss is not positive |
| Assets.RoiExamples | src/main/java/fcai/prospera/model/Asset.java:137-138 | the quotient is rounded to four places before scaling: bought at 3 and worth 4 gives 33.33, and 200 → 150 gives −25 |
| Assets.WriteObject | src/main/java/fcai/prospera/model/Asset.java:68-79 | the stream is the id then the seven fields; slot k is null exactly when field k is, and every slot has the kind its field's reader accepts |
| Assets.ReadObject | src/main/java/fcai/prospera/model/Asset.java:88-102 | a successful read consumes eight slots, returns the rest of the stream, and yields a not-zakatable asset whose written form is exactly those slots |
| Assets.ReadObjectOutcome | src/main/java/fcai/prospera/model/Asset.java:88-102 | reading slot by slot: Ok exactly when eight slots of the right kinds are there; EndOfStream exactly when the stream ends before a bad slot; InvalidObject exactly for a null id; ClassCast exactly when some slot before the end has the wrong kind |
| Assets.WriteReadRoundTrip | src/main/java/fcai/prospera/model/Asset.java:68-102 | reading what was written gives the asset back with zakatable reset to false, and leaves the rest of the stream |
| Assets.TruncatedStreamFails | src/main/java/fcai/prospera/model/Asset.java:88-102 | every proper prefix of a written asset fails with EndOfStream |
| Valuation.ValueInBase | src/main/java/fcai/prospera/service/AssetService.java:156 | an asset without a value or currency contributes 0 |
| Valuation.CodeValueInBase | src/main/java/fcai/prospera/service/AssetService.java:158-175 | the raw value when the codes are equal ignoring case; an unknown code contributes 0; a zero base rate is Arithmetic, if and only if; otherwise the converted value |
| Valuation.Owned | src/main/java/fcai/prospera/repository/AssetFileRepository.java:119-132 | exactly the keys whose asset the user owns; none for a null user |
| Valuation.SumOverRemove | src/main/java/fcai/prospera/repository/AssetFileRepository.java:140-143 | a sum over a key set is any one member's term plus the sum over the rest, so iteration order does not matter |
| Valuation.SumOverMonotonic | src/main/java/fcai/prospera/repository/AssetFileRepository.java:140-143 | termwise smaller terms give a smaller sum |
| Valuation.NoAssets | src/main/java/fcai/prospera/repository/AssetFileRepository.java:140-167 | no assets: net worth 0, net worth in any base 0, empty distribution |
| Valuation.SumOverNonNegative | src/main/java/fcai/prospera/repository/AssetFileRepository.java:140-143 | a sum of terms that are not negative is not negative |
| Valuation.NetWorthMonotonic | src/main/java/fcai/prospera/repository/AssetFileRepository.java:140-143 | raising current values never lowers the net worth, and values that are not negative give a net worth that is not negative |
| Valuation.NetWorthInOwnCurrency | src/main/java/fcai/prospera/service/AssetService.java:155-177 | when every asset is already in the base currency, net worth in base equals the unconverted net worth |
| Valuation.TypeShareAbsent | src/main/java/fcai/prospera/repository/AssetFileRepository.java:154-167 | a type no asset has gets no share |
| Valuation.TypeShareError | src/main/java/fcai/prospera/repository/AssetFileRepository.java:162-163 | each asset's share is within 0.005 percentage points of value ÷ total × 100 |
| Valuation.AddShare | src/main/java/fcai/prospera/repository/AssetFileRepository.java:164 | a share adds its type to the keys; the type's entry becomes its old entry (0 when absent) plus the share; every other type keeps its entry |
| AssetRepository.AssetFileRepository.constructor | src/main/java/fcai/prospera/repository/AssetFileRepository.java:20-27 | a repository without a file starts empty |
| AssetRepository.AssetFileRepository.AddAsset | src/main/java/fcai/prospera/repository/AssetFileRepository.java:55-63 | refuses null and a present id, if and only if; otherwise stores the asset under its id and nothing else |
| AssetRepository.AssetFileRepository.RemoveAsset | src/main/java/fcai/prospera/repository/AssetFileRepository.java:66-74 | true exactly when the id was present; only that entry goes |
| AssetRepository.AssetFileRepository.UpdateAsset | src/main/java/fcai/prospera/repository/AssetFileRepository.java:84-92 | replaces the object under a present id; false for null arguments or an unknown id, with nothing changed |
| AssetRepository.AssetFileRepository.UpdateCurrentValue | src/main/java/fcai/prospera/repository/AssetFileRepository.java:102-111 | sets only the current value of the stored asset; false for null arguments or an unknown id; no other asset changes |
| AssetRepository.AssetFileRepository.GetAssetById | src/main/java/fcai/prospera/repository/AssetFileRepository.java:114-116 | the stored asset, or null for a null or unknown id |
| AssetRepository.AssetFileRepository.GetUserAssets | src/main/java/fcai/prospera/repository/AssetFileRepository.java:119-132 | lists each stored asset the user owns exactly once, and nothing else |
| AssetRepository.AssetFileRepository.CalculateNetWorth | src/main/java/fcai/prospera/repository/AssetFileRepository.java:140-143 | the unconverted sum of the user's current values; NullPointer when one is null |
| AssetRepository.AssetFileRepository.SharesOf | src/main/java/fcai/prospera/repository/AssetFileRepository.java:159-166 | the loop over the user's assets yields Arithmetic for a non-empty list and a zero total, and otherwise the set-sum distribution of rounded shares |
| AssetRepository.AssetFileRepository.GetUserAssetDistribution | src/main/java/fcai/prospera/repository/AssetFileRepository.java:154-167 | each type present maps to the sum of its assets' rounded percentage shares of the net worth; Arithmetic for a zero total |
| AssetServices.CalculateValuation | src/main/java/fcai/prospera/service/AssetService.java:112-118 | 0 for a null or empty list; not negative when the values are not |
| AssetServices.SkipsNulls | src/main/java/fcai/prospera/service/AssetService.java:115 | a null asset or a null value adds nothing, wherever it stands |
| AssetServices.SumValuesAppend | src/main/java/fcai/prospera/service/AssetService.java:114-117 | the valuation of two lists joined is the sum of their valuations |
| AssetServices.ValuationOfListed | src/main/java/fcai/prospera/service/AssetService.java:112-118 | valuing a user's listed assets gives their set sum, the repository's net worth |
| AssetServices.PerformanceOf | src/main/java/fcai/prospera/service/AssetService.java:190-197 | the keys are exactly the ids of the non-null assets |
| AssetServices.CalculatePerformance | src/main/java/fcai/prospera/service/AssetService.java:188-198 | empty for a null list; otherwise the keys are exactly the ids of the non-null assets |
| AssetServices.PerformanceFirstWins | src/main/java/fcai/prospera/service/AssetService.java:192-196 | an id maps to the ROI of its first asset in the list |
| AssetServices.AssetService.Create | src/main/java/fcai/prospera/service/AssetService.java:22-27 | a null repository is IllegalArgument, if and only if |
| AssetServices.AssetService.GetAssetById | src/main/java/fcai/prospera/service/AssetService.java:34-37 | null for a null id, otherwise the repository's lookup |
| AssetServices.AssetService.GetAssets | src/main/java/fcai/prospera/service/AssetService.java:44-47 | empty for a null user, otherwise exactly the user's stored assets |
| AssetServices.AssetService.AddAsset | src/main/java/fcai/prospera/service/AssetService.java:54-57 | as the repository's add, with null refused |
| AssetServices.AssetService.RemoveAsset | src/main/java/fcai/prospera/service/AssetService.java:64-67 | as the repository's remove, with null refused |
| AssetServices.AssetService.UpdateAsset | src/main/java/fcai/prospera/service/AssetService.java:75-91 | false for a null id, null data or an unknown id; otherwise exactly the seven fields are copied onto the stored asset, which keeps its id and zakatable flag; the map and every other asset are unchanged |
| AssetServices.AssetService.UpdateAssetCurrentValue | src/main/java/fcai/prospera/service/AssetService.java:99-102 | false for null arguments; otherwise as the repository's value update |
| AssetServices.AssetService.CalculateUserNetWorth | src/main/java/fcai/prospera/service/AssetService.java:128-134 | 0 for a null user; otherwise the repository's net worth |
| AssetServices.AssetService.SumInBase | src/main/java/fcai/prospera/service/AssetService.java:155-178 | the loop over the user's assets yields the set sum of each asset's value in the base currency |
| AssetServices.AssetService.CalculateUserNetWorthInBase | src/main/java/fcai/prospera/service/AssetService.java:144-180 | 0 for a null user or a null or blank base; otherwise the set sum of each owned asset's value in the base, with Arithmetic when a conversion divides by a zero rate |
| AssetServices.AssetService.AddValueInBase | src/main/java/fcai/prospera/service/AssetService.java:156-176 | one loop step adds exactly the asset's value in the base, or fails with Arithmetic exactly when that value does |
| AssetServices.AssetService.GetAssetDistributionForUser | src/main/java/fcai/prospera/service/AssetService.java:207-210 | empty for a null user; otherwise the repository's distribution |
| Zakat.GoldNisab | src/main/java/fcai/prospera/service/ZakatAndComplianceService.java:46-48 | a price that is not negative gives a nisab that is not negative |
| Zakat.SilverNisab | src/main/java/fcai/prospera/service/ZakatAndComplianceService.java:55-57 | a price that is not negative gives a nisab that is not negative |
| Zakat.NisabMonotonic | src/main/java/fcai/prospera/service/ZakatAndComplianceService.java:45-57 | a dearer metal never lowers the nisab and never raises the levy on a total that is not negative |
| Zakat.NisabExamples | src/main/java/fcai/prospera/service/ZakatAndComplianceService.java:17-18 | 87.48 g of gold at 4780 is 418154.4; 612.36 g of silver at 52.22 is 31977.4392 |
| Zakat.CalculateZakat | src/main/java/fcai/prospera/service/ZakatAndComplianceService.java:35-38 | a null asset or value is NullPointer, if and only if; otherwise the levy on the sum of the current values |
| Zakat.ZakatIsZeroOrRate | src/main/java/fcai/prospera/service/ZakatAndComplianceService.java:37 | the levy is 0 or exactly 2.5% of the total, and never more than a total that is not negative |
| Zakat.ZakatBoundary | src/main/java/fcai/prospera/service/ZakatAndComplianceService.java:37 | a total equal to the nisab owes 2.5%; any total below owes nothing |
| Zakat.ZakatOfNothing | src/main/java/fcai/prospera/service/ZakatAndComplianceService.java:35-38 | an empty selection owes nothing, whatever the nisab |
| Zakat.ZakatMonotonic | src/main/java/fcai/prospera/service/ZakatAndComplianceService.java:37 | with a nisab that is not negative, a larger total never owes less |
| Zakat.ZakatMonotonicInValue | src/main/java/fcai/prospera/service/ZakatAndComplianceService.java:35-38 | raising one selected asset's value never lowers the levy |
| Zakat.SumValuesUpdate | src/main/java/fcai/prospera/service/ZakatAndComplianceService.java:36 | replacing one entry changes the total by the change in that entry's value |
| Zakat.HawlDate | src/main/java/fcai/prospera/service/ZakatAndComplianceService.java:66-69 | the hawl date lies exactly 354 whole days after purchase: passed on that day, not on the day before |
| Zakat.HawlBoundary | src/main/java/fcai/prospera/service/ZakatAndComplianceService.java:64-81 | bought exactly 354 days ago, the hawl has passed; 353 days ago, it has not |
| Zakat.HawlStaysPassed | src/main/java/fcai/prospera/service/ZakatAndComplianceService.java:77-81 | once the hawl has passed it stays passed |
| Zakat.ZakatAndComplianceService.constructor | src/main/java/fcai/prospera/service/ZakatAndComplianceService.java:25-27 | stores the repository, null included |
| Zakat.ZakatAndComplianceService.GetHawlDate | src/main/java/fcai/prospera/service/ZakatAndComplianceService.java:64-70 | NullPointer exactly when the repository, the asset or its purchase date is missing; otherwise the date 354 days after purchase |
| Zakat.ZakatAndComplianceService.HasHawlPassed | src/main/java/fcai/prospera/service/ZakatAndComplianceService.java:77-81 | fails exactly when the hawl date does; otherwise true exactly when the hawl date is not after now |
| Goals.StatusAfterProgress | src/main/java/fcai/prospera/model/Goal.java:117-124 | completed exactly when it already was or progress has reached the target, so a goal never returns to active |
| Goals.Goal.Empty | src/main/java/fcai/prospera/model/Goal.java:19-23 | a new goal is active with progress 0 and no other data |
| Goals.Goal.constructor | src/main/java/fcai/prospera/model/Goal.java:25-37 | the full constructor stores the given fields; the goal is active with progress 0 |
| Goals.Goal.MonthlyRateRequired | src/main/java/fcai/prospera/model/Goal.java:39-63 | the goal's rate is the rate required for its own target, progress and deadline: 0 with no deadline or one already past, NullPointer exactly when a needed amount is missing |
| Goals.Goal.SetProgress | src/main/java/fcai/prospera/model/Goal.java:117-124 | stores the progress; a null progress or target is NullPointer with the status kept; otherwise the status follows the completion rule |
| Goals.MonthsRemaining | src/main/java/fcai/prospera/model/Goal.java:54 | the month count lies in the int range |
| Goals.RateRequired | src/main/java/fcai/prospera/model/Goal.java:39-63 | 0 with no deadline or a deadline not after now; NullPointer exactly when the target or progress is missing on the other paths; the whole remaining amount when less than a month is left |
| Goals.MonthsWithoutWrap | src/main/java/fcai/prospera/model/Goal.java:47-54 | for deadlines under 2³¹ months away neither cast wraps and the months are the plain quotient |
| Goals.RateCoversRemaining | src/main/java/fcai/prospera/model/Goal.java:61-62 | with at least a month left, paying the rate every month covers the remaining amount and overpays by under a cent a month |
| Goals.LastMonthDueAtOnce | src/main/java/fcai/prospera/model/Goal.java:56-58 | less than 30 days before the deadline the whole remainder is due, unrounded |
| Goals.ReachedGoalNeedsNothing | src/main/java/fcai/prospera/model/Goal.java:61-62 | a goal already reached needs no positive monthly rate |
| Users.User.constructor | src/main/java/fcai/prospera/model/User.java:19-24 | the id comes from the raw e-mail address; the user name and address are stored normalised; the hash is stored as given |
| Users.User.SetUsername | src/main/java/fcai/prospera/model/User.java:34-36 | only the user name changes, to the normalised argument |
| Users.User.SetEmail | src/main/java/fcai/prospera/model/User.java:42-44 | only the address changes, to the normalised argument, and the id does not |
| Users.User.SetPasswordHash | src/main/java/fcai/prospera/model/User.java:50-52 | only the hash changes, to the argument as given |
| Users.StoredNamesAreNormal | src/main/java/fcai/prospera/model/User.java:34-44 | re-setting a stored user name or address leaves it unchanged |
| Users.IdFollowsRawEmail | src/main/java/fcai/prospera/model/User.java:20-22 | equal ids exactly for equal raw addresses; two spellings with the same stored address get different ids |
| UserRepository.UserFileRepository.constructor | src/main/java/fcai/prospera/repository/UserFileRepository.java:17-21 | a repository without a file starts empty |
| UserRepository.UserFileRepository.Lookup | src/main/java/fcai/prospera/repository/UserFileRepository.java:97-104 | returns a stored user whose field equals the key, or null exactly when none does |
| UserRepository.UserFileRepository.Add | src/main/java/fcai/prospera/repository/UserFileRepository.java:64-72 | refuses null and a present id, if and only if; otherwise stores the user under its id and nothing else |
| UserRepository.UserFileRepository.GetUserById | src/main/java/fcai/prospera/repository/UserFileRepository.java:75-77 | the stored user, or null for a null or unknown id |
| UserRepository.UserFileRepository.RemoveUser | src/main/java/fcai/prospera/repository/UserFileRepository.java:80-88 | true exactly when the id was present; only that entry goes |
| UserRepository.UserFileRepository.GetUserByEmail | src/main/java/fcai/prospera/repository/UserFileRepository.java:91-105 | null for null; otherwise a stored user whose address equals the normalised query, or null exactly when none does |
| UserRepository.UserFileRepository.GetUserByUsername | src/main/java/fcai/prospera/repository/UserFileRepository.java:108-122 | null for null; otherwise a stored user whose name equals the normalised query, or null exactly when none does |
| UserRepository.UserFileRepository.UpdatePasswordHash | src/main/java/fcai/prospera/repository/UserFileRepository.java:125-137 | with a known id and a hash, only that user's hash changes; otherwise nothing changes |
| Auth.AuthService.constructor | src/main/java/fcai/prospera/service/AuthService.java:14-16 | nobody is logged in |
| Auth.AuthService.Login | src/main/java/fcai/prospera/service/AuthService.java:24-27 | the session user becomes the user found by name, or null; the password plays no part |
| Auth.AuthService.Signup | src/main/java/fcai/prospera/service/AuthService.java:36-38 | an id already present leaves the users unchanged; otherwise exactly one new user is added, with the normalised name and address and the given password; the name argument is ignored |
| Auth.AuthService.Logout | src/main/java/fcai/prospera/service/AuthService.java:43-45 | nobody is logged in afterwards |
| Auth.AuthService.IsPasswordCorrect | src/main/java/fcai/prospera/service/AuthService.java:61-64 | false when no user has the name; otherwise whether the found user's stored hash equals the password; NullPointer for a stored null hash |
| Auth.AuthService.DoesUsernameExist | src/main/java/fcai/prospera/service/AuthService.java:116-119 | true exactly when some stored user has the normalised name |
| Auth.AuthService.DoesEmailExist | src/main/java/fcai/prospera/service/AuthService.java:126-128 | true exactly when some stored user has the normalised address |
| Auth.IsEmailValid | src/main/java/fcai/prospera/service/AuthService.java:71-79 | false for null; otherwise a non-empty local part of `[\w.-]`, one `@`, one or more `[\w-]` labels each followed by `.`, then a final label of 2–6 `[\w-]` characters; so a valid address has at least six characters, does not start with `@` and does not end with `.` |
| Auth.IsPasswordValid | src/main/java/fcai/prospera/service/AuthService.java:86-94 | false for null; otherwise at least eight characters, none a line terminator, at least one an ASCII digit; a shorter or digit-free password is refused |
| Auth.IsUsernameValid | src/main/java/fcai/prospera/service/AuthService.java:101-109 | false for null; otherwise 3–20 characters from `[A-Za-z0-9_-]`, so no blank and no `@` |
| Auth.ValidEmailChars | src/main/java/fcai/prospera/service/AuthService.java:72 | a valid address has an `@`, and every other character is a word character, a dot or a hyphen |
| Auth.EmailHasOneAt | src/main/java/fcai/prospera/service/AuthService.java:71-79 | a valid address has exactly one `@` |
| Auth.ValidEmailNormalForm | src/main/java/fcai/prospera/service/AuthService.java:71-79 | a valid address is stored as its lower-case form, which is valid too |
| Auth.ValidUsernameNormalForm | src/main/java/fcai/prospera/service/AuthService.java:101-109 | a valid user name is stored as its lower-case form, which is valid too |
| Auth.EmailExamples | src/main/java/fcai/prospera/service/AuthService.java:71-79 | ali@mail.com is valid; null is not |
| Auth.EmailRejections | src/main/java/fcai/prospera/service/AuthService.java:71-79 | a@b.c, a@b, a@.com and a@@b.com are not valid |
| Auth.PasswordExamples | src/main/java/fcai/prospera/service/AuthService.java:86-94 | secret123 is valid; password (no digit), pass1 (too short) and null are not |
| Auth.UsernameExamples | src/main/java/fcai/prospera/service/AuthService.java:101-109 | ahmed_99 is valid; ab (too short), "ahmed ali" (a space) and null are not |

## Left out

- File persistence. The load and save methods of both repositories are I/O,
  so the repositories are modelled as in-memory maps.
- The JavaFX user interface: controllers, views, scene management, the
  currency combo box and the application entry point. Report generation
  (PDF and Excel) and `Credentials` are also left out.
- `getNonShariaCompliantAssets`: not modelled.
- Getters and plain setters of `Goal` and `CurrencyItem`, and `toString`.
  These read or write one field and state nothing beyond that.
- Auth.AuthService.GetCurrentUser: `getCurrentUser` returns the session
  field and states nothing beyond that, so it carries no contract.
- The message `calculateUserNetWorthInBase` writes to standard error for a
  skipped conversion is not modelled.
- Floating point. The `double` arithmetic of the nisab and of
  `calculateZakat`'s threshold is modelled as exact real arithmetic.
- UUID generation. Random ids are parameters. A name-based id is
  `NameUuid(text)`. The MD5 hashing behind it is not modelled, so two
  different texts never get the same id here.
- The clock. `System.currentTimeMillis` and `new Date()` become a `now`
  parameter.
  - Zakat.HawlDate adds 354 × 86,400,000 ms. The calendar's time zone and
    daylight-saving shifts are not modelled.
- The regular-expression engine. The three validators are written as
  equivalent character-class predicates over ASCII word characters.
- Unicode case mapping. `toLowerCase` and `equalsIgnoreCase` are modelled
  on ASCII letters only.
- `java.util.Currency`. An asset's currency is its code string.
- `AssetType`, `GoalType` and `GoalStatus` are not part of this model.
  - The six asset types are the categories the application offers.
  - A goal type is an opaque name.
  - A goal status is active or completed.
- Null arguments that the source dereferences without a check are not
  modelled. The model's parameter types rule these out. They are: a null
  amount for conversion, a null email or user name for `User`, a
  null repository for the authentication service, and a null selection list
  for zakat. Each would be a `NullPointerException`.
- Assets.ReadObject: a null id slot is rejected as an invalid object, where
  Java's `defaultReadObject` would accept a null id. A non-null id slot of
  another kind is a ClassCast, as in Java.
- Currency.CurrencyConversion.AddConversionRate: the rate table holds no
  nulls. In Java `addConversionRate(code, null)` stores a null, and
  `convert` then treats that code like an unknown one
  (`IllegalArgumentException`), which `calculateUserNetWorthInBase` counts
  as 0.
- Currency.CurrencyConversion.Convert: the conversion table is a static map
  in the source. Here it is an object passed to the service method that
  converts.
- AssetServices.CalculateValuation and AssetServices.CalculatePerformance
  take the list as record snapshots, not as live objects.
