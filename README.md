# Fleet inventory and sales trend estimator, in Dafny

This project models two parts of a fleet-management web application and proves
properties of them.

**The sales trend estimator** (`SalesPredictionService` and
`AdvancedSalesPredictionService`). Rows of per-day, per-product sales are handled in
these steps:

- grouped by product, in first-seen order;
- sorted by date within each group;
- smoothed with a trailing moving average of window 3;
- fitted with an ordinary least-squares line.

The next point of the line, clamped at 0, is the predicted daily sales. The slope
gives a trend (increasing, decreasing or stable). The smoothed series gives a
confidence score, and trend and confidence together pick one of six recommendation
texts. Figures are rounded to cents (`Math.round(x * 100) / 100`). The results are
ordered by predicted daily sales, largest first, by a stable sort.

The seasonal variant then looks at each product's rows by day of the week. A product
has a weekly pattern when its lowest positive daily average is below 80% of its
highest average. Such a product gets 0.1 more confidence, capped at 1, and a note
appended to its recommendation. Monthly seasonality is always false.

The model works as follows:
- Modules `SalesPrediction` and `AdvancedSalesPrediction` hold the estimator.
- Module `StableSort` models `Array.prototype.sort` as a stable insertion sort.
- Every step is a function. The loops of the source are methods proved equal to those
  functions: the moving average, the grouping into a map, the per-product loop and the
  seasonal pass.
- Numbers are exact rationals. `Math.sqrt` is a platform routine and is passed in as a
  parameter `sqrt`. The confidence bounds hold for any `sqrt`.
- `Math.round` is written out as `floor(v + 0.5)`, and empty `Math.min()` is
  +Infinity, as in the source. A series with mean 0 gets a variability score of 0.

**The fleet-inventory layer**. Employees are the rows of the `users` table. Devices are
the rows of the `Device` table, and each device may name an employee by an id
*string*. The two repositories talk to the ORM. The two services check their
arguments and call the repositories.

- Module `FleetStore` holds the rows and the errors the layer throws (with their
  messages). Its `class Database` holds both tables as sequences, newest row first (the
  `created_at desc` order the queries ask for), plus the user id sequence. Its `Valid()`
  says that primary keys are unique and that every user id was handed out by the
  sequence.
- Modules `EmployeeRepository`, `DeviceRepository`, `EmployeeService` and
  `DeviceService` follow the source files. Queries are functions of the tables. Writes
  are methods that take the `Database`, keep `Valid()` and state the new tables. The
  services also state every error, in the order the source checks for them.
- The JavaScript built-ins the layer relies on are written out in `Strings`: `trim`,
  `split(' ')` / `join(' ')`, `toLowerCase` (for the ASCII letters only), `includes`,
  `toString` of an id, and `parseInt`. `parseInt` skips leading whitespace, takes a sign, reads `0x` hex and
  otherwise a decimal digit prefix; anything else is NaN. A NaN key makes the ORM reject
  the query, modelled as the error `InvalidIdentifier`. A write to a key that does not
  exist fails with `RecordNotFound`.

The model makes four behaviours of the source explicit:

- **Two role sources**. The listings give the employee at position `i` the role
  `roles[i % 8]`. A lookup by id gives `roles[(id - 1) % 8]`. The two agree exactly
  when the position and the id agree modulo 8 (`RoleSourcesAgree`). A newly created
  employee is returned with the role it was created with: the role is not stored, so a
  later lookup shows the id-based role instead (`CreatedEmployeeFound`).
- **Two joins from device to employee**. The device listings find the employee through
  a map keyed by `user.id.toString()`. The single-device lookup goes through
  `parseInt(employeeId)`. The two agree on canonical decimal references
  (`FindByIdAgreesWithFindAll`). A zero-padded reference such as `"07"` disagrees:
  it names user 7 for the lookup and nobody for the listings
  (`PaddedReferenceShownByLookup`). The device service's user check accepts such a
  reference as an existing employee (`PaddedReferenceNamesUser`).
- **Deleting an employee leaves their devices pointing at a missing user**. The listings
  then show those devices without an employee (`DeletedUserUnlinked`).
- **The boundaries of the source's operations are parameters**. The ORM's generated
  device id is a parameter `freshId` that the caller guarantees unused. The
  repositories the services are built with are the ones of this model.

Three details of the estimator's code:

- **Weekly and monthly figures**. The code rounds `raw × 7` and `raw × 30` from the
  *unrounded* daily estimate, not from the rounded daily figure. They are therefore
  within 0.04 and 0.155 of 7× and 30× the rounded daily figure, but not always equal
  to them (`TrendPredictionFacts`).
- **The product name** comes from the earliest-dated row of the product's group
  (`PredictProductIdentity`), because the group is sorted by date before `data[0]` is
  read.
- **The seasonality check** includes days without rows as average 0 when taking the
  maximum. The minimum leaves out every non-positive average, not only empty days.

## Model

| member | source | states |
|---|---|---|
| Strings.TrimStart | src/services/device.service.ts:39 | Drops exactly the leading whitespace: the result is a suffix of the input, every character cut is whitespace, and the result is empty or starts with a non-whitespace character. |
| Strings.TrimEnd | src/services/device.service.ts:39 | Drops exactly the trailing whitespace: a prefix of the input, every character cut is whitespace, and the result is empty or ends in a non-whitespace character. |
| Strings.Trim | src/services/device.service.ts:55-56 | `trim()` is never longer than its input, and neither starts nor ends with whitespace; `TrimSpec` adds that exactly the leading and trailing whitespace is cut. |
| Strings.TrimSpec | src/services/device.service.ts:55-56 | `trim()` returns a contiguous slice of its input whose first and last characters are not whitespace, and everything it cuts off before and after that slice is whitespace. |
| Strings.TrimIdempotent | src/services/employee.service.ts:41-42 | Trimming an already trimmed string changes nothing. |
| Strings.BlankIffAllWhitespace | src/services/device.service.ts:39-44 | `!s.trim()` holds exactly when every character of `s` is whitespace. |
| Strings.Split | src/repositories/employee.repository.ts:50 | `split(' ')` always yields at least one piece. |
| Strings.Join | src/repositories/employee.repository.ts:51 | `join(' ')` puts one separator between neighbouring pieces; `JoinSplit` and `SplitJoin` state that it undoes `split`. |
| Strings.JoinConsHead | src/repositories/employee.repository.ts:51 | A character put in front of the first piece comes out in front of the join. |
| Strings.JoinSplit | src/repositories/employee.repository.ts:50-51 | Joining the pieces of a split with the separator gives back the original string. |
| Strings.SplitPiecesFree | src/repositories/employee.repository.ts:50 | No piece of a split contains the separator. |
| Strings.SplitJoin | src/repositories/employee.repository.ts:50-51 | Splitting the join of a non-empty list of separator-free pieces gives back the list. |
| Strings.SplitFree | src/repositories/employee.repository.ts:50 | A string without the separator splits into itself alone. |
| Strings.SplitAround | src/repositories/employee.repository.ts:50 | A separator-free `a`, the separator and then `b` split into `a` followed by the pieces of `b`. |
| Strings.ToLower | src/repositories/employee.repository.ts:57 | `toLowerCase` keeps the length and lowers each character independently. |
| Strings.ToLowerIdempotent | src/repositories/employee.repository.ts:117 | Lowering twice is lowering once, and a lowered string holds no capital letter. |
| Strings.Includes | src/repositories/employee.repository.ts:117 | `includes` is true exactly when the query occurs at some position. |
| Strings.ToDecimal | src/repositories/employee.repository.ts:23 | `id.toString()` is a non-empty run of digits, with a leading zero only for 0 itself. |
| Strings.DigitPrefix | src/repositories/employee.repository.ts:33 | The digits `parseInt` reads are the longest prefix of digits (hex digits after `0x`). |
| Strings.DecimalValueOfDecimal | src/repositories/employee.repository.ts:23 | The digits of `n.toString()` denote `n`. |
| Strings.ParseInt | src/repositories/employee.repository.ts:33 | `parseInt(s)`: leading whitespace skipped, one optional sign, `0x` hex or a decimal digit prefix, NaN (no value) without a digit; `ParseBlank`, `ParseDecimal` and `ZeroPaddedParses` state what it reads. |
| Strings.ParseBlank | src/repositories/employee.repository.ts:33 | A blank string parses to NaN. |
| Strings.ParseDecimal | src/repositories/employee.repository.ts:33 | `parseInt(n.toString())` is `n`. |
| Strings.DecimalInjective | src/repositories/employee.repository.ts:23 | Two ids have the same decimal string exactly when they are equal. |
| Strings.LeadingZeroValue | src/repositories/employee.repository.ts:33 | A leading zero does not change the value of a digit string. |
| Strings.ParseDigits | src/repositories/employee.repository.ts:33 | A non-empty digit string parses to its decimal value. |
| Strings.NoSpaceBeforeDigit | src/repositories/employee.repository.ts:33 | A string starting with a digit has no leading whitespace for `parseInt` to skip. |
| Strings.MagnitudeOfDigits | src/repositories/employee.repository.ts:33 | Without a sign, a digit string is read as decimal, wholly. |
| Strings.ZeroPaddedParses | src/repositories/employee.repository.ts:33 | `"0"` followed by `n.toString()` parses to `n`, yet is the `toString()` of no number. |
| FleetStore.FindUser | src/repositories/employee.repository.ts:32-34 | `findUnique` by id returns a row of the table with that id, or nothing when no row has it. |
| FleetStore.FindDevice | src/repositories/device.repository.ts:38-40 | `findUnique` by id returns a device of the table with that id, or nothing when none has it. |
| FleetStore.FindUserUnique | src/repositories/employee.repository.ts:32-34 | With unique keys, looking up a row's id returns that very row. |
| FleetStore.FindDeviceUnique | src/repositories/device.repository.ts:38-40 | With unique keys, looking up a device's id returns that very device. |
| FleetStore.Filter | src/repositories/employee.repository.ts:117 | `filter` keeps, in order, exactly the elements that pass the test. |
| FleetStore.FilterCount | src/repositories/employee.repository.ts:117 | An element that passes occurs in the result as often as in the input; one that fails does not occur. |
| FleetStore.FilterAll | src/repositories/employee.repository.ts:117 | A test every element passes keeps the whole list. |
| StableSort.Insert | sql/sales-prediction.ts:137 | Inserting into a sorted list keeps it sorted, adds exactly the one element, and puts the smaller of it and the old head first. |
| StableSort.Sort | sql/sales-prediction.ts:137 | The sort returns a permutation of its input, ordered by the key. |
| StableSort.SortStable | sql/sales-prediction.ts:188 | Elements with equal keys keep their relative order. |
| StableSort.FirstMinimal | sql/sales-prediction.ts:140 | The first element whose key no other element undercuts, with every element before it keyed strictly higher. |
| StableSort.SortHead | sql/sales-prediction.ts:137-140 | `data[0]` after the sort is the earliest element with the least key. |
| StableSort.InsertWithKey | sql/sales-prediction.ts:137 | Inserting an element leaves the order of each class of equal keys intact, adding it to its own class. |
| StableSort.PermutationKeepsKeysDistinct | sql/sales-prediction.ts:188 | Reordering a list whose elements have distinct keys leaves the keys distinct. |
| SalesPrediction.MaxOf | sql/sales-prediction.ts:84 | `Math.max(...s)` is an element of `s` and no element exceeds it. |
| SalesPrediction.MinOf | sql/sales-prediction.ts:85 | `Math.min(...s)` is an element of `s` and no element is below it. |
| SalesPrediction.SumBounds | sql/sales-prediction.ts:37 | A sum of values in `[lo, hi]` lies between `n·lo` and `n·hi`. |
| SalesPrediction.MeanBounds | sql/sales-prediction.ts:55 | A mean of values in `[lo, hi]` lies in `[lo, hi]`. |
| SalesPrediction.Round2 | sql/sales-prediction.ts:180-183 | Rounding to cents moves a value by at most half a cent. |
| SalesPrediction.Round2Monotone | sql/sales-prediction.ts:180 | Rounding to cents preserves order. |
| SalesPrediction.Round2Grid | sql/sales-prediction.ts:180 | A value already in whole cents is left alone. |
| SalesPrediction.Round2Nonnegative | sql/sales-prediction.ts:180 | Rounding a non-negative value gives a non-negative value. |
| SalesPrediction.MovingAverage | sql/sales-prediction.ts:50-59 | The smoothed series has one value per input value. |
| SalesPrediction.MovingAverageHead | sql/sales-prediction.ts:53-55 | The first smoothed value is the first raw value. |
| SalesPrediction.MovingAverageWithin | sql/sales-prediction.ts:50-59 | Smoothing never leaves the range of the raw values. |
| SalesPrediction.CalculateMovingAverage | sql/sales-prediction.ts:50-59 | The loop pushes, for each position, the mean of the trailing window starting at `max(0, i - window + 1)`. |
| SalesPrediction.SumIdxClosed | sql/sales-prediction.ts:36 | `Σx` over the indexes `0..n-1` is `n(n-1)/2`. |
| SalesPrediction.SumSqIdxClosed | sql/sales-prediction.ts:39 | `Σx²` over the indexes is `n(n-1)(2n-1)/6`. |
| SalesPrediction.DenominatorPositive | sql/sales-prediction.ts:41 | The regression denominator `n·Σx² − (Σx)²` is `n²(n²−1)/12`, positive for two or more points, so the slope is always defined. |
| SalesPrediction.CalculateLinearRegression | sql/sales-prediction.ts:32-45 | Fewer than two points give slope 0, and intercept `data[0]` for one point or 0 for none. |
| SalesPrediction.SumOfLine | sql/sales-prediction.ts:37 | The values of a line `a + b·i` sum to `n·a + b·Σi`. |
| SalesPrediction.SumXYOfLine | sql/sales-prediction.ts:38 | For a line `a + b·i`, `Σ i·y` is `a·Σi + b·Σi²`. |
| SalesPrediction.LineAlgebra | sql/sales-prediction.ts:41-42 | The least-squares formulas, fed the sums of the line `a + b·i`, return slope `b` and intercept `a`. |
| SalesPrediction.FitFromSums | sql/sales-prediction.ts:41-42 | The fit of `n ≥ 2` index points with a line's two sums is that line. |
| SalesPrediction.ExactLineFit | sql/sales-prediction.ts:32-45 | Two or more points lying exactly on a line are fitted by that very line. |
| SalesPrediction.GetTrend | sql/sales-prediction.ts:64-68 | Increasing exactly when the slope exceeds 0.1, decreasing exactly when it is below −0.1, stable exactly otherwise. |
| SalesPrediction.CalculateConfidence | sql/sales-prediction.ts:73-89 | 0.3 for fewer than three points, otherwise a score in `[0.15, 1]`, whatever `sqrt` returns. |
| SalesPrediction.ConstantSeriesConfidence | sql/sales-prediction.ts:73-89 | A constant positive series, predicted at its own level, scores full confidence. |
| SalesPrediction.ZeroDeviations | sql/sales-prediction.ts:77 | A constant series has no squared deviation from its value. |
| SalesPrediction.GenerateRecommendation | sql/sales-prediction.ts:94-117 | Below 0.4 the insufficient-data text. Otherwise the stable text for a stable trend, and for a rising or falling trend the strong text above 0.7 and the moderate one otherwise. |
| SalesPrediction.RecommendationsDistinct | sql/sales-prediction.ts:99-115 | The six recommendation texts are pairwise different, so the text tells which case was taken. |
| SalesPrediction.DistinctIds | sql/sales-prediction.ts:124-131 | The grouping lists no product twice. |
| SalesPrediction.DistinctIdsMember | sql/sales-prediction.ts:124-131 | A product is listed exactly when some row carries it, exactly when its group is non-empty. |
| SalesPrediction.RowsOfSpec | sql/sales-prediction.ts:126-131 | A product's group holds exactly the rows of that product, each no more often than in the input. |
| SalesPrediction.GroupByProduct | sql/sales-prediction.ts:124-131 | The `forEach` builds a map whose keys are exactly the products, in first-seen order, each mapped to its group. |
| SalesPrediction.DailySales | sql/sales-prediction.ts:139 | `data.map(d => d.daily_sales)` keeps length and position. |
| SalesPrediction.NextValue | sql/sales-prediction.ts:164-165 | `Math.max(0, slope * nextIndex + intercept)`: the line one step past the data, floored at 0; `TrendPredictionFacts` states the non-negative result. |
| SalesPrediction.PredictProduct | sql/sales-prediction.ts:136-185 | The loop body for one product: sort by date, take the name of `data[0]`, the one-row branch, else smoothing and the trend branch; `SingleRowPrediction`, `PredictionBounds` and `PredictProductIdentity` state its results. |
| SalesPrediction.TrendPrediction | sql/sales-prediction.ts:157-185 | Regression on the smoothed series, the next value, trend, confidence and text, rounded to cents; `TrendPredictionFacts` states its bounds. |
| SalesPrediction.Predictions | sql/sales-prediction.ts:188 | The per-product predictions sorted by daily sales, one per distinct product. |
| SalesPrediction.PredictionIdsDistinct | sql/sales-prediction.ts:135-188 | No two predictions carry the same product id. |
| SalesPrediction.PredictOne | sql/sales-prediction.ts:136-185 | One pass of the product loop computes the product's prediction. |
| SalesPrediction.PredictSales | sql/sales-prediction.ts:122-189 | The whole routine returns the sorted per-product predictions of its input. |
| SalesPrediction.PredictProductIdentity | sql/sales-prediction.ts:140 | A prediction carries its product's id and the name of the product's earliest-dated row. |
| SalesPrediction.SingleRowPrediction | sql/sales-prediction.ts:142-154 | A product with one row is stable, predicts that row's sales (×7, ×30), has confidence 0.2 and the insufficient-history text. |
| SalesPrediction.TrendPredictionFacts | sql/sales-prediction.ts:157-185 | The daily figure is non-negative. Weekly and monthly lie within 0.04 and 0.155 of 7× and 30× daily. Confidence is 0.3 with the insufficient-data text below three points, else in `[0.15, 1]`. The text is one that fits the trend. |
| SalesPrediction.PredictionBounds | sql/sales-prediction.ts:157-185 | The same facts for every product with at least two rows. |
| SalesPrediction.ConstantSalesPrediction | sql/sales-prediction.ts:157-185 | Constant positive sales over three or more days give a stable trend, that level rounded to cents, full confidence and the stable text. |
| SalesPrediction.ProductPredictions | sql/sales-prediction.ts:133-186 | One prediction per distinct product. |
| SalesPrediction.ProductPredictionsIds | sql/sales-prediction.ts:135 | Before the final sort, predictions come in first-seen product order. |
| SalesPrediction.PredictionsOrdered | sql/sales-prediction.ts:188 | The result is ordered by predicted daily sales, largest first. |
| SalesPrediction.DistinctIdsAreRowIds | sql/sales-prediction.ts:124-131 | The products grouped are exactly the products of the input rows. |
| SalesPrediction.PredictionsOnePerProduct | sql/sales-prediction.ts:122-189 | Exactly one prediction per product of the input, no product twice, each computed from all of that product's rows. |
| SalesPrediction.PredictionsFromOwnRows | sql/sales-prediction.ts:135-188 | Each sorted prediction is the prediction of its own product's non-empty group. |
| SalesPrediction.PredictionsTiesInInputOrder | sql/sales-prediction.ts:188 | Predictions with equal daily sales keep their first-seen product order. |
| SalesPrediction.SortStableDesc | sql/sales-prediction.ts:188 | The descending sort keeps the order within each class of equal daily sales. |
| AdvancedSalesPrediction.WeeklyAverages | sql/sales-prediction.ts:230-232 | One average per day of the week. |
| AdvancedSalesPrediction.Positives | sql/sales-prediction.ts:236 | `filter(v => v > 0)` keeps exactly the positive averages. |
| AdvancedSalesPrediction.HasWeeklyPattern | sql/sales-prediction.ts:235-237 | `(max - min) / max > 0.2` over the day averages, with the IEEE outcome when no average is positive; `WeeklyPatternCriterion` states it as a comparison. |
| AdvancedSalesPrediction.WeeklyPatternCriterion | sql/sales-prediction.ts:235-237 | When some day averages above 0, there is a pattern exactly when the lowest positive average is below 80% of the highest. |
| AdvancedSalesPrediction.PatternAtPositiveMax | sql/sales-prediction.ts:235-237 | The same criterion given a positive maximum. |
| AdvancedSalesPrediction.RatioCriterion | sql/sales-prediction.ts:237 | For a positive maximum, a spread above 0.2 means exactly a minimum below 0.8 of the maximum. |
| AdvancedSalesPrediction.DetectSeasonality | sql/sales-prediction.ts:218-243 | The bucketing loop reports the weekly pattern of the day averages, and never a monthly one. |
| AdvancedSalesPrediction.ConstantSalesNoWeeklyPattern | sql/sales-prediction.ts:218-237 | Constant positive sales show no weekly pattern, however the days are spread. |
| AdvancedSalesPrediction.NoPatternAtOneLevel | sql/sales-prediction.ts:235-237 | Averages that are all 0 or one level `c` show no pattern. |
| AdvancedSalesPrediction.ConstantBucket | sql/sales-prediction.ts:223-227 | With constant sales, a day's total is its row count times that level. |
| AdvancedSalesPrediction.Adjust | sql/sales-prediction.ts:265-273 | The adjustment keeps id, name, trend and every sales figure. With a weekly pattern it appends the note and raises confidence to `min(1, c + 0.1)`, which lies between `c` and 1 for `c <= 1`; without one it changes nothing. |
| AdvancedSalesPrediction.SeasonalityOf | sql/sales-prediction.ts:262-263 | The seasonality of a product's rows: never a monthly pattern, and no weekly pattern for a product without rows (`|| []`). |
| AdvancedSalesPrediction.NoRowsNoPattern | sql/sales-prediction.ts:262-263 | No rows give seven zero averages and no weekly pattern. |
| AdvancedSalesPrediction.AdjustAll | sql/sales-prediction.ts:261-274 | One adjusted prediction per basic prediction. |
| AdvancedSalesPrediction.AdjustOne | sql/sales-prediction.ts:262-273 | The map callback adjusts a prediction by its own product's seasonality. |
| AdvancedSalesPrediction.AdjustPredictions | sql/sales-prediction.ts:261-274 | The map of the seasonal pass adjusts each prediction in place of its position. |
| AdvancedSalesPrediction.PredictSalesWithSeasonality | sql/sales-prediction.ts:248-275 | The seasonal routine returns the seasonally adjusted predictions of its input. |
| AdvancedSalesPrediction.SeasonalPredictions | sql/sales-prediction.ts:248-275 | The basic predictions, each adjusted by its own product's seasonality; `SeasonalPredictionsKeepBasic` states it. |
| AdvancedSalesPrediction.SeasonalPredictionsKeepBasic | sql/sales-prediction.ts:248-275 | The seasonal result adjusts the basic one position by position, and stays ordered by daily sales with one entry per product. |
| EmployeeRepository.RoleAt | src/repositories/employee.repository.ts:25 | A position-based role is one of the eight role names. |
| EmployeeRepository.IdRole | src/repositories/employee.repository.ts:43 | An id-based role is one of the eight role names. |
| EmployeeRepository.RolesDistinct | src/repositories/employee.repository.ts:20 | The eight role names are pairwise different. |
| EmployeeRepository.ToEmployee | src/repositories/employee.repository.ts:40-46 | The entity's id is the decimal string of the row's id and reads back with `parseInt` as that id; its name is the two name columns joined by a space. |
| EmployeeRepository.FindAll | src/repositories/employee.repository.ts:15-29 | One employee per user, in table order, with the decimal string of the row's id, the row's name and one of the roles. |
| EmployeeRepository.FindAllRoles | src/repositories/employee.repository.ts:22-25 | The listed employee at position `i` has `roles[i % 8]`. |
| EmployeeRepository.FindById | src/repositories/employee.repository.ts:31-47 | An id `parseInt` cannot read fails, exactly. Otherwise nothing when no user has that id, and else that user with the id-based role. |
| EmployeeRepository.FindByIdOfListed | src/repositories/employee.repository.ts:15-47 | Looking up a listed employee's id finds the same user, with the id-based role. |
| EmployeeRepository.RoleSourcesAgree | src/repositories/employee.repository.ts:25 | The listing's role equals the lookup's role exactly when the position and the id agree modulo 8. |
| EmployeeRepository.FindByRole | src/repositories/employee.repository.ts:101-118 | Keeps, in listing order, exactly the listed employees whose lowered role includes the lowered query, each as often as it is listed. |
| EmployeeRepository.FindByEmptyRole | src/repositories/employee.repository.ts:117 | An empty query matches everyone. |
| EmployeeRepository.FindByRoleIgnoresCase | src/repositories/employee.repository.ts:117 | A query and its lower-case form find the same employees. |
| EmployeeRepository.SplitName | src/repositories/employee.repository.ts:50-51 | The first piece of `split(' ')` and the rest joined by spaces; `NameRoundTrip` states what they are. |
| EmployeeRepository.NameRoundTrip | src/repositories/employee.repository.ts:50-51 | The first name has no space. A name with a space is the first name, a space and the last name; a name without one is all first name. |
| EmployeeRepository.Email | src/repositories/employee.repository.ts:57 | The lowered first and last name, joined by a dot, followed by `@company.com`; `EmailShape` and `EmailIgnoresCase` state its properties. |
| EmployeeRepository.EmailShape | src/repositories/employee.repository.ts:57 | The address has no capital letter and ends in `@company.com`. |
| EmployeeRepository.EmailIgnoresCase | src/repositories/employee.repository.ts:57 | Names differing only in case get the same address. |
| EmployeeRepository.Rename | src/repositories/employee.repository.ts:73-82 | Renaming changes only the name columns of the user with that id, to the split of the new name, and keeps the keys unique. |
| EmployeeRepository.RenameKeepsBound | src/repositories/employee.repository.ts:79-82 | Renaming hands out no new id. |
| EmployeeRepository.RenameLookup | src/repositories/employee.repository.ts:79-82 | After renaming a row, its id still finds exactly that row, and the keys stay unique. |
| EmployeeRepository.RemoveUser | src/repositories/employee.repository.ts:95-99 | Deleting keeps, in order, exactly the users with another id, each as often as before. |
| EmployeeRepository.RemoveUserAt | src/repositories/employee.repository.ts:95-99 | With unique keys, deleting a user's id cuts out exactly that one row. |
| EmployeeRepository.RemoveUserKeepsDistinct | src/repositories/employee.repository.ts:95-99 | Deleting keeps the keys unique. |
| EmployeeRepository.RemoveNewestUser | src/repositories/employee.repository.ts:95-99 | Deleting the newest user's id leaves the older users. |
| EmployeeRepository.RemoveMissingUser | src/repositories/employee.repository.ts:95-99 | Deleting an id no user has changes nothing. |
| EmployeeRepository.Create | src/repositories/employee.repository.ts:49-68 | Adds the newest user, with the next id and the split name, and returns it with the role it was given. |
| EmployeeRepository.Update | src/repositories/employee.repository.ts:70-93 | An unreadable id fails, then a missing user (nothing changes). Otherwise a given non-empty name renames that user, and the result has the given role if non-empty, else the id-based one. |
| EmployeeRepository.Delete | src/repositories/employee.repository.ts:95-99 | An unreadable id fails, then a missing user (nothing changes). Otherwise exactly that user goes. |
| EmployeeRepository.FindWithDevicesCount | src/repositories/employee.repository.ts:120-146 | Each listed employee, with the number of devices whose reference is its id string. |
| EmployeeRepository.UnassignedCountsForNobody | src/repositories/employee.repository.ts:130 | A device without a reference, or with the empty one, is counted for nobody. |
| EmployeeRepository.HitsAtMostOne | src/repositories/employee.repository.ts:138-145 | With unique keys, a device is counted for at most one employee. |
| EmployeeRepository.CountsAtMostDevices | src/repositories/employee.repository.ts:129-145 | The counts add up to at most the number of devices. |
| DeviceRepository.UserByKey | src/repositories/device.repository.ts:23 | The map keyed by `id.toString()` finds a user whose id string is the key, or reports that none has it. |
| DeviceRepository.Attach | src/repositories/device.repository.ts:27-34 | A listed device carries an employee exactly when its reference is some user's id string, and then that user's name and id-based role. |
| DeviceRepository.AttachAll | src/repositories/device.repository.ts:27-34 | The join keeps every device in its place, and entry `i` is `Attach` of device `i`: the reference as id, the user's full name and the id-based role. |
| DeviceRepository.FindAll | src/repositories/device.repository.ts:16-35 | Every device in table order, with an employee exactly when the reference names one; that employee carries the reference as id, the user's `first + " " + last` and `roles[(id-1) % 8]` (each entry is `Attach` of its device). |
| DeviceRepository.FindByType | src/repositories/device.repository.ts:84-108 | Keeps, in order, exactly the devices whose type contains the query, each as often as in the table and joined as the listing joins it. |
| DeviceRepository.FindByEmptyType | src/repositories/device.repository.ts:84-92 | An empty query finds the whole listing. |
| DeviceRepository.FindById | src/repositories/device.repository.ts:37-63 | Nothing exactly when no device has the id. It fails with `InvalidIdentifier` exactly when the device's reference is non-empty and `parseInt` reads NaN from it. Otherwise it returns the device, and the employee is absent exactly when the reference is null, empty, or a number no user has. A present employee carries the reference, the full name of the user `parseInt` finds and that user's id role. |
| DeviceRepository.FindByIdAgreesWithFindAll | src/repositories/device.repository.ts:16-63 | For a canonical reference, the lookup returns exactly the listing's entry. |
| DeviceRepository.CanonicalAttach | src/repositories/device.repository.ts:23-34 | A reference that is the decimal string of `n` parses to `n`, and the listing's join then shows the user with id `n`, or no one when there is none. |
| DeviceRepository.PaddedReferenceNamesUser | src/repositories/employee.repository.ts:31-47 | An employee lookup by a zero-padded id finds that user. |
| DeviceRepository.PaddedReferenceHiddenInListing | src/repositories/device.repository.ts:29 | The listings show no employee for a zero-padded reference. |
| DeviceRepository.PaddedReferenceShownByLookup | src/repositories/device.repository.ts:45-56 | The same device shows its employee when looked up by id. |
| DeviceRepository.FindByUserId | src/repositories/device.repository.ts:110-115 | Keeps, in order, exactly the devices whose reference is the given string, each as often as in the table. |
| DeviceRepository.FindUnassigned | src/repositories/device.repository.ts:117-127 | Keeps, in order, exactly the devices with no reference, each as often as in the table and without an employee. |
| DeviceRepository.ReplaceDevice | src/repositories/device.repository.ts:71-76 | Updating patches only the device with that id and keeps every id, so the keys stay unique. |
| DeviceRepository.ApplyPatch | src/repositories/device.repository.ts:71-76 | `update` with `data` keeps the id and replaces each field the patch gives, keeping the others. |
| DeviceRepository.RemoveDevice | src/repositories/device.repository.ts:78-82 | Deleting keeps, in order, exactly the devices with another id, each as often as before. |
| DeviceRepository.RemoveDeviceAt | src/repositories/device.repository.ts:78-82 | With unique keys, deleting a device's id cuts out exactly that one row. |
| DeviceRepository.RemoveDeviceKeepsDistinct | src/repositories/device.repository.ts:78-82 | Deleting keeps the keys unique. |
| DeviceRepository.RemoveNewestDevice | src/repositories/device.repository.ts:78-82 | Deleting the newest device's id leaves the older devices. |
| DeviceRepository.RemoveMissingDevice | src/repositories/device.repository.ts:78-82 | Deleting an id no device has changes nothing. |
| DeviceRepository.Create | src/repositories/device.repository.ts:65-69 | Adds the new device, with the given fields and a fresh id, as the newest row. |
| DeviceRepository.Update | src/repositories/device.repository.ts:71-76 | A missing device fails and nothing changes. Otherwise that device is patched and returned. |
| DeviceRepository.Delete | src/repositories/device.repository.ts:78-82 | A missing device fails and nothing changes. Otherwise exactly that device goes. |
| DeviceRepository.DeletedUserUnlinked | src/repositories/device.repository.ts:29 | Once a user is deleted, a device referring to them is listed without an employee. |
| DeviceService.TrimmedIsTidy | src/services/device.service.ts:55-56 | A trimmed non-blank text is non-blank and trimmed. |
| DeviceService.UserCheck | src/services/device.service.ts:47-52 | No complaint exactly when the reference is absent or empty, or names an existing user. Unreadable references fail exactly with the ORM's error; other complaints are "User not found". |
| DeviceService.GetAllDevices | src/services/device.service.ts:27-29 | The repository listing, every device in table order. |
| DeviceService.GetDeviceById | src/services/device.service.ts:31-36 | An empty id is refused; otherwise the repository lookup, which returns a device with that id. |
| DeviceService.SearchDevicesByType | src/services/device.service.ts:113-118 | A blank query lists everything; otherwise the devices whose type contains the trimmed query. |
| DeviceService.GetDevicesByUser | src/services/device.service.ts:120-125 | Refused exactly for an empty user id; otherwise the devices referring to that string. |
| DeviceService.GetUnassignedDevices | src/services/device.service.ts:127-129 | The devices with no reference. |
| DeviceService.CreateDevice | src/services/device.service.ts:38-59 | A blank name is refused, then a blank type, then the user check's complaint; nothing changes then. Otherwise it adds a device with trimmed name and type. |
| DeviceService.TrimmedPatch | src/services/device.service.ts:71-95 | The patch passed on has the given name and type trimmed and the reference unchanged. |
| DeviceService.PatchError | src/services/device.service.ts:73-95 | A given blank name is refused first, then a given blank type, then the user check on a given reference. No complaint exactly when none of these applies. |
| DeviceService.PatchKeepsTidy | src/services/device.service.ts:71-97 | An accepted patch keeps a device's name and type trimmed and non-blank. |
| DeviceService.UpdateDevice | src/services/device.service.ts:61-98 | An empty id is refused, then a failing or empty lookup, then the patch's complaint; nothing changes then. Otherwise the device is patched with the trimmed patch. |
| DeviceService.DeleteDevice | src/services/device.service.ts:100-111 | An empty id is refused, then a failing or empty lookup; otherwise exactly that device goes. |
| DeviceService.AssignDeviceToUser | src/services/device.service.ts:131-150 | Refusals come in order: empty device id, empty user id, failing or empty device lookup, then the user check. Otherwise only the device's reference becomes the user id. |
| DeviceService.UnassignDevice | src/services/device.service.ts:152-163 | An empty id is refused, then a failing or empty lookup; otherwise only the device's reference is cleared. |
| DeviceService.AssignedDeviceListedForUser | src/services/device.service.ts:149 | After an assignment the device is among that user's devices and no longer among the unassigned ones. |
| DeviceService.UnassignedDeviceListed | src/services/device.service.ts:162 | After an unassignment the device is among the unassigned ones and among nobody's devices. |
| DeviceService.AssignmentShownInListing | src/services/device.service.ts:149 | Assigning a device to an existing user's id shows that user, with the id-based role, in the listing. |
| EmployeeService.GetAllEmployees | src/services/employee.service.ts:21-23 | The repository listing, one employee per user in table order. |
| EmployeeService.GetEmployeeById | src/services/employee.service.ts:25-30 | An empty id is refused; otherwise the repository lookup, which finds only a user whose id the string reads as. |
| EmployeeService.SearchEmployeesByRole | src/services/employee.service.ts:86-91 | A blank query lists everyone; otherwise the employees whose role matches the trimmed query. |
| EmployeeService.GetEmployeesWithDevicesCount | src/services/employee.service.ts:93-95 | Each listed employee with the number of devices referring to its id string. |
| EmployeeService.CreateEmployee | src/services/employee.service.ts:32-44 | A blank name, and then a blank role, is refused with nothing changed. Otherwise a new newest user with the trimmed name, returned with the trimmed role. |
| EmployeeService.TrimGiven | src/services/employee.service.ts:61 | A given field stays given, trimmed, and a non-blank one stays truthy. |
| EmployeeService.DataError | src/services/employee.service.ts:56-68 | A given blank name is refused first, then a given blank role; no complaint exactly otherwise. |
| EmployeeService.UpdateEmployee | src/services/employee.service.ts:46-71 | An empty id is refused, then a failing or empty lookup, then the data's complaint; nothing changes then. Otherwise the user is renamed with the trimmed name, and the result has the trimmed role if given, else the id-based one. |
| EmployeeService.DeleteEmployee | src/services/employee.service.ts:73-84 | An empty id is refused, then a failing or empty lookup; otherwise exactly that user goes, and the devices are untouched. |
| EmployeeService.CreatedEmployeeFound | src/services/employee.service.ts:40-43 | A created employee is found under its new id with the id-based role, not the role it was created with. |
| EmployeeService.CreatedEmployeeListedFirst | src/repositories/employee.repository.ts:15-25 | A created employee heads the listing with the first role name. |
| EmployeeService.DeletedEmployeeGone | src/services/employee.service.ts:83 | After a delete, the same id finds no one. |

## Left out

- Floating point: numbers are exact rationals, so IEEE rounding, overflow and the binary representation of cents are not modelled.
- `Math.sqrt` is a parameter. The confidence bounds hold for any function, and the constant-series lemmas only assume `sqrt(0) = 0`.
- SalesPrediction.CalculateConfidence: when the smoothed series has three or more values, all 0, the source computes `0/0` (sql/sales-prediction.ts:81), and `Math.max(0, NaN)` makes the confidence NaN. `NaN < 0.4` is false, so the source then gives the trend's text, "Stable sales pattern…", with a NaN score. The model takes the variability score to be 0 when the mean is 0. So it gives confidence 0.3 and "Insufficient data…" for such a series: both the score and the recommendation text differ from the source.
- Dates: each row carries a day number and its day of the week in place of the date string. `new Date(...)` parsing and time zones are not modelled.
- `async`/`await`: every operation is taken to run alone on the store, and concurrent requests are not modelled.
- The query `SALES_DATA_QUERY`, the database driver `salesPredictionAlgorithm` (sql/sales-prediction.ts:311-356: opening the SQLite file, filtering the query by product ids and period, choosing the service) and the example driver `runSalesPrediction` are not modelled. The estimator starts from the rows the query would return.
- Strings.ToLower: lowers only the ASCII letters `A`-`Z`. The Unicode case mapping of `toLowerCase` for other letters (accented letters, for instance) is not modelled.
- Strings: a string is a sequence of Unicode scalar values, while JavaScript strings are sequences of UTF-16 code units. Lengths and positions differ for characters outside the Basic Multilingual Plane, and lone surrogates cannot occur.
- The ORM: each table is a sequence in the `created_at desc` order the queries ask for. The following are not modelled:
  - the order of rows created at the same instant;
  - timestamps (`createdAt`, `updatedAt`);
  - the database's 32-bit integer range;
  - foreign keys;
  - the uniqueness of e-mail addresses, since the schema is not part of this model.
- The ORM's refusal of a NaN key is modelled as the one error `InvalidIdentifier`, and its error for a missing row on `update`/`delete` as `RecordNotFound`. Their exact wording is not modelled.
- DeviceRepository.FindByType: the ORM's `contains` is modelled as a case-sensitive substring test. Case handling by the SQLite `LIKE` operator is not modelled.
- DeviceRepository.Create: the generated id of a new device is the parameter `freshId`, which the caller guarantees unused. The id generator itself is not modelled.
- Fields typed as strings are never `undefined` or `null` where the types say they are given. The `?.` guards of the services are modelled only for the optional fields.
- The service constructors and their dependency injection are not modelled: the services use this model's repositories.
- HTTP routes, UI pages, DTO validation, seeding and the test files are outside the modelled core.
