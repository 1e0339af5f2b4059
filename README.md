# Payment queries

A model of `PaymentService`, a stateless query layer over a list of payments.
Each payment has a date, a user and a list of items. Each item has a name, a
regular price and a final price. Every query fetches all payments from a
`PaymentRepository` and then does one of these things:

- sorts them by date, latest first;
- picks those of the current month, of a given month, or of the last few days;
- picks those with exactly one item;
- collects the names of the products sold in the current month;
- adds up the final prices, or the discounts, of a month's items;
- lists the items bought by the user with a given e-mail address, ignoring case;
- picks the payments whose total is over a threshold.

The model is in six modules:

- `Streams` (`streams.dfy`) holds the stream operations the queries are built from:
  - `filter` is `Filter`; `flatMap` is `FlatMap`; `map` is `MapSeq`;
  - `reduce` from zero with addition is `Sum`;
  - `collect(toSet())` is `ToSet`; collecting to a list keeps the sequence.
- `StableSort` (`stable_sort.dfy`) is a stable sort into descending order of an integer key.
- `CaseFold` (`case_fold.dfy`) is `String.equalsIgnoreCase` over ASCII letters.
- `Payments` (`payments.dfy`) holds the records and the clock as immutable values.
- `PaymentService` (`payment_service.dfy`) holds the ten queries and what is proved about them.
- `PaymentScenarios` (`scenarios.dfy`) works through concrete cases.

The repository and the clock are parameters. `findAll()` becomes the snapshot
`payments: seq<Payment>`. `DateTimeProvider` becomes one
`Clock(yearMonthNow, zonedDateTimeNow)` value per query. The stream pipelines
are functions. `findPaymentsWithValueOver` adds up prices in a `for` loop, so
it is a method. Its loop is proved to compute the same sum as the pure
function `SumFinal`.

Representation choices:

- `BigDecimal` amounts are exact integers counted in hundredths (`MinorPerUnit = 100`).
- A `ZonedDateTime` is a `PaymentDate(year, month, instant)`.
  - `instant` is in nanoseconds since the epoch.
  - `compareTo` and `isAfter` compare the epoch second and then the nano-of-second, so they compare instants.
  - `plusDays(d)` adds `d * 86_400_000_000_000` nanoseconds.
- `Set<...>` results are Dafny `set`s, which use value equality.

Two facts about the source shape the model:

- `findPaymentsForCurrentMonth` returns a `List` in source order.
- `Stream.sorted` is stable on an ordered stream, so payments with equal dates keep their
  source order. The model proves this, and proves that a stable descending sort has only one
  possible result.

## Model

| member | source | states |
|---|---|---|
| `Streams.Filter` | src/main/java/pl/javastart/streamsexercise/PaymentService.java:39-42 | `filter` then `collect(toList())`: an element is in the result iff it is in the input and passes the test; the result is no longer than the input |
| `Streams.FilterCounts` | src/main/java/pl/javastart/streamsexercise/PaymentService.java:39-42 | every passing element is kept exactly as often as it occurs, every failing one is dropped |
| `Streams.FilterIsSubsequence` | src/main/java/pl/javastart/streamsexercise/PaymentService.java:39-42 | the filtered list keeps the source order (it is a subsequence of the input) |
| `Streams.FilterUnique` | src/main/java/pl/javastart/streamsexercise/PaymentService.java:39-42 | an order-keeping subsequence with exactly the passing elements and their multiplicities is the filter result |
| `Streams.FilterFilter` | src/main/java/pl/javastart/streamsexercise/PaymentService.java:40-41 | two chained filters equal one filter on the conjunction of their tests |
| `Streams.FilterConcat` | src/main/java/pl/javastart/streamsexercise/PaymentService.java:76-78 | filtering a concatenation concatenates the filtered parts |
| `Streams.FlatMap` | src/main/java/pl/javastart/streamsexercise/PaymentService.java:79-84 | `flatMap`: an item is in the result iff it belongs to one of the input elements' lists |
| `Streams.MapSeq` | src/main/java/pl/javastart/streamsexercise/PaymentService.java:70 | `map(f)`, as also at lines 85 and 105: the result is as long as the input and holds `f` of each element at the same position |
| `Streams.FlatMapLength` | src/main/java/pl/javastart/streamsexercise/PaymentService.java:118-124 | the flattened list is as long as the sum of the parts' lengths |
| `Streams.Sum` | src/main/java/pl/javastart/streamsexercise/PaymentService.java:86-91 | `reduce(0, add)` as a left fold from zero; the sum of non-negative values is non-negative |
| `Streams.SumConcat` | src/main/java/pl/javastart/streamsexercise/PaymentService.java:86-91 | the sum of a concatenation is the sum of the two sums |
| `Streams.SumOverFlatMap` | src/main/java/pl/javastart/streamsexercise/PaymentService.java:79-91 | summing over a flattened list equals summing the per-element sums |
| `Streams.SumDifference` | src/main/java/pl/javastart/streamsexercise/PaymentService.java:105-111 | the sum of pointwise differences is the difference of the sums |
| `Streams.ToSet` | src/main/java/pl/javastart/streamsexercise/PaymentService.java:56 | `collect(toSet())`: exactly the elements of the list, each once; no larger than the list |
| `StableSort.SortDesc` | src/main/java/pl/javastart/streamsexercise/PaymentService.java:24-26 | `sorted` with a negated key comparison returns a permutation of its input in descending key order |
| `StableSort.SortDescStable` | src/main/java/pl/javastart/streamsexercise/PaymentService.java:24-26 | elements with equal keys keep their input order |
| `StableSort.StableSortUnique` | src/main/java/pl/javastart/streamsexercise/PaymentService.java:24-26 | permutation, descending order and kept tie order together determine the result, whatever the sorting algorithm |
| `CaseFold.CharEqualsIgnoreCaseIsUpperEquality` | src/main/java/pl/javastart/streamsexercise/PaymentService.java:117 | the per-character test of `equalsIgnoreCase` holds iff the upper-case forms are equal |
| `CaseFold.EqualsIgnoreCaseSymmetric` | src/main/java/pl/javastart/streamsexercise/PaymentService.java:117 | case-insensitive equality is symmetric |
| `CaseFold.EqualsIgnoreCaseTransitive` | src/main/java/pl/javastart/streamsexercise/PaymentService.java:117 | case-insensitive equality is transitive |
| `PaymentService.PaymentsOfMonth` | src/main/java/pl/javastart/streamsexercise/PaymentService.java:77-78 | the year filter followed by the month filter selects the payments whose date is in the month |
| `PaymentService.FindPaymentsSortedByDateDesc` | src/main/java/pl/javastart/streamsexercise/PaymentService.java:22-27 | the result is a permutation of the payments, and each date is at or after the next one |
| `PaymentService.SortedByDateDescKeepsTies` | src/main/java/pl/javastart/streamsexercise/PaymentService.java:24-26 | payments at the same instant come out in their source order |
| `PaymentService.SortedByDateDescIsTheStableSort` | src/main/java/pl/javastart/streamsexercise/PaymentService.java:24-26 | every stable sort of the payments by descending date gives this result |
| `PaymentService.AdjacentOrderIsSorted` | src/main/java/pl/javastart/streamsexercise/PaymentService.java:25 | if each date is at or after the next, then every date is at or after every later one |
| `PaymentService.FindPaymentsForGivenMonth` | src/main/java/pl/javastart/streamsexercise/PaymentService.java:37-43 | the month's payments, in source order, each as often as in the input, and no other payment |
| `PaymentService.GivenMonthIsTheMonthSelection` | src/main/java/pl/javastart/streamsexercise/PaymentService.java:37-43 | only one sequence has those properties: nothing added, dropped or reordered |
| `PaymentService.FindPaymentsForCurrentMonth` | src/main/java/pl/javastart/streamsexercise/PaymentService.java:29-35 | with the clock fixed, the result equals `FindPaymentsForGivenMonth` for the clock's year and month |
| `PaymentService.FindPaymentsForGivenLastDays` | src/main/java/pl/javastart/streamsexercise/PaymentService.java:45-50 | the payments, in source order, whose date plus `days` days is strictly after now, each as often as in the input |
| `PaymentService.LastDaysWindowGrows` | src/main/java/pl/javastart/streamsexercise/PaymentService.java:48 | a larger `days` keeps every payment a smaller one keeps, in the same order |
| `PaymentService.FindPaymentsWithOnePaymentItem` | src/main/java/pl/javastart/streamsexercise/PaymentService.java:52-57 | a payment is in the set iff it is one of the payments and has exactly one item |
| `PaymentService.FindProductsSoldInCurrentMonth` | src/main/java/pl/javastart/streamsexercise/PaymentService.java:59-72 | a name is in the set iff some item of some payment of the clock's month has that name |
| `PaymentService.ItemNamesOfPayments` | src/main/java/pl/javastart/streamsexercise/PaymentService.java:63-71 | the distinct item names of some payments are exactly the names that some item of one of them has |
| `PaymentService.SumTotalForGivenMonth` | src/main/java/pl/javastart/streamsexercise/PaymentService.java:74-92 | the month total equals the sum, over the month's payments, of each payment's final-price sum |
| `PaymentService.TotalIsAdditive` | src/main/java/pl/javastart/streamsexercise/PaymentService.java:74-92 | splitting the payments into two parts splits the month total into the two parts' totals |
| `PaymentService.TotalWithoutPaymentsIsZero` | src/main/java/pl/javastart/streamsexercise/PaymentService.java:86 | when no payment is in the month the total is zero |
| `PaymentService.SumDiscountForGivenMonth` | src/main/java/pl/javastart/streamsexercise/PaymentService.java:94-112 | the month discount equals the sum of the regular prices of the month's items minus the month total |
| `PaymentService.DiscountWithoutPaymentsIsZero` | src/main/java/pl/javastart/streamsexercise/PaymentService.java:106 | when no payment is in the month the discount is zero |
| `PaymentService.DiscountIsNonNegative` | src/main/java/pl/javastart/streamsexercise/PaymentService.java:105-111 | if no item of the month costs more than its regular price, the discount is at least zero |
| `PaymentService.GetPaymentsForUserWithEmail` | src/main/java/pl/javastart/streamsexercise/PaymentService.java:114-125 | an item is returned iff it belongs to a payment whose user email equals `userEmail` ignoring case |
| `PaymentService.ItemsForUserInPaymentOrder` | src/main/java/pl/javastart/streamsexercise/PaymentService.java:116-124 | a single payment contributes its whole item list iff its email matches; the results for two parts of the payments concatenate, so items come in source order |
| `PaymentService.ItemsForUserCount` | src/main/java/pl/javastart/streamsexercise/PaymentService.java:118-124 | the number of items returned is the sum of the matching payments' item counts |
| `PaymentService.ItemsForUserIgnoreCase` | src/main/java/pl/javastart/streamsexercise/PaymentService.java:117 | two emails that differ only in letter case return the same items |
| `PaymentService.SumFinalAppend` | src/main/java/pl/javastart/streamsexercise/PaymentService.java:134 | adding one item adds its final price to the sum |
| `PaymentService.PaymentValueSum` | src/main/java/pl/javastart/streamsexercise/PaymentService.java:131-135 | the loop starts at zero and adds each final price; its result equals `SumFinal` of the items |
| `PaymentService.HasValueOver` | src/main/java/pl/javastart/streamsexercise/PaymentService.java:130-137 | the filter test is true iff the payment's total is strictly over `value` whole units |
| `PaymentService.FindPaymentsWithValueOver` | src/main/java/pl/javastart/streamsexercise/PaymentService.java:127-139 | a payment is in the set iff it is one of the payments and its total is strictly over `value`; for a `value` of zero or more, no payment without items is in the set |
| `PaymentScenarios.MonthQueriesOnTwoPayments` | src/main/java/pl/javastart/streamsexercise/PaymentService.java:37-112 | a March payment (100.00 regular, 80.00 final) and an April payment: March has the first, total 80.00, discount 20.00 |
| `PaymentScenarios.SortPutsLatestFirst` | src/main/java/pl/javastart/streamsexercise/PaymentService.java:22-27 | the April payment sorts before the March payment |
| `PaymentScenarios.SortOrdersWithinOneSecond` | src/main/java/pl/javastart/streamsexercise/PaymentService.java:22-27 | of two payments half a second apart, the later sorts first |
| `PaymentScenarios.EmailLookupIgnoresCase` | src/main/java/pl/javastart/streamsexercise/PaymentService.java:114-125 | `Foo@Bar.com` matches the stored `foo@bar.com` |
| `PaymentScenarios.ValueOverIsStrict` | src/main/java/pl/javastart/streamsexercise/PaymentService.java:127-139 | a payment of 30.00 + 25.00 is over 50 and not over 55 |

## Left out

- The source of `PaymentRepository`, `DateTimeProvider`, `Payment`, `PaymentItem` and `User` is not available. `Payment`, `PaymentItem` and `User` are modelled with the fields the getters `PaymentService.java` calls imply. The repository and the clock are parameters.
- Reading the clock more than once: the source calls `yearMonthNow()` once per filter and payment, so a month rollover during a scan can mix two months. `findPaymentsForGivenLastDays` calls `zonedDateTimeNow()` once per payment too, so "now" moves forward during the scan. The model reads the clock once per query.
- Time zones and calendars: `plusDays` adds `days` times 24 hours, with no daylight-saving shifts. The year and month of a `PaymentDate` are not tied to its instant.
- Date ties: `ZonedDateTime.compareTo` breaks equal instants by local date-time and zone. The model treats two payments at the same instant as one date.
- `DateTimeException`, which `plusDays` throws for dates outside the supported range.
- PaymentService.FindPaymentsWithValueOver: compares the exact sum with the threshold. The source first converts the sum with `doubleValue()`. With amounts in hundredths and an `int` threshold, that conversion cannot flip the comparison, but amounts with more decimal places could lose precision. This is not modelled.
- `BigDecimal` scale: amounts have at most two decimal places. `BigDecimal.equals` tells `2.0` from `2.00`; value equality of the model does not.
- `HashSet` and the `equals`/`hashCode` of `Payment`: the sets use Dafny value equality.
- `equalsIgnoreCase` folds only ASCII letters.
- Null values: the source does not handle a payment without a user or a user without an email. It does handle a null `userEmail`: `equalsIgnoreCase(null)` is false, so the result is then empty. The model has no null values, so it does not represent a null argument, and every field is present.
- Idempotence: every query is a pure function of its parameters, so it needs no lemma of its own.
