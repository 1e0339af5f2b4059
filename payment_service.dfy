/**
  The queries of `PaymentService`.  Each query works on one snapshot of all
  payments (what `PaymentRepository.findAll()` returns, passed in as
  `payments`) and, where it needs the time, on one reading of the
  `DateTimeProvider` (passed in as `clock`).  The stream pipelines are
  functions built from the operations of module Streams; the loop that adds
  up the prices of one payment in `findPaymentsWithValueOver` is a method.
 */
module PaymentService {
  import opened Streams
  import opened StableSort
  import opened CaseFold
  import opened Payments

  // ---------------------------------------------------------------------------
  // The tests the pipelines filter with

  function YearIs(year: int): Payment -> bool {
    (p: Payment) => p.paymentDate.year == year
  }

  function MonthIs(month: int): Payment -> bool {
    (p: Payment) => p.paymentDate.month == month
  }

  /** The month test of the month queries, as one condition. */
  predicate InMonth(p: Payment, yearMonth: YearMonth) {
    p.paymentDate.year == yearMonth.year && p.paymentDate.month == yearMonth.month
  }

  function InMonthTest(yearMonth: YearMonth): Payment -> bool {
    (p: Payment) => InMonth(p, yearMonth)
  }

  function WithinDays(days: int, now: int): Payment -> bool {
    (p: Payment) => IsAfter(PlusDays(p.paymentDate, days), now)
  }

  predicate HasOneItem(p: Payment) {
    |p.paymentItems| == 1
  }

  function EmailIs(userEmail: string): Payment -> bool {
    (p: Payment) => EqualsIgnoreCase(p.user.email, userEmail)
  }

  /** The sum of the final prices of some items. */
  function SumFinal(items: seq<PaymentItem>): int {
    Sum(MapSeq(items, FinalPrice))
  }

  /** What a payment costs: the sum of the final prices of its items. */
  function PaymentTotal(p: Payment): int {
    SumFinal(p.paymentItems)
  }

  /** The payments of one month, with the two filters of the month queries. */
  function PaymentsOfMonth(payments: seq<Payment>, yearMonth: YearMonth): (r: seq<Payment>)
    ensures r == Filter(payments, InMonthTest(yearMonth))
  {
    FilterFilter(payments, YearIs(yearMonth.year), MonthIs(yearMonth.month), InMonthTest(yearMonth));
    Filter(Filter(payments, YearIs(yearMonth.year)), MonthIs(yearMonth.month))
  }

  // ---------------------------------------------------------------------------
  // findPaymentsSortedByDateDesc

  /** The payments, latest first; payments at the same instant keep their order. */
  function FindPaymentsSortedByDateDesc(payments: seq<Payment>): (r: seq<Payment>)
    ensures multiset(r) == multiset(payments)
    ensures forall i :: 0 <= i < |r| - 1 ==> r[i].paymentDate.instant >= r[i + 1].paymentDate.instant
  {
    SortDesc(payments, Instant)
  }

  /** The sort is stable: the payments made at any one instant come out in their input order. */
  lemma SortedByDateDescKeepsTies(payments: seq<Payment>, instant: int)
    ensures Filter(FindPaymentsSortedByDateDesc(payments), HasKey(Instant, instant))
         == Filter(payments, HasKey(Instant, instant))
  {
    SortDescStable(payments, Instant, instant);
  }

  /**
    Any stable sort of the payments by descending date returns this sequence,
    whatever its algorithm.
   */
  lemma SortedByDateDescIsTheStableSort(payments: seq<Payment>, sorted: seq<Payment>)
    requires multiset(sorted) == multiset(payments)
    requires forall i :: 0 <= i < |sorted| - 1 ==> sorted[i].paymentDate.instant >= sorted[i + 1].paymentDate.instant
    requires forall t :: Filter(sorted, HasKey(Instant, t)) == Filter(payments, HasKey(Instant, t))
    ensures sorted == FindPaymentsSortedByDateDesc(payments)
  {
    AdjacentOrderIsSorted(sorted);
    var r := FindPaymentsSortedByDateDesc(payments);
    forall t ensures Filter(sorted, HasKey(Instant, t)) == Filter(r, HasKey(Instant, t)) {
      SortDescStable(payments, Instant, t);
    }
    StableSortUnique(sorted, r, Instant);
  }

  /** Descending order of neighbours is descending order of every pair. */
  lemma AdjacentOrderIsSorted(s: seq<Payment>)
    requires forall i :: 0 <= i < |s| - 1 ==> s[i].paymentDate.instant >= s[i + 1].paymentDate.instant
    ensures SortedDesc(s, Instant)
  {
    forall i, j | 0 <= i < j < |s| ensures Instant(s[i]) >= Instant(s[j]) {
      var k := i;
      while k < j
        invariant i <= k <= j
        invariant Instant(s[i]) >= Instant(s[k])
      {
        k := k + 1;
      }
    }
  }

  // ---------------------------------------------------------------------------
  // findPaymentsForCurrentMonth and findPaymentsForGivenMonth

  /**
    The payments of `yearMonth`, in their input order: every payment of the
    month as often as it occurs in `payments`, and no other.
   */
  function FindPaymentsForGivenMonth(payments: seq<Payment>, yearMonth: YearMonth): (r: seq<Payment>)
    ensures IsSubsequence(r, payments)
    ensures forall p :: multiset(r)[p] == if InMonth(p, yearMonth) then multiset(payments)[p] else 0
  {
    FilterFilter(payments, YearIs(yearMonth.year), MonthIs(yearMonth.month), InMonthTest(yearMonth));
    FilterIsSubsequence(payments, InMonthTest(yearMonth));
    FilterCounts(payments, InMonthTest(yearMonth));
    Filter(Filter(payments, YearIs(yearMonth.year)), MonthIs(yearMonth.month))
  }

  /** The two facts above leave no choice: they describe exactly one sequence. */
  lemma GivenMonthIsTheMonthSelection(payments: seq<Payment>, yearMonth: YearMonth, r: seq<Payment>)
    requires IsSubsequence(r, payments)
    requires forall p :: multiset(r)[p] == if InMonth(p, yearMonth) then multiset(payments)[p] else 0
    ensures r == FindPaymentsForGivenMonth(payments, yearMonth)
  {
    FilterUnique(r, payments, InMonthTest(yearMonth));
    assert FindPaymentsForGivenMonth(payments, yearMonth) == PaymentsOfMonth(payments, yearMonth);
  }

  /** With the clock read once, the current month's payments are those of the clock's month. */
  function FindPaymentsForCurrentMonth(payments: seq<Payment>, clock: Clock): (r: seq<Payment>)
    ensures r == FindPaymentsForGivenMonth(payments, clock.yearMonthNow)
  {
    Filter(Filter(payments, YearIs(clock.yearMonthNow.year)), MonthIs(clock.yearMonthNow.month))
  }

  // ---------------------------------------------------------------------------
  // findPaymentsForGivenLastDays

  /** The payments whose date plus `days` days is still after now, in their input order. */
  function FindPaymentsForGivenLastDays(payments: seq<Payment>, clock: Clock, days: Int32): (r: seq<Payment>)
    ensures IsSubsequence(r, payments)
    ensures forall p ::
      multiset(r)[p] == (if IsAfter(PlusDays(p.paymentDate, days), clock.zonedDateTimeNow) then multiset(payments)[p] else 0)
  {
    FilterIsSubsequence(payments, WithinDays(days, clock.zonedDateTimeNow));
    FilterCounts(payments, WithinDays(days, clock.zonedDateTimeNow));
    Filter(payments, WithinDays(days, clock.zonedDateTimeNow))
  }

  /** A longer window keeps every payment a shorter one keeps, in the same order. */
  lemma LastDaysWindowGrows(payments: seq<Payment>, clock: Clock, fewer: Int32, more: Int32)
    requires fewer <= more
    ensures IsSubsequence(FindPaymentsForGivenLastDays(payments, clock, fewer),
                          FindPaymentsForGivenLastDays(payments, clock, more))
  {
    var now := clock.zonedDateTimeNow;
    forall p ensures WithinDays(fewer, now)(p) ==> WithinDays(more, now)(p) {
      assert fewer * NanosPerDay <= more * NanosPerDay;
    }
    FilterMonotone(payments, WithinDays(fewer, now), WithinDays(more, now));
  }

  // ---------------------------------------------------------------------------
  // findPaymentsWithOnePaymentItem

  /** The distinct payments that have exactly one item. */
  function FindPaymentsWithOnePaymentItem(payments: seq<Payment>): (r: set<Payment>)
    ensures forall p :: p in r <==> p in payments && |p.paymentItems| == 1
  {
    ToSet(Filter(payments, HasOneItem))
  }

  // ---------------------------------------------------------------------------
  // findProductsSoldInCurrentMonth

  /** The distinct names of the items sold in the current month. */
  function FindProductsSoldInCurrentMonth(payments: seq<Payment>, clock: Clock): (r: set<string>)
    ensures forall name :: name in r <==>
      exists p, item :: p in payments && InMonth(p, clock.yearMonthNow) && item in p.paymentItems && item.name == name
  {
    var month := Filter(Filter(payments, YearIs(clock.yearMonthNow.year)), MonthIs(clock.yearMonthNow.month));
    FilterFilter(payments, YearIs(clock.yearMonthNow.year), MonthIs(clock.yearMonthNow.month), InMonthTest(clock.yearMonthNow));
    ItemNamesOfPayments(month);
    ToSet(MapSeq(FlatMap(month, PaymentItems), Name))
  }

  /** The names of the items of some payments are exactly the names some item of one of them has. */
  lemma ItemNamesOfPayments(payments: seq<Payment>)
    ensures forall name :: name in ToSet(MapSeq(FlatMap(payments, PaymentItems), Name)) <==>
      exists p, item :: p in payments && item in p.paymentItems && item.name == name
  {
    var items := FlatMap(payments, PaymentItems);
    MapSeqMembers(items, Name);
    forall name | exists p, item :: p in payments && item in p.paymentItems && item.name == name
      ensures name in ToSet(MapSeq(items, Name))
    {
      var p, item :| p in payments && item in p.paymentItems && item.name == name;
      assert item in items;
    }
  }

  // ---------------------------------------------------------------------------
  // sumTotalForGivenMonth and sumDiscountForGivenMonth

  /** What the month's items cost: the sum, over the month's payments, of what each payment costs. */
  function SumTotalForGivenMonth(payments: seq<Payment>, yearMonth: YearMonth): (r: int)
    ensures r == Sum(MapSeq(FindPaymentsForGivenMonth(payments, yearMonth), PaymentTotal))
  {
    var month := Filter(Filter(payments, YearIs(yearMonth.year)), MonthIs(yearMonth.month));
    SumOverFlatMap(month, PaymentItems, FinalPrice, PaymentTotal);
    Sum(MapSeq(FlatMap(month, PaymentItems), FinalPrice))
  }

  /** The month's discount: what its items cost at regular price minus the month's total. */
  function SumDiscountForGivenMonth(payments: seq<Payment>, yearMonth: YearMonth): (r: int)
    ensures r == Sum(MapSeq(FlatMap(FindPaymentsForGivenMonth(payments, yearMonth), PaymentItems), RegularPrice))
               - SumTotalForGivenMonth(payments, yearMonth)
  {
    var month := Filter(Filter(payments, YearIs(yearMonth.year)), MonthIs(yearMonth.month));
    SumDifference(FlatMap(month, PaymentItems), RegularPrice, FinalPrice, Discount);
    Sum(MapSeq(FlatMap(month, PaymentItems), Discount))
  }

  /** Splitting the payments in two splits the month's total in two. */
  lemma TotalIsAdditive(a: seq<Payment>, b: seq<Payment>, yearMonth: YearMonth)
    ensures SumTotalForGivenMonth(a + b, yearMonth)
         == SumTotalForGivenMonth(a, yearMonth) + SumTotalForGivenMonth(b, yearMonth)
  {
    var test := InMonthTest(yearMonth);
    var ma, mb := PaymentsOfMonth(a, yearMonth), PaymentsOfMonth(b, yearMonth);
    assert PaymentsOfMonth(a + b, yearMonth) == ma + mb by {
      FilterConcat(a, b, test);
    }
    FlatMapConcat(ma, mb, PaymentItems);
    MapSeqConcat(FlatMap(ma, PaymentItems), FlatMap(mb, PaymentItems), FinalPrice);
    SumConcat(MapSeq(FlatMap(ma, PaymentItems), FinalPrice), MapSeq(FlatMap(mb, PaymentItems), FinalPrice));
  }

  /** The sum starts from zero: with no payment in the month the total is zero. */
  lemma TotalWithoutPaymentsIsZero(payments: seq<Payment>, yearMonth: YearMonth)
    requires forall p :: p in payments ==> !InMonth(p, yearMonth)
    ensures SumTotalForGivenMonth(payments, yearMonth) == 0
  {
    FilterNone(payments, InMonthTest(yearMonth));
    assert PaymentsOfMonth(payments, yearMonth) == [];
  }

  lemma DiscountWithoutPaymentsIsZero(payments: seq<Payment>, yearMonth: YearMonth)
    requires forall p :: p in payments ==> !InMonth(p, yearMonth)
    ensures SumDiscountForGivenMonth(payments, yearMonth) == 0
  {
    FilterNone(payments, InMonthTest(yearMonth));
    assert PaymentsOfMonth(payments, yearMonth) == [];
  }

  /** When no item of the month is sold above its regular price, the discount is not negative. */
  lemma DiscountIsNonNegative(payments: seq<Payment>, yearMonth: YearMonth)
    requires forall p, item :: p in payments && InMonth(p, yearMonth) && item in p.paymentItems ==>
      item.finalPrice <= item.regularPrice
    ensures SumDiscountForGivenMonth(payments, yearMonth) >= 0
  {
    var month := PaymentsOfMonth(payments, yearMonth);
    var discounts := MapSeq(FlatMap(month, PaymentItems), Discount);
    forall i | 0 <= i < |discounts| ensures discounts[i] >= 0 {
      var item := FlatMap(month, PaymentItems)[i];
      assert item in FlatMap(month, PaymentItems);
      var p :| p in month && item in PaymentItems(p);
    }
  }

  // ---------------------------------------------------------------------------
  // getPaymentsForUserWithEmail

  /** The items of the payments whose user's email equals `userEmail` up to case. */
  function GetPaymentsForUserWithEmail(payments: seq<Payment>, userEmail: string): (r: seq<PaymentItem>)
    ensures forall item :: item in r <==>
      exists p :: p in payments && EqualsIgnoreCase(p.user.email, userEmail) && item in p.paymentItems
  {
    FlatMap(Filter(payments, EmailIs(userEmail)), PaymentItems)
  }

  /**
    The result is built payment by payment in input order: a payment adds its
    whole item list, in order, when its user's email matches and nothing
    otherwise, and the results for two parts of the payments concatenate.
   */
  lemma ItemsForUserInPaymentOrder(p: Payment, a: seq<Payment>, b: seq<Payment>, userEmail: string)
    ensures GetPaymentsForUserWithEmail([p], userEmail)
         == if EqualsIgnoreCase(p.user.email, userEmail) then p.paymentItems else []
    ensures GetPaymentsForUserWithEmail(a + b, userEmail)
         == GetPaymentsForUserWithEmail(a, userEmail) + GetPaymentsForUserWithEmail(b, userEmail)
  {
    var test := EmailIs(userEmail);
    assert [p][0] == p && [p][1..] == [];
    assert Filter([p], test) == if test(p) then [p] else [];
    assert FlatMap([p], PaymentItems) == p.paymentItems;
    FilterConcat(a, b, test);
    FlatMapConcat(Filter(a, test), Filter(b, test), PaymentItems);
  }

  /** As many items come back as the matching payments have items. */
  lemma ItemsForUserCount(payments: seq<Payment>, userEmail: string)
    ensures |GetPaymentsForUserWithEmail(payments, userEmail)|
         == Sum(MapSeq(Filter(payments, EmailIs(userEmail)), ItemCount))
  {
    FlatMapLength(Filter(payments, EmailIs(userEmail)), PaymentItems, ItemCount);
  }

  /** Emails that differ only in case select the same items. */
  lemma ItemsForUserIgnoreCase(payments: seq<Payment>, email1: string, email2: string)
    requires EqualsIgnoreCase(email1, email2)
    ensures GetPaymentsForUserWithEmail(payments, email1) == GetPaymentsForUserWithEmail(payments, email2)
  {
    forall p | p in payments ensures EmailIs(email1)(p) == EmailIs(email2)(p) {
      EqualsIgnoreCaseSymmetric(email1, email2);
      if EqualsIgnoreCase(p.user.email, email1) {
        EqualsIgnoreCaseTransitive(p.user.email, email1, email2);
      }
      if EqualsIgnoreCase(p.user.email, email2) {
        EqualsIgnoreCaseTransitive(p.user.email, email2, email1);
      }
    }
    FilterCongruent(payments, EmailIs(email1), EmailIs(email2));
  }

  // ---------------------------------------------------------------------------
  // findPaymentsWithValueOver

  lemma SumFinalAppend(items: seq<PaymentItem>, item: PaymentItem)
    ensures SumFinal(items + [item]) == SumFinal(items) + item.finalPrice
  {
    MapSeqConcat(items, [item], FinalPrice);
    SumConcat(MapSeq(items, FinalPrice), [FinalPrice(item)]);
  }

  /** The loop inside the filter: adds the final prices of the items, starting from zero. */
  method PaymentValueSum(itemsList: seq<PaymentItem>) returns (valueSum: int)
    ensures valueSum == SumFinal(itemsList)
  {
    valueSum := 0;
    for i := 0 to |itemsList|
      invariant valueSum == SumFinal(itemsList[..i])
    {
      assert itemsList[..i + 1] == itemsList[..i] + [itemsList[i]];
      SumFinalAppend(itemsList[..i], itemsList[i]);
      valueSum := valueSum + itemsList[i].finalPrice;
    }
    assert itemsList[..|itemsList|] == itemsList;
  }

  /** The filter's test: the payment costs more than `value` whole units. */
  method HasValueOver(p: Payment, value: Int32) returns (over: bool)
    ensures over <==> PaymentTotal(p) > value * MinorPerUnit
  {
    var valueSum := PaymentValueSum(p.paymentItems);
    over := valueSum > value * MinorPerUnit;
  }

  /** The distinct payments that cost more than `value` whole units. */
  method FindPaymentsWithValueOver(payments: seq<Payment>, value: Int32) returns (r: set<Payment>)
    ensures forall p :: p in r <==> p in payments && PaymentTotal(p) > value * MinorPerUnit
    ensures value >= 0 ==> forall p :: p in r ==> p.paymentItems != []
  {
    r := {};
    for i := 0 to |payments|
      invariant forall p :: p in r <==> p in payments[..i] && PaymentTotal(p) > value * MinorPerUnit
    {
      assert payments[..i + 1] == payments[..i] + [payments[i]];
      var over := HasValueOver(payments[i], value);
      if over {
        r := r + {payments[i]};
      }
    }
    assert payments[..|payments|] == payments;
  }
}
