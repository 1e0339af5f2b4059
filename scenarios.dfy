/**
  Concrete cases of the queries, with amounts in hundredths: 100.00 is 10000.
 */
module PaymentScenarios {
  import opened Payments
  import opened CaseFold
  import opened Streams
  import opened PaymentService

  const March := YearMonth(2023, 3)
  const Buyer := User("foo@bar.com")
  /** 2023-03-01 and 2023-04-01, midnight UTC. */
  const MarchPayment := Payment(PaymentDate(2023, 3, 1677628800_000_000_000), Buyer, [PaymentItem("A", 10000, 8000)])
  const AprilPayment := Payment(PaymentDate(2023, 4, 1680307200_000_000_000), Buyer, [PaymentItem("B", 5000, 5000)])
  /** Half a second after `MarchPayment`. */
  const LaterInSameSecond := Payment(PaymentDate(2023, 3, 1677628800_500_000_000), Buyer, [PaymentItem("E", 100, 100)])

  /** Of a March and an April payment, March has the first: 80.00 paid, 20.00 off. */
  lemma MonthQueriesOnTwoPayments()
    ensures FindPaymentsForGivenMonth([MarchPayment, AprilPayment], March) == [MarchPayment]
    ensures SumTotalForGivenMonth([MarchPayment, AprilPayment], March) == 8000
    ensures SumDiscountForGivenMonth([MarchPayment, AprilPayment], March) == 2000
  {
    var ps, test := [MarchPayment, AprilPayment], InMonthTest(March);
    assert ps[1..] == [AprilPayment] && ps[1..][1..] == [];
    assert test(MarchPayment) && !test(AprilPayment);
    assert Filter([AprilPayment], test) == [];
    assert PaymentsOfMonth(ps, March) == [MarchPayment];
    var items := FlatMap([MarchPayment], PaymentItems);
    assert [MarchPayment][1..] == [];
    assert items == PaymentItems(MarchPayment) + FlatMap([], PaymentItems);
    OneSum(MapSeq(items, FinalPrice));
    OneSum(MapSeq(items, Discount));
  }

  lemma OneSum(s: seq<int>)
    requires |s| == 1
    ensures Sum(s) == s[0]
  {
    assert s[..0] == [];
  }

  /** Sorting puts the April payment first. */
  lemma SortPutsLatestFirst()
    ensures FindPaymentsSortedByDateDesc([MarchPayment, AprilPayment]) == [AprilPayment, MarchPayment]
  {
    var ps := [MarchPayment, AprilPayment];
    assert ps[1..] == [AprilPayment] && ps[1..][1..] == [];
  }

  /** Two payments in the same second are ordered by their nanoseconds, the later first. */
  lemma SortOrdersWithinOneSecond()
    ensures FindPaymentsSortedByDateDesc([MarchPayment, LaterInSameSecond]) == [LaterInSameSecond, MarchPayment]
  {
    var ps := [MarchPayment, LaterInSameSecond];
    assert ps[1..] == [LaterInSameSecond] && ps[1..][1..] == [];
  }

  /** The email of a lookup matches the stored email whatever the case of its letters. */
  lemma EmailLookupIgnoresCase()
    ensures EqualsIgnoreCase("Foo@Bar.com", "foo@bar.com")
    ensures GetPaymentsForUserWithEmail([MarchPayment], "Foo@Bar.com") == MarchPayment.paymentItems
  {
    assert EqualsIgnoreCase("foo@bar.com", "Foo@Bar.com");
    ItemsForUserInPaymentOrder(MarchPayment, [], [], "Foo@Bar.com");
  }

  /** A payment of 30.00 + 25.00 is over 50 but not over 55: the comparison is strict. */
  method ValueOverIsStrict() returns (payment: Payment, over50: set<Payment>, over55: set<Payment>)
    ensures PaymentTotal(payment) == 5500
    ensures over50 == {payment} && over55 == {}
  {
    payment := Payment(PaymentDate(2023, 3, 1677628800_000_000_000), Buyer,
                       [PaymentItem("C", 3000, 3000), PaymentItem("D", 2500, 2500)]);
    var items := payment.paymentItems;
    OneSum(MapSeq([items[0]], FinalPrice));
    SumFinalAppend([items[0]], items[1]);
    assert items == [items[0]] + [items[1]];
    over50 := FindPaymentsWithValueOver([payment], 50);
    over55 := FindPaymentsWithValueOver([payment], 55);
  }
}
