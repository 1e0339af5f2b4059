/**
  The records the payment queries read: payments, their line items and their
  users, and the two collaborators of the service, reduced to values.  Every
  record is an immutable value.
 */
module Payments {

  /** A Java `int`. */
  type Int32 = x: int | -0x8000_0000 <= x < 0x8000_0000

  /** `getMonthValue()` of a date: January is 1. */
  type MonthValue = m: int | 1 <= m <= 12 witness 1

  /**
    Amounts are `BigDecimal`s; here each is held exactly as a whole number of
    hundredths, so an amount `a` in the model stands for `a / MinorPerUnit`.
   */
  const MinorPerUnit: int := 100

  /** `plusDays` adds whole days of this many nanoseconds to an instant. */
  const NanosPerDay: int := 86_400_000_000_000

  datatype YearMonth = YearMonth(year: int, month: MonthValue)

  /**
    A `ZonedDateTime`: the year and month of its local date, and the instant
    on the time line it denotes, in nanoseconds since the epoch.  `compareTo`
    and `isAfter` compare the epoch second and then the nano-of-second, which
    is comparing this one number.
   */
  datatype PaymentDate = PaymentDate(year: int, month: MonthValue, instant: int)

  datatype User = User(email: string)

  datatype PaymentItem = PaymentItem(name: string, regularPrice: int, finalPrice: int)

  datatype Payment = Payment(paymentDate: PaymentDate, user: User, paymentItems: seq<PaymentItem>)

  /**
    The `DateTimeProvider`, read once per query: the current year and month,
    and the current instant.
   */
  datatype Clock = Clock(yearMonthNow: YearMonth, zonedDateTimeNow: int)

  /** `plusDays(days)`: the instant `days` whole days later. */
  function PlusDays(date: PaymentDate, days: int): int {
    date.instant + days * NanosPerDay
  }

  /** `isAfter`: strictly later on the time line. */
  predicate IsAfter(instant: int, other: int) {
    instant > other
  }

  // Getter functions, passed to the stream operations.

  function PaymentItems(p: Payment): seq<PaymentItem> { p.paymentItems }

  function ItemCount(p: Payment): int { |p.paymentItems| }

  function Instant(p: Payment): int { p.paymentDate.instant }

  function Name(item: PaymentItem): string { item.name }

  function FinalPrice(item: PaymentItem): int { item.finalPrice }

  function RegularPrice(item: PaymentItem): int { item.regularPrice }

  /** `getRegularPrice().subtract(getFinalPrice())`. */
  function Discount(item: PaymentItem): int { item.regularPrice - item.finalPrice }
}
