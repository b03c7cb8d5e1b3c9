/**
 * The records the engine reads: a subscription with its billing cycle and
 * category. Time stamps, currency and the other fields the engine never
 * looks at are not carried.
 */
module Types {
  import opened Gregorian
  import opened Seqs

  datatype Option<T> = None | Some(value: T) {
    /** `value ?? fallback` */
    function GetOr(fallback: T): T {
      match this
      case Some(v) => v
      case None => fallback
    }
  }

  datatype BillingCycle = Weekly | Monthly | Yearly | CustomDays

  datatype Category = Entertainment | Productivity | Utilities | Health | Other

  /** A subscription as the engine receives it, with its date already parsed. */
  datatype Subscription = Subscription(
    id: string,
    name: string,
    amountMinor: int,
    billingCycle: BillingCycle,
    customIntervalDays: Option<int>,
    nextBillingDate: Date,
    category: Category,
    reminderDaysBefore: seq<int>,
    isActive: bool,
    notes: Option<string>)

  /** The wire value of a billing cycle. */
  function CycleName(c: BillingCycle): string {
    match c
    case Weekly => "weekly"
    case Monthly => "monthly"
    case Yearly => "yearly"
    case CustomDays => "custom_days"
  }

  /** The wire value of a category. */
  function CategoryName(c: Category): string {
    match c
    case Entertainment => "entertainment"
    case Productivity => "productivity"
    case Utilities => "utilities"
    case Health => "health"
    case Other => "other"
  }

  /** `customIntervalDays ?? 30`: the day count of a custom cycle. */
  function IntervalDays(s: Subscription): int {
    s.customIntervalDays.GetOr(30)
  }

  /** What validation guarantees before a cost is normalised: a custom cycle
      divides by its interval, which the schema requires to be positive. */
  predicate HasPositiveInterval(s: Subscription) {
    s.billingCycle == CustomDays ==> IntervalDays(s) > 0
  }

  predicate IsActive(s: Subscription) {
    s.isActive
  }

  /** `subscriptions.filter((subscription) => subscription.isActive)` */
  function ActiveOnly(subs: seq<Subscription>): seq<Subscription> {
    Filter(subs, IsActive)
  }
}
