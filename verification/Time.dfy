/** Instants and the 64-bit nanosecond columns they are stored in.

An instant is an unbounded number of nanoseconds relative to the Unix epoch. A column holds a signed
64-bit value, and the conversion saturates at both ends instead of wrapping. */
module Time {
  import opened Options

  type Instant = int

  const I64_MAX: int := 0x7fff_ffff_ffff_ffff
  const I64_MIN: int := -0x8000_0000_0000_0000

  newtype Nanos = n: int | I64_MIN <= n <= I64_MAX

  /** `i64::try_from` on an unsigned nanosecond count: `None` when it does not fit. */
  function TryFromUnsigned(n: nat): (r: Option<Nanos>) {
    if n <= I64_MAX then Some(n as Nanos) else None
  }

  /** Nanoseconds since the epoch, saturating. The negative side converts the distance before the
  epoch first and negates it afterwards, as the source does. */
  function ToNanos(t: Instant): (r: Nanos) {
    if t >= 0 then
      match TryFromUnsigned(t)
      case Some(n) => n
      case None => I64_MAX as Nanos
    else
      match TryFromUnsigned(-t)
      case Some(n) => -n
      case None => I64_MIN as Nanos
  }

  /** The instant a column names; `unsigned_abs` makes the minimum representable. */
  function FromNanos(ns: Nanos): (t: Instant) {
    if ns >= 0 then ns as int else -(-(ns as int))
  }

  /** Order is never reversed, even where both instants saturate. */
  lemma ToNanosMonotone(a: Instant, b: Instant)
    requires a <= b
    ensures ToNanos(a) <= ToNanos(b)
  {
  }

  /** A strict column comparison is always a strict comparison of the instants. */
  lemma ColumnOrderIsInstantOrder(a: Instant, b: Instant)
    requires ToNanos(a) < ToNanos(b)
    ensures a < b
  {
    if b <= a { ToNanosMonotone(b, a); }
  }

  /** Every column value is the image of the instant it decodes to, the minimum included: the
  negative branch saturates there and still lands on the right value. */
  lemma ColumnRoundTrip(ns: Nanos)
    ensures ToNanos(FromNanos(ns)) == ns
  {
  }

  predicate Representable(t: Instant) {
    I64_MIN <= t <= I64_MAX
  }

  /** Decoding a column gives back the instant exactly when the instant fits in 64 bits. */
  lemma InstantRoundTripIff(t: Instant)
    ensures FromNanos(ToNanos(t)) == t <==> Representable(t)
  {
  }

  /** Comparing columns decides the same question as comparing the instants, except when both
  instants lie at or beyond the same end of the range and are out of order. */
  lemma ComparisonExactIff(a: Instant, b: Instant)
    ensures (ToNanos(a) <= ToNanos(b) <==> a <= b) <==> (a <= b || (b < I64_MAX && a > I64_MIN))
  {
  }

  /** The instants that a column comparison tells apart from every other instant. */
  predicate Distinguished(t: Instant) { I64_MIN < t <= I64_MAX }

  /** Comparing columns decides whether an instant lies at or before another one, for all others at once,
  exactly when the instant is distinguished. */
  lemma BeforeExactIff(t: Instant)
    ensures (forall other :: ToNanos(t) <= ToNanos(other) <==> t <= other) <==> Distinguished(t)
  {
    if t > I64_MAX {
      assert ToNanos(t) <= ToNanos(I64_MAX);
    } else if t <= I64_MIN {
      assert ToNanos(t) <= ToNanos(t - 1);
    }
  }
}
