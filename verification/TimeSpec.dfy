/** Time as whole and fractional seconds, and its conversion to and from sample ticks, in exact arithmetic. */
module TimeSpec {
  import opened Arithmetic

  datatype Spec = Spec(full: int, frac: real)

  /** A tick rate of at least one tick a second. */
  type Rate = r: real | r >= 1.0 witness 1.0

  /** The time in seconds. */
  function Value(s: Spec): real {
    s.full as real + s.frac
  }

  /** The fraction is a proper one. */
  predicate Normal(s: Spec) {
    0.0 <= s.frac < 1.0
  }

  /** time_spec_init: carry the whole part of the fraction, and borrow a second when it is negative. */
  function Init(full: int, frac: real): (s: Spec)
    ensures Normal(s) && Value(s) == full as real + frac
  {
    var whole := Trunc(frac);
    var rest := frac - whole as real;
    if rest < 0.0 then Spec(full + whole - 1, rest + 1.0) else Spec(full + whole, rest)
  }

  /** A normal time is determined by its value. */
  lemma NormalIsUnique(a: Spec, b: Spec)
    requires Normal(a) && Normal(b) && Value(a) == Value(b)
    ensures a == b
  {
    assert -1.0 < (a.full - b.full) as real < 1.0;
  }

  /** operator< and operator== compare the values. */
  predicate Less(a: Spec, b: Spec) {
    a.full < b.full || (a.full == b.full && a.frac < b.frac)
  }

  lemma LessIsByValue(a: Spec, b: Spec)
    requires Normal(a) && Normal(b)
    ensures Less(a, b) <==> Value(a) < Value(b)
    ensures a == b <==> Value(a) == Value(b)
  {
    if Value(a) == Value(b) {
      NormalIsUnique(a, b);
    }
    if a.full < b.full {
      assert a.full as real + 1.0 <= b.full as real;
    } else if b.full < a.full {
      assert b.full as real + 1.0 <= a.full as real;
    }
  }

  /** operator+= and operator-=. */
  function Plus(a: Spec, b: Spec): Spec {
    Init(a.full + b.full, a.frac + b.frac)
  }

  function Minus(a: Spec, b: Spec): Spec {
    Init(a.full - b.full, a.frac - b.frac)
  }

  /** Adding and subtracting undo each other, and adding commutes and associates. */
  lemma PlusMinus(a: Spec, b: Spec, c: Spec)
    requires Normal(a) && Normal(b) && Normal(c)
    ensures Minus(Plus(a, b), b) == a && Plus(Minus(a, b), b) == a
    ensures Plus(a, b) == Plus(b, a) && Plus(Plus(a, b), c) == Plus(a, Plus(b, c))
  {
    NormalIsUnique(Minus(Plus(a, b), b), a);
    NormalIsUnique(Plus(Minus(a, b), b), a);
    NormalIsUnique(Plus(Plus(a, b), c), Plus(a, Plus(b, c)));
  }

  /** Whole seconds, truncated toward zero as in C++. */
  function Seconds(ticks: int, rate: Rate): int {
    if ticks >= 0 then ticks / rate.Floor else -(-ticks / rate.Floor)
  }

  /** Some whole seconds of the ticks, and the rest as a fraction. */
  function FromParts(ticks: int, secs: int, rate: Rate): (s: Spec)
    ensures Normal(s)
  {
    var rateInt := rate.Floor;
    var rateFrac := rate - rateInt as real;
    var ticksError := ticks - secs * rateInt;
    var ticksFrac := ticksError as real - secs as real * rateFrac;
    Init(secs, ticksFrac / rate)
  }

  /** from_ticks, for rates of at least one tick a second. */
  function FromTicks(ticks: int, rate: Rate): (s: Spec)
    ensures Normal(s)
  {
    FromParts(ticks, Seconds(ticks, rate), rate)
  }

  /** fast_llround. */
  function FastRound(x: real): int {
    Trunc(x + 0.5)
  }

  /** It rounds to the nearest exactly where its argument plus a half is not negative, or is whole: elsewhere it is one too high. */
  lemma FastRoundIsNearest(x: real)
    ensures FastRound(x) == (x + 0.5).Floor <==> x >= -0.5 || (x + 0.5).Floor as real == x + 0.5
    ensures FastRound(x) != (x + 0.5).Floor ==> FastRound(x) == (x + 0.5).Floor + 1
  {
    var y := x + 0.5;
    if y < 0.0 {
      NegatedFloor(y);
    }
  }

  lemma NegatedFloor(y: real)
    ensures (-y).Floor == if y.Floor as real == y then -(y.Floor) else -(y.Floor) - 1
  {
  }

  /** What to_ticks leaves to the rounding: everything but the whole seconds at the whole part of the rate. */
  function Unrounded(s: Spec, rate: Rate): real {
    s.full as real * (rate - rate.Floor as real) + s.frac * rate
  }

  function ToTicks(s: Spec, rate: Rate): int
  {
    s.full * rate.Floor + FastRound(Unrounded(s, rate))
  }

  lemma Distribute(a: real, b: real, c: real)
    ensures (a + b) * c == a * c + b * c
  {
  }

  lemma RealProduct(a: int, b: int)
    ensures (a * b) as real == a as real * b as real
  {
  }

  lemma Undivide(x: real, r: real)
    requires r != 0.0
    ensures x / r * r == x
  {
  }

  /** n sums to n * rate over its whole and its fractional part. */
  lemma SplitRate(n: int, rate: real)
    ensures (n * rate.Floor) as real + n as real * (rate - rate.Floor as real) == n as real * rate
  {
    RealProduct(n, rate.Floor);
  }

  /** Whatever number of seconds is split off, the rest goes into the fraction. */
  lemma PartsAreExact(ticks: int, secs: int, rate: Rate)
    ensures Value(FromParts(ticks, secs, rate)) * rate == ticks as real
  {
    var ticksFrac := (ticks - secs * rate.Floor) as real - secs as real * (rate - rate.Floor as real);
    SplitRate(secs, rate);
    assert ticksFrac == ticks as real - secs as real * rate;
    Distribute(secs as real, ticksFrac / rate, rate);
    Undivide(ticksFrac, rate);
  }

  /** from_ticks names the time ticks / rate exactly. */
  lemma FromTicksIsExact(ticks: int, rate: Rate)
    ensures Value(FromTicks(ticks, rate)) * rate == ticks as real
  {
    PartsAreExact(ticks, Seconds(ticks, rate), rate);
  }

  lemma NonNegativeProduct(a: real, b: real)
    requires a >= 0.0 && b >= 0.0
    ensures a * b >= 0.0
  {
  }

  lemma ZeroProduct(a: real, b: real)
    requires b == 0.0
    ensures a * b == 0.0
  {
  }

  lemma FloorOfSum(n: int, x: real)
    ensures (n as real + x).Floor == n + x.Floor
  {
  }

  /**
   * to_ticks is value * rate rounded to the nearest tick, halves up, if and only if what it rounds is at least -1/2, or is
   * a half and a whole number; elsewhere it is one tick too high.
   */
  lemma ToTicksRounds(s: Spec, rate: Rate)
    ensures var x, exact := Unrounded(s, rate), (Value(s) * rate + 0.5).Floor;
            && (ToTicks(s, rate) == exact <==> x >= -0.5 || (x + 0.5).Floor as real == x + 0.5)
            && (ToTicks(s, rate) != exact ==> ToTicks(s, rate) == exact + 1)
  {
    var x := Unrounded(s, rate);
    SplitRate(s.full, rate);
    Distribute(s.full as real, s.frac, rate);
    assert (s.full * rate.Floor) as real + (x + 0.5) == Value(s) * rate + 0.5;
    FloorOfSum(s.full * rate.Floor, x + 0.5);
    FastRoundIsNearest(x);
  }

  /** From second 0 on, and at every time if the rate is a whole number, to_ticks rounds correctly. */
  lemma RoundsCorrectly(s: Spec, rate: Rate)
    requires Normal(s) && (s.full >= 0 || rate.Floor as real == rate)
    ensures Unrounded(s, rate) >= 0.0 && ToTicks(s, rate) == (Value(s) * rate + 0.5).Floor
  {
    var whole, part := s.full as real, rate - rate.Floor as real;
    if s.full >= 0 {
      NonNegativeProduct(whole, part);
    } else {
      ZeroProduct(whole, part);
    }
    NonNegativeProduct(s.frac, rate);
    assert Unrounded(s, rate) == whole * part + s.frac * rate;
    ToTicksRounds(s, rate);
  }

  lemma NotNegative(s: Spec, rate: Rate)
    requires Normal(s) && Value(s) * rate >= 0.0
    ensures s.full >= 0 && Value(s) >= 0.0
  {
    if Value(s) < 0.0 {
      NegativeProduct(Value(s), rate);
    }
  }

  lemma NegativeProduct(a: real, b: real)
    requires a < 0.0 && b >= 1.0
    ensures a * b < 0.0
  {
  }

  /** The ticks of a time that is a whole number of them. */
  lemma WholeTicks(s: Spec, ticks: nat, rate: Rate)
    requires Normal(s) && Value(s) * rate == ticks as real
    ensures ToTicks(s, rate) == ticks
  {
    NotNegative(s, rate);
    RoundsCorrectly(s, rate);
  }

  lemma WholeSum(n: int, x: real, total: int)
    requires n as real + x == total as real
    ensures x == (total - n) as real && (x + 0.5).Floor as real != x + 0.5
  {
  }

  lemma WholeSeconds(s: Spec)
    requires Normal(s)
    ensures s.full == Value(s).Floor
  {
  }

  /** The whole seconds of from_ticks. */
  lemma SecondsAre(ticks: int, rate: Rate)
    ensures FromTicks(ticks, rate).full == (ticks as real / rate).Floor
  {
    hide FromTicks, Value, Normal;
    var s, v := FromTicks(ticks, rate), ticks as real / rate;
    FromTicksIsExact(ticks, rate);
    Undivide(ticks as real, rate);
    Cancel(Value(s), v, rate);
    WholeSeconds(s);
  }

  /** What is left to the rounding is the ticks less the whole seconds at the whole part of the rate. */
  lemma UnroundedIs(s: Spec, ticks: int, rate: Rate)
    requires Value(s) * rate == ticks as real
    ensures Unrounded(s, rate) == (ticks - s.full * rate.Floor) as real
  {
    SplitRate(s.full, rate);
    Distribute(s.full as real, s.frac, rate);
  }

  /**
   * With negative ticks too, the way there and back is exact if and only if the rounding is: when the ticks are not below those
   * of the whole seconds at the whole part of the rate.
   */
  lemma RoundTripExactly(ticks: int, rate: Rate)
    ensures ToTicks(FromTicks(ticks, rate), rate) == ticks <==> ticks >= (ticks as real / rate).Floor * rate.Floor
    ensures ToTicks(FromTicks(ticks, rate), rate) == ticks <==> Unrounded(FromTicks(ticks, rate), rate) >= 0.0
  {
    hide FromTicks, ToTicks, Unrounded, Value;
    FromTicksIsExact(ticks, rate);
    WholeTicksExactly(FromTicks(ticks, rate), ticks, rate);
    SecondsAre(ticks, rate);
    UnroundedIs(FromTicks(ticks, rate), ticks, rate);
  }

  lemma WholeTicksExactly(s: Spec, ticks: int, rate: Rate)
    requires Value(s) * rate == ticks as real
    ensures ToTicks(s, rate) == ticks <==> Unrounded(s, rate) >= 0.0
  {
    ToTicksRounds(s, rate);
    SplitRate(s.full, rate);
    Distribute(s.full as real, s.frac, rate);
    WholeSum(s.full * rate.Floor, Unrounded(s, rate), ticks);
  }

  /** At 1.5 ticks a second, tick -4 is a time that converts to tick -3. */
  lemma NegativeTicksMiss()
    ensures ToTicks(FromTicks(-4, 1.5), 1.5) == -3
  {
  }

  /** Converting ticks to a time and back at the same rate loses nothing. */
  lemma TickRoundTrip(ticks: nat, rate: Rate)
    ensures ToTicks(FromTicks(ticks, rate), rate) == ticks
  {
    FromTicksIsExact(ticks, rate);
    WholeTicks(FromTicks(ticks, rate), ticks, rate);
  }

  function Abs(x: real): real {
    if x < 0.0 then -x else x
  }

  /** The new counter of a rate change. */
  function Rebased(ticks: nat, oldRate: Rate, newRate: Rate): int
  {
    ToTicks(FromTicks(ticks, oldRate), newRate)
  }

  /** A time that is a whole number of old ticks, in new ticks. */
  lemma NewTicks(s: Spec, ticks: nat, oldRate: Rate, newRate: Rate)
    requires Normal(s) && Value(s) * oldRate == ticks as real
    ensures ToTicks(s, newRate) >= 0 && Value(s) >= 0.0
    ensures Abs(ToTicks(s, newRate) as real - Value(s) * newRate) <= 0.5
  {
    NotNegative(s, oldRate);
    RoundsCorrectly(s, newRate);
    NonNegativeProduct(Value(s), newRate);
    Rounded(Value(s) * newRate);
  }

  lemma NewTicksAreClose(s: Spec, ticks: nat, oldRate: Rate, newRate: Rate)
    requires Normal(s) && Value(s) * oldRate == ticks as real
    ensures ToTicks(s, newRate) >= 0
    ensures Abs(ToTicks(s, newRate) as real - ticks as real * newRate / oldRate) <= 0.5
  {
    NewTicks(s, ticks, oldRate, newRate);
    var exact := ticks as real * newRate / oldRate;
    ScaledValue(Value(s), ticks as real, oldRate, newRate, exact);
    assert Value(s) * newRate == exact;
  }

  /** A rate change is within half a tick of the exact conversion, and the counter stays non-negative. */
  lemma RebasedIsClose(ticks: nat, oldRate: Rate, newRate: Rate)
    ensures Rebased(ticks, oldRate, newRate) >= 0
    ensures Abs(Rebased(ticks, oldRate, newRate) as real - ticks as real * newRate / oldRate) <= 0.5
  {
    FromTicksIsExact(ticks, oldRate);
    NewTicksAreClose(FromTicks(ticks, oldRate), ticks, oldRate, newRate);
  }

  lemma Rounded(x: real)
    requires x >= 0.0
    ensures (x + 0.5).Floor >= 0 && Abs((x + 0.5).Floor as real - x) <= 0.5
  {
  }

  lemma ScaledValue(v: real, t: real, a: real, b: real, exact: real)
    requires a >= 1.0 && v * a == t && exact == t * b / a
    ensures v * b == exact
  {
    Undivide(t * b, a);
    Swap(v, b, a);
    Cancel(v * b, exact, a);
  }

  lemma Swap(v: real, b: real, a: real)
    ensures v * b * a == v * a * b
  {
  }

  lemma Cancel(x: real, y: real, a: real)
    requires a >= 1.0 && x * a == y * a
    ensures x == y
  {
    assert (x - y) * a == 0.0;
  }

  /** The time a counter shows. */
  function TimeOf(ticks: int, rate: Rate): real
  {
    ticks as real / rate
  }

  /** One rate change moves absolute time by at most half a tick of the new rate. */
  lemma RebasedTime(ticks: nat, oldRate: Rate, newRate: Rate)
    ensures Abs(TimeOf(Rebased(ticks, oldRate, newRate), newRate) - TimeOf(ticks, oldRate)) <= 0.5 / newRate
  {
    FromTicksIsExact(ticks, oldRate);
    NewTime(FromTicks(ticks, oldRate), ticks, oldRate, newRate);
  }

  lemma NewTime(s: Spec, ticks: nat, oldRate: Rate, newRate: Rate)
    requires Normal(s) && Value(s) * oldRate == ticks as real
    ensures Abs(TimeOf(ToTicks(s, newRate), newRate) - TimeOf(ticks, oldRate)) <= 0.5 / newRate
  {
    NewTicks(s, ticks, oldRate, newRate);
    Undivide(ticks as real, oldRate);
    Cancel(Value(s), ticks as real / oldRate, oldRate);
    DivideBound(ToTicks(s, newRate) as real, Value(s), newRate);
  }

  lemma DivideBound(r: real, v: real, rate: real)
    requires rate >= 1.0 && Abs(r - v * rate) <= 0.5
    ensures Abs(r / rate - v) <= 0.5 / rate
  {
    Undivide(r, rate);
    Undivide(0.5, rate);
    var d, h := r / rate - v, 0.5 / rate;
    assert d * rate == r - v * rate && h * rate == 0.5;
    if d > h {
      Ordered(h, d, rate);
    } else if -d > h {
      Ordered(h, -d, rate);
      Negated(d, rate);
    }
  }

  lemma Negated(a: real, b: real)
    ensures (-a) * b == -(a * b)
  {
  }

  lemma Ordered(a: real, b: real, r: real)
    requires a < b && r >= 1.0
    ensures a * r < b * r
  {
    assert (b - a) * r > 0.0;
  }

  /** The counters of a run of rate changes. */
  function Counter(ticks: nat, rates: seq<Rate>): nat
    requires rates != []
  {
    if |rates| == 1 then ticks
    else
      var k := |rates| - 1;
      RebasedIsClose(Counter(ticks, rates[..k]), rates[k - 1], rates[k]);
      Rebased(Counter(ticks, rates[..k]), rates[k - 1], rates[k])
  }

  /** Half a tick, in seconds. */
  function HalfTick(rate: Rate): real {
    0.5 / rate
  }

  /** Half a tick of every new rate. */
  function Drift(rates: seq<Rate>): real
  {
    if |rates| <= 1 then 0.0 else Drift(rates[..|rates| - 1]) + HalfTick(rates[|rates| - 1])
  }

  /** Over any run of rate changes absolute time drifts by at most the sum of half ticks. */
  lemma {:induction false} DriftIsBounded(ticks: nat, rates: seq<Rate>)
    requires rates != []
    ensures Abs(TimeOf(Counter(ticks, rates), rates[|rates| - 1]) - TimeOf(ticks, rates[0])) <= Drift(rates)
  {
    if |rates| > 1 {
      var k := |rates| - 1;
      DriftIsBounded(ticks, rates[..k]);
      RebasedTime(Counter(ticks, rates[..k]), rates[k - 1], rates[k]);
    }
  }

  /**
   * The fraction that from_ticks hands to time_spec_init, for whole seconds and a rest of ticks: its whole part fits
   * the 32-bit conversion there as long as the seconds do.
   */
  lemma FractionFitsInt(secs: nat, error: nat, rate: Rate, frac: real)
    requires error < rate.Floor && secs < 0x8000_0000
    requires frac == (error as real - secs as real * (rate - rate.Floor as real)) / rate
    ensures -0x8000_0000 <= Trunc(frac) < 0x8000_0000
  {
    var rateFrac := rate - rate.Floor as real;
    FractionBound(secs as real, rateFrac, rate);
    DivideRange(error as real - secs as real * rateFrac, secs as real, rate, frac);
    TruncRange(frac, secs);
  }

  lemma TruncRange(x: real, secs: int)
    requires -(secs as real) <= x < 1.0
    ensures 0 - secs <= Trunc(x) <= 0
  {
  }

  lemma FractionBound(secs: real, rateFrac: real, rate: real)
    requires secs >= 0.0 && 0.0 <= rateFrac < 1.0 <= rate
    ensures 0.0 <= secs * rateFrac <= secs * rate
  {
    assert secs * (rate - rateFrac) >= 0.0;
  }

  lemma DivideRange(x: real, secs: real, rate: real, q: real)
    requires rate >= 1.0 && secs >= 0.0 && -(secs * rate) <= x < rate && q == x / rate
    ensures -secs <= q < 1.0
  {
    Undivide(x, rate);
    if q >= 1.0 {
      NonNegativeProduct(q - 1.0, rate);
    }
    if q < -secs {
      Ordered(q, -secs, rate);
    }
  }

  /** time_spec_t as the object that its operators update. */
  class TimeSpecT {
    var fullSecs: int
    var fracSecs: real

    function View(): Spec
      reads this
    {
      Spec(fullSecs, fracSecs)
    }

    constructor (full: int, frac: real)
      ensures View() == Init(full, frac)
    {
      var whole := Trunc(frac);
      var rest := frac - whole as real;
      fullSecs, fracSecs := if rest < 0.0 then full + whole - 1 else full + whole, if rest < 0.0 then rest + 1.0 else rest;
    }

    /** The body of time_spec_init. */
    method Assign(full: int, frac: real)
      modifies this
      ensures View() == Init(full, frac)
    {
      var whole := Trunc(frac);
      fullSecs := full + whole;
      fracSecs := frac - whole as real;
      if fracSecs < 0.0 {
        fullSecs := fullSecs - 1;
        fracSecs := fracSecs + 1.0;
      }
    }

    method AddAssign(rhs: TimeSpecT)
      modifies this
      ensures View() == Plus(old(View()), old(rhs.View())) && Value(View()) == Value(old(View())) + Value(old(rhs.View()))
    {
      Assign(fullSecs + rhs.fullSecs, fracSecs + rhs.fracSecs);
    }

    method SubAssign(rhs: TimeSpecT)
      modifies this
      ensures View() == Minus(old(View()), old(rhs.View())) && Value(View()) == Value(old(View())) - Value(old(rhs.View()))
    {
      Assign(fullSecs - rhs.fullSecs, fracSecs - rhs.fracSecs);
    }
  }
}
