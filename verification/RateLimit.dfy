/** The decaying hit rate of src/regex_manager.cpp, over exact reals, for one address and one rule. */
module RateLimit {

  /** Beginning of the observation window in msec (0: no record) and approximate hits per msec. */
  datatype RegexState = RegexState(begin: nat, rate: real)

  const FRESH := RegexState(0, 0.0)

  /** The rate after the window moved by `m` msec, the new hit included. */
  function MovedRate(rate: real, m: real, interval: real): real
    requires interval > 0.0
  {
    rate - (rate * m - 1.0) / interval
  }

  /** One matching hit at `now`: move the window if it has ended, decay, count. */
  function Bump(interval: nat, st: RegexState, now: nat): RegexState
    requires interval > 0
  {
    var begin := if st.begin == 0 then now else st.begin;
    var movement := now - begin - interval;
    if movement > 0 then
      var rate := MovedRate(st.rate, movement as real, interval as real);
      RegexState(begin + movement, if rate < 0.0 then 1.0 / interval as real else rate)
    else
      RegexState(begin, st.rate + 1.0 / interval as real)
  }

  function Scaled(rate: real, interval: real): real {
    rate * interval
  }

  /** The rate in hits per interval. */
  function Hits(interval: nat, st: RegexState): real {
    Scaled(st.rate, interval as real)
  }

  // ----- the update in hits per interval -----

  lemma {:induction false} InWindow(interval: nat, st: RegexState, now: nat)
    requires interval > 0 && now <= (if st.begin == 0 then now else st.begin) + interval
    ensures Hits(interval, Bump(interval, st, now)) == Hits(interval, st) + 1.0
  {
    var i := interval as real;
    assert (st.rate + 1.0 / i) * i == st.rate * i + 1.0;
  }

  /** A count `r` after the window moved by `m` of `i`, plus the new hit. */
  function Decayed(r: real, m: real, i: real): real
    requires i > 0.0
  {
    r * (1.0 - m / i) + 1.0
  }

  lemma {:induction false} Moved(interval: nat, st: RegexState, now: nat)
    requires interval > 0 && st.begin > 0 && now > st.begin + interval
    ensures Bump(interval, st, now).begin == now - interval
    ensures var r := Decayed(Hits(interval, st), (now - st.begin - interval) as real, interval as real);
            Hits(interval, Bump(interval, st, now)) == if r < 0.0 then 1.0 else r
  {
    var i, m := interval as real, (now - st.begin - interval) as real;
    hide Decayed, MovedRate, Scaled;
    MovedAlgebra(st.rate, i, m);
    Scale(MovedRate(st.rate, m, i), i);
  }

  lemma {:induction false} Scale(x: real, i: real)
    requires i > 0.0
    ensures x < 0.0 <==> Scaled(x, i) < 0.0
    ensures Scaled(1.0 / i, i) == 1.0
  {
  }

  lemma {:induction false} MovedAlgebra(rate: real, i: real, m: real)
    requires i > 0.0
    ensures Scaled(MovedRate(rate, m, i), i) == Decayed(Scaled(rate, i), m, i)
  {
    var x := rate * m - 1.0;
    assert x / i * i == x;
    assert (rate - x / i) * i == rate * i - x;
    assert (rate * i) * (m / i) == rate * (i * (m / i)) == rate * m;
    assert (rate * i) * (1.0 - m / i) == rate * i - (rate * i) * (m / i);
  }

  // ----- hits that keep their distance -----

  /** The last counted hit lies in the window, and the count is what hits `d` apart could have reached by then. */
  ghost predicate Spaced(interval: nat, st: RegexState, last: nat, d: real)
    requires d > 0.0
  {
    && 0 < st.begin <= last <= st.begin + interval
    && 0.0 <= Hits(interval, st) <= (last - st.begin) as real / d + 1.0
  }

  lemma {:induction false} DivideMonotone(a: real, b: real, d: real)
    requires a <= b && d > 0.0
    ensures a / d <= b / d
  {
    assert a / d * d == a && b / d * d == b;
  }

  /** A window move cannot push the count over `i / d + 1`. */
  lemma {:induction false} DecayBound(r: real, i: real, m: real, d: real)
    requires i > 0.0 && m > 0.0 && d > 0.0 && 0.0 <= r <= (i + m) / d
    ensures Decayed(r, m, i) <= i / d + 1.0
  {
    var x := 1.0 - m / i;
    if x <= 0.0 {
      assert r * x <= 0.0;
      assert i / d > 0.0;
    } else {
      assert r * x <= (i + m) / d * x;
      assert (i + m) * x == i - m * (m / i) by {
        assert i * (m / i) == m;
      }
      assert m * (m / i) >= 0.0;
      assert (i + m) / d * x == (i + m) * x / d;
      DivideMonotone((i + m) * x, i, d);
    }
  }

  lemma {:induction false} FirstHit(interval: nat, now: nat, d: real)
    requires interval > 0 && now > 0 && d > 0.0
    ensures Spaced(interval, Bump(interval, FRESH, now), now, d)
  {
    InWindow(interval, FRESH, now);
    assert 0.0 / d == 0.0;
  }

  /** The invariant survives every further hit at distance at least `d`. */
  lemma {:induction false} SpacedHit(interval: nat, st: RegexState, last: nat, now: nat, d: real)
    requires interval > 0 && d > 0.0 && Spaced(interval, st, last, d)
    requires now > interval && now as real >= last as real + d
    ensures Spaced(interval, Bump(interval, st, now), now, d)
  {
    hide Bump, Decayed, Hits;
    var i, r := interval as real, Hits(interval, st);
    var gap := (now - st.begin) as real;
    SpacedGap((last - st.begin) as real, gap, d);
    assert r <= gap / d;
    if now <= st.begin + interval {
      BumpInWindow(interval, st, now);
      InWindow(interval, st, now);
    } else {
      Moved(interval, st, now);
      DecayBound(r, i, gap - i, d);
      assert gap == i + (gap - i);
      Positive(i, d);
    }
  }

  lemma {:induction false} BumpInWindow(interval: nat, st: RegexState, now: nat)
    requires interval > 0 && 0 < st.begin && now <= st.begin + interval
    ensures Bump(interval, st, now).begin == st.begin
  {
  }

  lemma {:induction false} Positive(i: real, d: real)
    requires i > 0.0 && d > 0.0
    ensures i / d > 0.0
  {
  }

  lemma {:induction false} SpacedGap(before: real, gap: real, d: real)
    requires d > 0.0 && gap >= before + d
    ensures before / d + 1.0 <= gap / d
  {
    var x, y := before / d + 1.0, gap / d;
    assert x * d == before / d * d + d == before + d;
    assert y * d == gap;
    NonNegativeFactor(y - x, d);
  }

  lemma {:induction false} NonNegativeFactor(z: real, d: real)
    requires d > 0.0 && z * d >= 0.0
    ensures z >= 0.0
  {
  }

  /** In any spaced state the count is at most `interval / d + 1`. */
  lemma {:induction false} SpacedBound(interval: nat, st: RegexState, last: nat, d: real)
    requires d > 0.0 && Spaced(interval, st, last, d)
    ensures Hits(interval, st) <= interval as real / d + 1.0
  {
    DivideMonotone((last - st.begin) as real, interval as real, d);
  }

  // ----- never more than the true count; exact in the first window; forgotten after silence -----

  /** The count is nonnegative and at most the number of hits recorded; the last one lies in the window. */
  ghost predicate Counted(interval: nat, st: RegexState, last: nat, n: nat) {
    && 0.0 <= Hits(interval, st) <= n as real
    && (st.begin == 0 ==> st.rate == 0.0)
    && (st.begin > 0 ==> st.begin <= last <= st.begin + interval)
  }

  lemma {:induction false} CountedHit(interval: nat, st: RegexState, last: nat, n: nat, now: nat)
    requires interval > 0 && Counted(interval, st, last, n) && now > interval && last <= now
    ensures Counted(interval, Bump(interval, st, now), now, n + 1)
    ensures Bump(interval, st, now).begin > 0
  {
    if st.begin == 0 || now <= st.begin + interval {
      InWindow(interval, st, now);
    } else {
      Moved(interval, st, now);
      var m := (now - st.begin - interval) as real;
      DecayAtMost(Hits(interval, st), m, interval as real);
      hide Bump, Decayed, Hits;
    }
  }

  lemma {:induction false} DecayAtMost(r: real, m: real, i: real)
    requires i > 0.0 && m >= 0.0 && r >= 0.0
    ensures Decayed(r, m, i) <= r + 1.0
    ensures m >= i ==> Decayed(r, m, i) <= 1.0
  {
    var f := m / i;
    assert f >= 0.0 && (m >= i ==> f >= 1.0);
    assert r * f >= 0.0;
    assert r * (1.0 - f) == r - r * f;
    if m >= i {
      assert r * (1.0 - f) <= 0.0;
    }
  }

  /** After a silence of two intervals the next hit counts as at most one. */
  lemma {:induction false} SilenceForgets(interval: nat, st: RegexState, last: nat, n: nat, now: nat)
    requires interval > 0 && st.begin > 0 && Counted(interval, st, last, n)
    requires now >= last + 2 * interval
    ensures Hits(interval, Bump(interval, st, now)) <= 1.0
  {
    Moved(interval, st, now);
    DecayAtMost(Hits(interval, st), (now - st.begin - interval) as real, interval as real);
    hide Bump, Decayed, Hits;
  }

  /** The first `n` hits of a record, all within one interval of the first, count exactly. */
  ghost predicate FirstWindow(interval: nat, st: RegexState, first: nat, n: nat) {
    if n == 0 then st == FRESH
    else st.begin == first && Hits(interval, st) == n as real
  }

  lemma {:induction false} FirstWindowHit(interval: nat, st: RegexState, first: nat, n: nat, now: nat)
    requires interval > 0 && first > 0 && FirstWindow(interval, st, first, n)
    requires if n == 0 then now == first else now <= first + interval
    ensures FirstWindow(interval, Bump(interval, st, now), first, n + 1)
  {
    InWindow(interval, st, now);
  }
}
