/** src/regex_manager.cpp: the hit rate with overlapping visits. */
module SplitRates {
  import opened Bytes
  import opened RateLimit
  import opened RegexManager
  import opened RateRuns
  import opened SplitRuns
  import IpDb
  import Isolation

  type Vector = seq<RegexState>

  /** A table that holds nothing but this entry. */
  function Single(ip: Str, e: Option<Vector>): RegexDb {
    if e.Some? then map[ip := e.value] else map[]
  }

  predicate Fits(rules: seq<Rule>, e: Option<Vector>) {
    e.Some? ==> |e.value| == |rules|
  }

  /** What a visit finds and decides, given the entry it read. */
  ghost function Found(rules: seq<Rule>, v: Visit, e: Option<Vector>): Outcome
    requires ValidRules(rules) && Fits(rules, e)
  {
    Matched(rules, v, Single(v.ip, e))
  }

  /** What it then writes. */
  ghost function RateChange(rules: seq<Rule>, v: Visit, e: Option<Vector>): Change<Vector>
    requires ValidRules(rules) && Fits(rules, e)
  {
    var after := IpDb.Entry(Found(rules, v, e).db, v.ip);
    if after == e || after.None? then Keep else Store(after.value)
  }

  ghost function RatePlan(rules: seq<Rule>): Plan<Visit, Vector>
    requires ValidRules(rules)
  {
    (v, e) => if Fits(rules, e) then RateChange(rules, v, e) else Keep
  }

  /** The record of rule `j` in an entry. */
  function RecordIn(e: Option<Vector>, j: nat): RegexState {
    if e.Some? && j < |e.value| then e.value[j] else FRESH
  }

  /** A visit decides to store each record as it read it, or with itself counted once. */
  lemma {:induction false} ChangeEffect(rules: seq<Rule>, v: Visit, e: Option<Vector>, j: nat)
    requires ValidRules(rules) && Fits(rules, e) && j < |rules|
    ensures var c := RateChange(rules, v, e);
            && !c.Erase? && (c.Store? ==> |c.value| == |rules|)
            && (c.Store? && c.value[j] != RecordIn(e, j) ==>
                  IsHit(rules, v, j) && c.value[j] == Bump(rules[j].interval, RecordIn(e, j), v.env.now(j)))
  {
    hide Bump, Matched;
    MatchedEffect(rules, v, Single(v.ip, e));
    assert KeptOrCounted(rules, v, Single(v.ip, e), j, Record(Found(rules, v, e).db, v.ip, j));
  }

  /** A ban by rule `j` means a hit on it whose count reaches the threshold. */
  lemma {:induction false} FoundEffect(rules: seq<Rule>, v: Visit, e: Option<Vector>, j: nat)
    requires ValidRules(rules) && Fits(rules, e) && j < |rules| && rules[j].hits > 0
    requires Found(rules, v, e).hit == Some(j)
    ensures IsHit(rules, v, j) && Bump(rules[j].interval, RecordIn(e, j), v.env.now(j)).rate >= Threshold(rules[j])
  {
    hide Bump, Matched, Threshold;
    MatchedEffect(rules, v, Single(v.ip, e));
  }

  /** Read and write with nothing in between are the visit as a whole. */
  lemma {:induction false} WholeVisit(rules: seq<Rule>, v: Visit, db: RegexDb)
    requires ValidRules(rules) && ValidDb(rules, db)
    ensures var e := IpDb.Entry(db, v.ip);
            && Fits(rules, e)
            && IpDb.Entry(Matched(rules, v, db).db, v.ip) == Applied(e, RateChange(rules, v, e))
            && Matched(rules, v, db).hit == Found(rules, v, e).hit
  {
    hide Scan;
    var e := IpDb.Entry(db, v.ip);
    Isolation.ScanLocal(rules, v, db, Single(v.ip, e), 0, None);
    if e.Some? {
      StillThere(rules, v, e);
    }
  }

  lemma {:induction false} StillThere(rules: seq<Rule>, v: Visit, e: Option<Vector>)
    requires ValidRules(rules) && Fits(rules, e) && e.Some?
    ensures IpDb.Entry(Found(rules, v, e).db, v.ip).Some?
  {
    ScanKeeps(rules, v, Single(v.ip, e), 0, None);
  }

  lemma {:induction false} ScanKeeps(rules: seq<Rule>, v: Visit, db: RegexDb, k: nat, st: Option<Vector>)
    requires ValidRules(rules) && ValidDb(rules, db) && k <= |rules| && (st.Some? ==> |st.value| == |rules|)
    ensures v.ip in db ==> v.ip in Scan(rules, v, db, k, st).db
    decreases |rules| - k
  {
    hide Bump, Threshold;
    if k < |rules| && v.host !in rules[k].hostsToSkip {
      if !rules[k].matches(v.record) {
        ScanKeeps(rules, v, db, k + 1, st);
      } else if rules[k].hits > 0 {
        var held := Loaded(rules, v, db, k, st);
        if held.None? {
          ScanKeeps(rules, v, db, k + 1, None);
        } else {
          ScanKeeps(rules, v, db, k + 1, Some(held.value[k := Bump(rules[k].interval, held.value[k], v.env.now(k))]));
        }
      }
    }
  }

  // ----- stored vectors fit -----

  ghost predicate AllFit(rules: seq<Rule>, m: Mid<Visit, Vector>, ip: Str) {
    && Fits(rules, IpDb.Entry(m.db, ip))
    && forall id: nat :: (id, ip) in m.pending ==>
         var c := m.pending[(id, ip)].change;
         !c.Erase? && (c.Store? ==> |c.value| == |rules|)
  }

  lemma {:induction false} RunFits(rules: seq<Rule>, moves: seq<Move<Visit>>, ip: Str, n: nat)
    requires ValidRules(rules) && n <= |moves|
    ensures AllFit(rules, Run(RatePlan(rules), map[], moves[..n]), ip)
  {
    if n == 0 {
      assert moves[..0] == [];
    } else {
      hide Run, AllFit, RateChange;
      RunFits(rules, moves, ip, n - 1);
      RunStep(RatePlan(rules), map[], moves, n - 1);
      MoveFits(rules, Run(RatePlan(rules), map[], moves[..n - 1]), moves[n - 1], ip);
    }
  }

  lemma {:induction false} MoveFits(rules: seq<Rule>, m: Mid<Visit, Vector>, move: Move<Visit>, ip: Str)
    requires ValidRules(rules) && AllFit(rules, m, ip)
    ensures AllFit(rules, SplitRuns.After(RatePlan(rules), m, move), ip)
  {
    hide RateChange;
    if move.Fetch? && move.ip == ip {
      SomeFit(rules, move.op, IpDb.Entry(m.db, ip));
    }
  }

  lemma {:induction false} SomeFit(rules: seq<Rule>, v: Visit, e: Option<Vector>)
    requires ValidRules(rules) && Fits(rules, e)
    ensures var c := RateChange(rules, v, e); !c.Erase? && (c.Store? ==> |c.value| == |rules|)
  {
    hide Matched;
    MatchedEffect(rules, v, Single(v.ip, e));
  }

  // ----- never more than was recorded, whatever overlaps -----

  /** Writes of `ip` among the first `n` moves that count a hit on rule `j`: the hits that were recorded. */
  ghost function Recorded(rules: seq<Rule>, moves: seq<Move<Visit>>, ip: Str, j: nat, n: nat): nat
    requires ValidRules(rules) && j < |rules| && n <= |moves|
  {
    if n == 0 then 0
    else Recorded(rules, moves, ip, j, n - 1) + if RecordsAt(rules, moves, ip, j, n - 1) then 1 else 0
  }

  /** Move `k` stores a record of rule `j` that differs from the one its visit read. */
  ghost predicate RecordsAt(rules: seq<Rule>, moves: seq<Move<Visit>>, ip: Str, j: nat, k: nat)
    requires ValidRules(rules) && j < |rules| && k < |moves|
  {
    var m := Run(RatePlan(rules), map[], moves[..k]);
    moves[k].Commit? && moves[k].ip == ip && (moves[k].id, ip) in m.pending && Counts(m.pending[(moves[k].id, ip)], j)
  }

  ghost predicate Counts(held: Pending<Visit, Vector>, j: nat) {
    held.change.Store? && RecordIn(Some(held.change.value), j) != RecordIn(held.seen, j)
  }

  /** One hit adds at most one, whenever its clock was read. */
  lemma {:induction false} BumpAtMost(interval: nat, st: RegexState, now: nat)
    requires interval > 0 && Hits(interval, st) >= 0.0
    ensures 0.0 <= Hits(interval, Bump(interval, st, now)) <= Hits(interval, st) + 1.0
  {
    if st.begin == 0 || now <= st.begin + interval {
      InWindow(interval, st, now);
    } else {
      Moved(interval, st, now);
      DecayAtMost(Hits(interval, st), (now - st.begin - interval) as real, interval as real);
      hide Bump, Decayed, Hits;
    }
  }

  ghost predicate Bounded(rules: seq<Rule>, m: Mid<Visit, Vector>, ip: Str, j: nat, count: nat)
    requires ValidRules(rules) && j < |rules|
  {
    && 0.0 <= Hits(rules[j].interval, RecordIn(IpDb.Entry(m.db, ip), j)) <= count as real
    && forall id: nat :: (id, ip) in m.pending && m.pending[(id, ip)].change.Store? ==>
         0.0 <= Hits(rules[j].interval, RecordIn(Some(m.pending[(id, ip)].change.value), j))
             <= (count + if Counts(m.pending[(id, ip)], j) then 1 else 0) as real
  }

  lemma {:induction false} FetchBounded(rules: seq<Rule>, v: Visit, e: Option<Vector>, j: nat, count: nat)
    requires ValidRules(rules) && Fits(rules, e) && j < |rules|
    requires 0.0 <= Hits(rules[j].interval, RecordIn(e, j)) <= count as real
    ensures var c := RateChange(rules, v, e);
            c.Store? ==> 0.0 <= Hits(rules[j].interval, RecordIn(Some(c.value), j))
                             <= (count + if Counts(Pending(v, e, c), j) then 1 else 0) as real
  {
    ChangeEffect(rules, v, e, j);
    BumpAtMost(rules[j].interval, RecordIn(e, j), v.env.now(j));
    hide RateChange, Bump, Hits, IsHit;
  }

  lemma {:induction false} BoundedRun(rules: seq<Rule>, moves: seq<Move<Visit>>, ip: Str, j: nat, n: nat)
    requires ValidRules(rules) && j < |rules| && n <= |moves|
    ensures Bounded(rules, Run(RatePlan(rules), map[], moves[..n]), ip, j, Recorded(rules, moves, ip, j, n))
  {
    hide Run, RatePlan, IsHit, Bounded, AllFit, SplitRuns.After;
    if n == 0 {
      BoundedStart(rules, moves, ip, j);
    } else {
      BoundedRun(rules, moves, ip, j, n - 1);
      RunFits(rules, moves, ip, n - 1);
      RunStep(RatePlan(rules), map[], moves, n - 1);
      var before, count := Run(RatePlan(rules), map[], moves[..n - 1]), Recorded(rules, moves, ip, j, n - 1);
      if moves[n - 1].Fetch? {
        FetchKeepsBound(rules, before, moves[n - 1], ip, j, count);
      } else {
        CommitKeepsBound(rules, before, moves[n - 1], ip, j, count);
      }
    }
  }

  lemma {:induction false} BoundedStart(rules: seq<Rule>, moves: seq<Move<Visit>>, ip: Str, j: nat)
    requires ValidRules(rules) && j < |rules|
    ensures Bounded(rules, Run(RatePlan(rules), map[], moves[..0]), ip, j, 0)
  {
    assert moves[..0] == [];
    FreshHits(rules[j].interval);
  }

  lemma {:induction false} FetchKeepsBound(rules: seq<Rule>, m: Mid<Visit, Vector>, move: Move<Visit>, ip: Str,
                                           j: nat, count: nat)
    requires ValidRules(rules) && j < |rules| && Bounded(rules, m, ip, j, count) && AllFit(rules, m, ip) && move.Fetch?
    ensures Bounded(rules, SplitRuns.After(RatePlan(rules), m, move), ip, j, count)
  {
    hide RateChange, IsHit, Hits;
    if move.ip == ip {
      FetchBounded(rules, move.op, IpDb.Entry(m.db, ip), j, count);
    }
  }

  lemma {:induction false} CommitKeepsBound(rules: seq<Rule>, m: Mid<Visit, Vector>, move: Move<Visit>, ip: Str,
                                            j: nat, count: nat)
    requires ValidRules(rules) && j < |rules| && Bounded(rules, m, ip, j, count) && AllFit(rules, m, ip) && move.Commit?
    ensures var records := move.ip == ip && (move.id, ip) in m.pending && Counts(m.pending[(move.id, ip)], j);
            Bounded(rules, SplitRuns.After(RatePlan(rules), m, move), ip, j, count + if records then 1 else 0)
  {
    hide RateChange, IsHit, Hits;
  }

  /**
   * With every read and write a separate step, any lock failures and any clocks: the stored rate is nonnegative and
   * shows at most as many hits as were recorded.
   */
  lemma {:induction false} NeverOvercounts(rules: seq<Rule>, moves: seq<Move<Visit>>, ip: Str, j: nat)
    requires ValidRules(rules) && j < |rules|
    ensures 0.0 <= Hits(rules[j].interval, RecordIn(IpDb.Entry(Run(RatePlan(rules), map[], moves).db, ip), j))
                <= Recorded(rules, moves, ip, j, |moves|) as real
  {
    BoundedRun(rules, moves, ip, j, |moves|);
    assert moves[..|moves|] == moves;
  }

  // ----- spaced hits -----

  /** A hit on rule `j` of `ip` with clock `t` was stored before move `n`. */
  ghost predicate Stored(rules: seq<Rule>, moves: seq<Move<Visit>>, ip: Str, j: nat, n: nat, t: nat)
    requires ValidRules(rules) && j < |rules| && n <= |moves|
  {
    exists k: nat :: k < n && RecordsAt(rules, moves, ip, j, k) && ClockAt(rules, moves, ip, j, k) == t
  }

  ghost function ClockAt(rules: seq<Rule>, moves: seq<Move<Visit>>, ip: Str, j: nat, k: nat): nat
    requires ValidRules(rules) && j < |rules| && k < |moves| && RecordsAt(rules, moves, ip, j, k)
  {
    Run(RatePlan(rules), map[], moves[..k]).pending[(moves[k].id, ip)].op.env.now(j)
  }

  ghost predicate HitRead(rules: seq<Rule>, moves: seq<Move<Visit>>, ip: Str, j: nat, p: nat)
    requires j < |rules|
  {
    p < |moves| && moves[p].Fetch? && moves[p].ip == ip && IsHit(rules, moves[p].op, j)
  }

  /** Every hit that reads after another was stored has a clock at least `d` later than that one. */
  ghost predicate SpacedReads(rules: seq<Rule>, moves: seq<Move<Visit>>, ip: Str, j: nat, d: real)
    requires ValidRules(rules) && j < |rules|
  {
    forall p: nat :: HitRead(rules, moves, ip, j, p) ==>
      && moves[p].op.env.now(j) > rules[j].interval
      && forall t: nat :: Stored(rules, moves, ip, j, p, t) ==> moves[p].op.env.now(j) as real >= t as real + d
  }

  /** Any two hits have clocks at least `d` apart, in either order. */
  ghost predicate ClocksApart(rules: seq<Rule>, moves: seq<Move<Visit>>, ip: Str, j: nat, d: real)
    requires j < |rules|
  {
    forall p: nat, q: nat :: q < p && HitRead(rules, moves, ip, j, p) && HitRead(rules, moves, ip, j, q) ==>
      || moves[p].op.env.now(j) as real >= moves[q].op.env.now(j) as real + d
      || moves[q].op.env.now(j) as real >= moves[p].op.env.now(j) as real + d
  }

  /** Each hit reads the table before a hit with a later clock is stored, and the clock has run for more than the interval. */
  ghost predicate Prompt(rules: seq<Rule>, moves: seq<Move<Visit>>, ip: Str, j: nat)
    requires ValidRules(rules) && j < |rules|
  {
    forall p: nat :: HitRead(rules, moves, ip, j, p) ==>
      && moves[p].op.env.now(j) > rules[j].interval
      && forall t: nat :: Stored(rules, moves, ip, j, p, t) ==> t <= moves[p].op.env.now(j)
  }

  /** A hit that was stored had read before. */
  lemma {:induction false} StoredWasRead(rules: seq<Rule>, moves: seq<Move<Visit>>, ip: Str, j: nat, k: nat)
    requires ValidRules(rules) && j < |rules| && k < |moves| && RecordsAt(rules, moves, ip, j, k)
    ensures exists q: nat :: q < k && HitRead(rules, moves, ip, j, q)
                        && moves[q].op.env.now(j) == ClockAt(rules, moves, ip, j, k)
  {
    var id := moves[k].id;
    var held := Run(RatePlan(rules), map[], moves[..k]).pending[(id, ip)];
    PendingExplained(RatePlan(rules), map[], moves, k, id, ip);
    hide Wants, Run, IsHit, Counts;
    var q: nat :| q < k && Wants(RatePlan(rules), map[], moves, q, id, ip, held);
    ReadOfStored(rules, moves, ip, j, q, id, held);
  }

  lemma {:induction false} ReadOfStored(rules: seq<Rule>, moves: seq<Move<Visit>>, ip: Str, j: nat, q: nat, id: nat,
                                        held: Pending<Visit, Vector>)
    requires ValidRules(rules) && j < |rules| && Wants(RatePlan(rules), map[], moves, q, id, ip, held)
    requires Counts(held, j)
    ensures HitRead(rules, moves, ip, j, q) && moves[q].op == held.op
  {
    RunFits(rules, moves, ip, q);
    hide Run, RatePlan, IsHit, Counts;
    DecidedByHit(rules, held, j);
  }

  lemma {:induction false} DecidedByHit(rules: seq<Rule>, held: Pending<Visit, Vector>, j: nat)
    requires ValidRules(rules) && j < |rules| && Fits(rules, held.seen) && Counts(held, j)
    requires held.change == RatePlan(rules)(held.op, held.seen)
    ensures IsHit(rules, held.op, j)
  {
    ChangeEffect(rules, held.op, held.seen, j);
    hide RateChange, Bump, IsHit;
  }

  /** In terms of clocks: hits that are `d` apart and read the table promptly are spaced. */
  lemma {:induction false} PromptIsSpaced(rules: seq<Rule>, moves: seq<Move<Visit>>, ip: Str, j: nat, d: real)
    requires ValidRules(rules) && j < |rules| && d > 0.0 && ClocksApart(rules, moves, ip, j, d)
    requires Prompt(rules, moves, ip, j)
    ensures SpacedReads(rules, moves, ip, j, d)
  {
    hide RecordsAt, ClockAt, IsHit;
    forall p: nat, t: nat | HitRead(rules, moves, ip, j, p) && Stored(rules, moves, ip, j, p, t)
      ensures moves[p].op.env.now(j) as real >= t as real + d
    {
      var k: nat :| k < p && RecordsAt(rules, moves, ip, j, k) && ClockAt(rules, moves, ip, j, k) == t;
      StoredWasRead(rules, moves, ip, j, k);
    }
  }

  // What holds of every record that is stored, with respect to the clock of some hit that was stored.

  type Good = (RegexState, nat) -> bool

  ghost predicate Sound(rules: seq<Rule>, moves: seq<Move<Visit>>, ip: Str, j: nat, good: Good, n: nat, st: RegexState)
    requires ValidRules(rules) && j < |rules| && n <= |moves|
  {
    st == FRESH || exists t: nat :: Stored(rules, moves, ip, j, n, t) && good(st, t)
  }

  /** A hit that reads at `p` makes of a sound record one that is good by its own clock, or still sound. */
  ghost predicate Kept(rules: seq<Rule>, moves: seq<Move<Visit>>, ip: Str, j: nat, good: Good, p: nat, st: RegexState)
    requires ValidRules(rules) && j < |rules|
  {
    HitRead(rules, moves, ip, j, p) && Sound(rules, moves, ip, j, good, p, st) ==>
      var now := moves[p].op.env.now(j);
      var after := Bump(rules[j].interval, st, now);
      good(after, now) || Sound(rules, moves, ip, j, good, p, after)
  }

  ghost predicate AlwaysKept(rules: seq<Rule>, moves: seq<Move<Visit>>, ip: Str, j: nat, good: Good)
    requires ValidRules(rules) && j < |rules|
  {
    forall p: nat, st: RegexState :: Kept(rules, moves, ip, j, good, p, st)
  }

  /** A pending record is sound, or will be by its own clock once it is stored. */
  ghost predicate SoundWhenStored(rules: seq<Rule>, moves: seq<Move<Visit>>, ip: Str, j: nat, good: Good, n: nat,
                                  held: Pending<Visit, Vector>)
    requires ValidRules(rules) && j < |rules| && n <= |moves| && held.change.Store?
  {
    var st := RecordIn(Some(held.change.value), j);
    Sound(rules, moves, ip, j, good, n, st) || (Counts(held, j) && good(st, held.op.env.now(j)))
  }

  ghost predicate AllSound(rules: seq<Rule>, moves: seq<Move<Visit>>, ip: Str, j: nat, good: Good, n: nat)
    requires ValidRules(rules) && j < |rules| && n <= |moves|
  {
    var m := Run(RatePlan(rules), map[], moves[..n]);
    && Sound(rules, moves, ip, j, good, n, RecordIn(IpDb.Entry(m.db, ip), j))
    && forall id: nat :: (id, ip) in m.pending && m.pending[(id, ip)].change.Store? ==>
         SoundWhenStored(rules, moves, ip, j, good, n, m.pending[(id, ip)])
  }

  lemma {:induction false} SoundLater(rules: seq<Rule>, moves: seq<Move<Visit>>, ip: Str, j: nat, good: Good, n: nat,
                                      st: RegexState)
    requires ValidRules(rules) && j < |rules| && n < |moves| && Sound(rules, moves, ip, j, good, n, st)
    ensures Sound(rules, moves, ip, j, good, n + 1, st)
  {
    hide RecordsAt, ClockAt;
  }

  lemma {:induction false} HeldLater(rules: seq<Rule>, moves: seq<Move<Visit>>, ip: Str, j: nat, good: Good, n: nat,
                                     held: Pending<Visit, Vector>)
    requires ValidRules(rules) && j < |rules| && n < |moves| && held.change.Store?
    requires SoundWhenStored(rules, moves, ip, j, good, n, held)
    ensures SoundWhenStored(rules, moves, ip, j, good, n + 1, held)
  {
    hide Sound, Counts;
    var st := RecordIn(Some(held.change.value), j);
    if Sound(rules, moves, ip, j, good, n, st) {
      SoundLater(rules, moves, ip, j, good, n, st);
    }
  }

  /** What a visit decides to store. */
  lemma {:induction false} FetchSound(rules: seq<Rule>, moves: seq<Move<Visit>>, ip: Str, j: nat, good: Good, p: nat,
                                      e: Option<Vector>)
    requires ValidRules(rules) && Fits(rules, e) && j < |rules| && AlwaysKept(rules, moves, ip, j, good)
    requires p < |moves| && moves[p].Fetch? && moves[p].ip == ip && Sound(rules, moves, ip, j, good, p, RecordIn(e, j))
    ensures var held := Pending(moves[p].op, e, RateChange(rules, moves[p].op, e));
            held.change.Store? ==> SoundWhenStored(rules, moves, ip, j, good, p, held)
  {
    ChangeEffect(rules, moves[p].op, e, j);
    hide RateChange, Bump, Sound, IsHit;
    assert Kept(rules, moves, ip, j, good, p, RecordIn(e, j));
  }

  lemma {:induction false} SoundRun(rules: seq<Rule>, moves: seq<Move<Visit>>, ip: Str, j: nat, good: Good, n: nat)
    requires ValidRules(rules) && j < |rules| && n <= |moves| && AlwaysKept(rules, moves, ip, j, good)
    ensures AllSound(rules, moves, ip, j, good, n)
  {
    if n == 0 {
      assert moves[..0] == [];
    } else {
      hide Run, AllSound, AlwaysKept;
      SoundRun(rules, moves, ip, j, good, n - 1);
      if moves[n - 1].Fetch? {
        FetchKeepsSound(rules, moves, ip, j, good, n - 1);
      } else {
        CommitKeepsSound(rules, moves, ip, j, good, n - 1);
      }
    }
  }

  lemma {:induction false} FetchKeepsSound(rules: seq<Rule>, moves: seq<Move<Visit>>, ip: Str, j: nat, good: Good,
                                           n: nat)
    requires ValidRules(rules) && j < |rules| && n < |moves| && AlwaysKept(rules, moves, ip, j, good)
    requires AllSound(rules, moves, ip, j, good, n) && moves[n].Fetch?
    ensures AllSound(rules, moves, ip, j, good, n + 1)
  {
    RunFits(rules, moves, ip, n);
    RunStep(RatePlan(rules), map[], moves, n);
    hide Run, RateChange, Sound, SoundWhenStored, AlwaysKept;
    var m, before, after := moves[n], Run(RatePlan(rules), map[], moves[..n]), Run(RatePlan(rules), map[], moves[..n + 1]);
    var e := IpDb.Entry(before.db, ip);
    SoundLater(rules, moves, ip, j, good, n, RecordIn(e, j));
    forall id: nat | (id, ip) in after.pending && after.pending[(id, ip)].change.Store?
      ensures SoundWhenStored(rules, moves, ip, j, good, n + 1, after.pending[(id, ip)])
    {
      if m.id == id && m.ip == ip {
        FetchSound(rules, moves, ip, j, good, n, e);
      }
      HeldLater(rules, moves, ip, j, good, n, after.pending[(id, ip)]);
    }
  }

  lemma {:induction false} CommitKeepsSound(rules: seq<Rule>, moves: seq<Move<Visit>>, ip: Str, j: nat, good: Good,
                                            n: nat)
    requires ValidRules(rules) && j < |rules| && n < |moves| && AllSound(rules, moves, ip, j, good, n)
    requires moves[n].Commit?
    ensures AllSound(rules, moves, ip, j, good, n + 1)
  {
    RunFits(rules, moves, ip, n);
    RunStep(RatePlan(rules), map[], moves, n);
    hide Run, RatePlan, Sound, SoundWhenStored;
    var m, before, after := moves[n], Run(RatePlan(rules), map[], moves[..n]), Run(RatePlan(rules), map[], moves[..n + 1]);
    SoundLater(rules, moves, ip, j, good, n, RecordIn(IpDb.Entry(before.db, ip), j));
    forall id: nat | (id, ip) in after.pending && after.pending[(id, ip)].change.Store?
      ensures SoundWhenStored(rules, moves, ip, j, good, n + 1, after.pending[(id, ip)])
    {
      HeldLater(rules, moves, ip, j, good, n, after.pending[(id, ip)]);
    }
    if m.ip == ip && (m.id, ip) in before.pending && before.pending[(m.id, ip)].change.Store? {
      CommitSound(rules, moves, ip, j, good, n);
    }
  }

  lemma {:induction false} CommitSound(rules: seq<Rule>, moves: seq<Move<Visit>>, ip: Str, j: nat, good: Good, k: nat)
    requires ValidRules(rules) && j < |rules| && k < |moves| && AllSound(rules, moves, ip, j, good, k)
    requires moves[k].Commit? && moves[k].ip == ip
    requires (moves[k].id, ip) in Run(RatePlan(rules), map[], moves[..k]).pending
    requires Run(RatePlan(rules), map[], moves[..k]).pending[(moves[k].id, ip)].change.Store?
    ensures var held := Run(RatePlan(rules), map[], moves[..k]).pending[(moves[k].id, ip)];
            Sound(rules, moves, ip, j, good, k + 1, RecordIn(Some(held.change.value), j))
  {
    hide Run;
    var held := Run(RatePlan(rules), map[], moves[..k]).pending[(moves[k].id, ip)];
    var st := RecordIn(Some(held.change.value), j);
    if Sound(rules, moves, ip, j, good, k, st) {
      SoundLater(rules, moves, ip, j, good, k, st);
    } else {
      assert RecordsAt(rules, moves, ip, j, k) && ClockAt(rules, moves, ip, j, k) == held.op.env.now(j);
      assert Stored(rules, moves, ip, j, k + 1, held.op.env.now(j));
    }
  }

  // ----- the rate bound -----

  ghost function SpacedBy(interval: nat, d: real): Good
    requires d > 0.0
  {
    (st: RegexState, t: nat) => Spaced(interval, st, t, d)
  }

  /** What a hit makes of the record it read. */
  lemma {:induction false} HitSpaced(rules: seq<Rule>, moves: seq<Move<Visit>>, ip: Str, j: nat, d: real, p: nat,
                                     st: RegexState)
    requires ValidRules(rules) && j < |rules| && d > 0.0 && SpacedReads(rules, moves, ip, j, d)
    requires HitRead(rules, moves, ip, j, p) && Sound(rules, moves, ip, j, SpacedBy(rules[j].interval, d), p, st)
    ensures var now := moves[p].op.env.now(j); Spaced(rules[j].interval, Bump(rules[j].interval, st, now), now, d)
  {
    hide Bump, Spaced, Stored, IsHit;
    var now := moves[p].op.env.now(j);
    if st == FRESH {
      FirstHit(rules[j].interval, now, d);
    } else {
      var t: nat :| Stored(rules, moves, ip, j, p, t) && SpacedBy(rules[j].interval, d)(st, t);
      SpacedHit(rules[j].interval, st, t, now, d);
    }
  }

  lemma {:induction false} SpacingKept(rules: seq<Rule>, moves: seq<Move<Visit>>, ip: Str, j: nat, d: real)
    requires ValidRules(rules) && j < |rules| && d > 0.0 && SpacedReads(rules, moves, ip, j, d)
    ensures AlwaysKept(rules, moves, ip, j, SpacedBy(rules[j].interval, d))
  {
    hide Bump, Spaced, IsHit, SpacedReads;
    var good := SpacedBy(rules[j].interval, d);
    forall p: nat, st: RegexState ensures Kept(rules, moves, ip, j, good, p, st) {
      if HitRead(rules, moves, ip, j, p) && Sound(rules, moves, ip, j, good, p, st) {
        HitSpaced(rules, moves, ip, j, d, p, st);
      }
    }
  }

  /**
   * With every read and write a separate step, and whatever updates are lost to failed locks or to overlapping writes:
   * if every hit that reads after another was stored has a clock at least `d` msec later, the stored rate never shows
   * more than interval/d + 1 hits, and the rule never bans the address if it asks for more than that.
   */
  lemma {:induction false} SpacedNeverBanned(rules: seq<Rule>, moves: seq<Move<Visit>>, ip: Str, j: nat, d: real,
                                             p: nat)
    requires ValidRules(rules) && j < |rules| && d > 0.0 && p <= |moves| && SpacedReads(rules, moves, ip, j, d)
    ensures Fits(rules, EntryAt(RatePlan(rules), map[], moves, p, ip))
    ensures var e := EntryAt(RatePlan(rules), map[], moves, p, ip);
            && Hits(rules[j].interval, RecordIn(e, j)) <= rules[j].interval as real / d + 1.0
            && (p < |moves| && moves[p].Fetch? && moves[p].ip == ip && rules[j].interval as real / d + 1.0 < rules[j].hits as real
                ==> Found(rules, moves[p].op, e).hit != Some(j))
  {
    hide Run, Hits, Spaced, IsHit, SpacedReads, Bump, Threshold;
    var i := rules[j].interval;
    RunFits(rules, moves, ip, p);
    SpacingKept(rules, moves, ip, j, d);
    SoundRun(rules, moves, ip, j, SpacedBy(i, d), p);
    var e := EntryAt(RatePlan(rules), map[], moves, p, ip);
    var st := RecordIn(e, j);
    FreshHits(i);
    Positive(i as real, d);
    if st != FRESH {
      var t: nat :| Stored(rules, moves, ip, j, p, t) && SpacedBy(i, d)(st, t);
      SpacedBound(i, st, t, d);
    }
    if p < |moves| && moves[p].Fetch? && moves[p].ip == ip && i as real / d + 1.0 < rules[j].hits as real {
      NotBanned(rules, moves, ip, j, d, p, e);
    }
  }

  lemma {:induction false} NotBanned(rules: seq<Rule>, moves: seq<Move<Visit>>, ip: Str, j: nat, d: real, p: nat,
                                     e: Option<Vector>)
    requires ValidRules(rules) && j < |rules| && d > 0.0 && SpacedReads(rules, moves, ip, j, d) && Fits(rules, e)
    requires p < |moves| && moves[p].Fetch? && moves[p].ip == ip
    requires rules[j].interval as real / d + 1.0 < rules[j].hits as real
    requires Sound(rules, moves, ip, j, SpacedBy(rules[j].interval, d), p, RecordIn(e, j))
    ensures Found(rules, moves[p].op, e).hit != Some(j)
  {
    hide Hits, Spaced, IsHit, SpacedReads, Bump, Threshold, Found, Sound;
    Positive(rules[j].interval as real, d);
    if Found(rules, moves[p].op, e).hit == Some(j) {
      var now := moves[p].op.env.now(j);
      FoundEffect(rules, moves[p].op, e, j);
      HitSpaced(rules, moves, ip, j, d, p, RecordIn(e, j));
      var after := Bump(rules[j].interval, RecordIn(e, j), now);
      SpacedBound(rules[j].interval, after, now, d);
      ThresholdInHits(rules[j], after);
      assert false;
    }
  }

  // ----- silence -----

  /** The window begins no later than the clock. */
  function BegunBy(): Good {
    (st: RegexState, t: nat) => 0 < st.begin <= t
  }

  lemma {:induction false} BeginKept(rules: seq<Rule>, moves: seq<Move<Visit>>, ip: Str, j: nat)
    requires ValidRules(rules) && j < |rules|
    requires forall p: nat :: HitRead(rules, moves, ip, j, p) ==> moves[p].op.env.now(j) > 0
    ensures AlwaysKept(rules, moves, ip, j, BegunBy())
  {
    hide Stored, IsHit, MovedRate;
    forall p: nat, st: RegexState ensures Kept(rules, moves, ip, j, BegunBy(), p, st) {
      if HitRead(rules, moves, ip, j, p) && Sound(rules, moves, ip, j, BegunBy(), p, st) && st != FRESH {
        var t: nat :| Stored(rules, moves, ip, j, p, t) && BegunBy()(st, t);
        var after := Bump(rules[j].interval, st, moves[p].op.env.now(j));
        assert after.begin == st.begin ==> BegunBy()(after, t);
      }
    }
  }

  /**
   * However visits overlap and locks fail: a hit whose clock is two intervals after that of every hit stored before it
   * read leaves the count at one at most.
   */
  lemma {:induction false} SilenceResets(rules: seq<Rule>, moves: seq<Move<Visit>>, ip: Str, j: nat, p: nat)
    requires ValidRules(rules) && j < |rules| && HitRead(rules, moves, ip, j, p)
    requires forall q: nat :: HitRead(rules, moves, ip, j, q) ==> moves[q].op.env.now(j) > 0
    requires forall t: nat :: Stored(rules, moves, ip, j, p, t) ==> moves[p].op.env.now(j) >= t + 2 * rules[j].interval
    ensures var st := RecordIn(EntryAt(RatePlan(rules), map[], moves, p, ip), j);
            Hits(rules[j].interval, Bump(rules[j].interval, st, moves[p].op.env.now(j))) <= 1.0
  {
    BeginKept(rules, moves, ip, j);
    SoundRun(rules, moves, ip, j, BegunBy(), p);
    BoundedRun(rules, moves, ip, j, p);
    hide Run, Stored, IsHit, AlwaysKept, Bump, Hits;
    var i, now := rules[j].interval, moves[p].op.env.now(j);
    var st := RecordIn(EntryAt(RatePlan(rules), map[], moves, p, ip), j);
    if st == FRESH {
      InWindow(i, st, now);
      FreshHits(i);
    } else {
      var t: nat :| Stored(rules, moves, ip, j, p, t) && BegunBy()(st, t);
      Moved(i, st, now);
      DecayAtMost(Hits(i, st), (now - st.begin - i) as real, i as real);
      hide Decayed;
    }
  }

  // ----- visits that do not overlap -----

  lemma {:induction false} SerialIsRun(rules: seq<Rule>, ip: Str, visits: seq<Visit>)
    requires ValidRules(rules) && forall k :: 0 <= k < |visits| ==> visits[k].ip == ip
    ensures Serial(RatePlan(rules), None, visits) == IpDb.Entry(RunDb(rules, visits), ip)
  {
    if visits != [] {
      hide Matched, RateChange, Found;
      var n := |visits| - 1;
      SerialIsRun(rules, ip, visits[..n]);
      WholeVisit(rules, visits[n], RunDb(rules, visits[..n]));
    }
  }

  /**
   * If no other visit of the address comes between the read and the write of one, hits within one interval of the first
   * are counted exactly: a visit is banned by the rule exactly when it is a hit and at least the `hits`-th one.
   */
  lemma {:induction false} BansAtExactly(rules: seq<Rule>, moves: seq<Move<Visit>>, ip: Str, ids: seq<nat>,
                                         visits: seq<Visit>, j: nat, first: nat, p: nat)
    requires ValidRules(rules) && j < |rules| && first > 0 && rules[j].hits > 0
    requires Undivided(moves, ip, ids, visits) && (forall k :: 0 <= k < |visits| ==> visits[k].ip == ip)
    requires p < |moves| && moves[p].Fetch? && moves[p].ip == ip && Begun(moves[..p], ip) < |visits|
    requires OneWindow(rules, visits[..Begun(moves[..p], ip) + 1], ip, j, first)
    ensures Fits(rules, EntryAt(RatePlan(rules), map[], moves, p, ip))
    ensures Found(rules, moves[p].op, EntryAt(RatePlan(rules), map[], moves, p, ip)).hit == Some(j)
       <==> IsHit(rules, moves[p].op, j) && HitCount(rules, visits[..Begun(moves[..p], ip) + 1], ip, j) >= rules[j].hits
  {
    hide Run, Serial, Begun, Found, Matched, OneWindow, HitCount, IsHit;
    var k := Begun(moves[..p], ip);
    var upto := visits[..k + 1];
    UndividedRead(RatePlan(rules), map[], moves, ip, ids, visits, p);
    SerialIsRun(rules, ip, visits[..k]);
    assert upto[..k] == visits[..k] && upto[k] == visits[k] && |upto| - 1 == k;
    WholeVisit(rules, visits[k], RunDb(rules, visits[..k]));
    RateRuns.BansAtExactly(rules, upto, ip, j, first);
  }

  // ----- what overlapping and late clocks do -----

  /** A rule that matches everything. */
  function AnyRule(interval: nat, hits: nat): Rule {
    Rule(interval, hits, {}, _ => true)
  }

  /** A visit with this clock whose locks succeed. */
  function VisitAt(ip: Str, now: nat): Visit {
    Visit(ip, [], [], Env(_ => true, _ => now, true))
  }

  /** What a single rule makes of such a visit. */
  lemma {:induction false} OneRule(interval: nat, hits: nat, ip: Str, now: nat, e: Option<Vector>)
    requires interval > 0 && hits > 0 && (e.Some? ==> |e.value| == 1)
    ensures var rules, v := [AnyRule(interval, hits)], VisitAt(ip, now);
            var after := Bump(interval, RecordIn(e, 0), now);
            && (Found(rules, v, e).hit == if after.rate >= Threshold(rules[0]) then Some(0) else None)
            && IpDb.Entry(Found(rules, v, e).db, ip) == Some([after])
  {
    var rules, v := [AnyRule(interval, hits)], VisitAt(ip, now);
    var db, after := Single(ip, e), Bump(interval, RecordIn(e, 0), now);
    hide Bump, Threshold;
    var held := Loaded(rules, v, db, 0, None);
    assert held.Some? && held.value == [RecordIn(e, 0)];
    assert [RecordIn(e, 0)][0 := after] == [after];
    assert Scan(rules, v, db, 1, Some([after])) == Outcome(db[ip := [after]], None);
  }

  /** Two visits overlap: both read before either writes. */
  function SameRead(ip: Str, now: nat): seq<Move<Visit>> {
    [Fetch(0, ip, VisitAt(ip, now)), Fetch(1, ip, VisitAt(ip, now)), Commit(0, ip), Commit(1, ip)]
  }

  /** Then they count once: the second of two hits is not banned by a rule that asks for two, although every lock succeeds. */
  lemma {:induction false} OverlapCountsOnce(interval: nat, ip: Str, now: nat)
    requires interval > 0 && now > 0
    ensures var rules, moves := [AnyRule(interval, 2)], SameRead(ip, now);
            var e := EntryAt(RatePlan(rules), map[], moves, 1, ip);
            e == None && Found(rules, moves[1].op, e).hit == None
  {
    var rules, moves, none: RegexDb := [AnyRule(interval, 2)], SameRead(ip, now), map[];
    RunStep(RatePlan(rules), none, moves, 0);
    assert moves[..0] == [];
    OneRule(interval, 2, ip, now, None);
    InWindow(interval, FRESH, now);
    FreshHits(interval);
    ThresholdInHits(rules[0], Bump(interval, FRESH, now));
    hide Bump, Threshold, Hits, Found;
  }

  /** Three hits ten msec apart; the first to read its clock is the last to read the table. */
  function LateRead(ip: Str): seq<Move<Visit>> {
    [Fetch(0, ip, VisitAt(ip, 120)), Commit(0, ip), Fetch(1, ip, VisitAt(ip, 130)), Commit(1, ip), Fetch(2, ip, VisitAt(ip, 110))]
  }

  /**
   * Then the rate bound fails: with an interval of ten the bound is 10/10 + 1 = 2, and the rule that asks for three bans.
   * So it is not enough that clocks are apart; a hit must also read the table before a later one is stored.
   */
  lemma {:induction false} LateReadBans(ip: Str)
    ensures var rules, moves := [AnyRule(10, 3)], LateRead(ip);
            var e := EntryAt(RatePlan(rules), map[], moves, 4, ip);
            Fits(rules, e) && Found(rules, moves[4].op, e).hit == Some(0)
  {
    var rules, moves, none: RegexDb := [AnyRule(10, 3)], LateRead(ip), map[];
    var plan, s1, s2 := RatePlan(rules), RegexState(120, 0.1), RegexState(120, 0.2);
    LateNumbers();
    OneStore(10, 3, ip, 120, None);
    OneStore(10, 3, ip, 130, Some([s1]));
    OneRule(10, 3, ip, 110, Some([s2]));
    FirstRun(plan);
    var a, b := VisitAt(ip, 120), VisitAt(ip, 130);
    var one := [Fetch(0, ip, a), Commit(0, ip)];
    assert moves[..4] == one + [Fetch(1, ip, b), Commit(1, ip)] && moves[4].op == VisitAt(ip, 110);
    hide Bump, Threshold, Found, Run, RateChange, VisitAt, AnyRule, LateRead;
    PairRuns(plan, none, [], 0, ip, a);
    assert [] + one == one;
    PairRuns(plan, none, one, 1, ip, b);
  }

  lemma {:induction false} LateNumbers()
    ensures Bump(10, FRESH, 120) == RegexState(120, 0.1) && Bump(10, RegexState(120, 0.1), 130) == RegexState(120, 0.2)
    ensures Bump(10, RegexState(120, 0.2), 110).rate >= Threshold(AnyRule(10, 3))
  {
  }

  lemma {:induction false} FirstRun(plan: Plan<Visit, Vector>)
    ensures Run(plan, map[], []) == Mid(map[], map[])
  {
  }

  /** Such a visit stores its count. */
  lemma {:induction false} OneStore(interval: nat, hits: nat, ip: Str, now: nat, e: Option<Vector>)
    requires interval > 0 && hits > 0 && (e.Some? ==> |e.value| == 1) && Bump(interval, RecordIn(e, 0), now) != RecordIn(e, 0)
    ensures RateChange([AnyRule(interval, hits)], VisitAt(ip, now), e) == Store([Bump(interval, RecordIn(e, 0), now)])
  {
    OneRule(interval, hits, ip, now, e);
    hide Bump, Found;
  }
}
