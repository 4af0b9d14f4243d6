/** What the rate limiter promises over whole runs of visits by any number of addresses. */
module RateRuns {
  import opened Bytes
  import opened IpDb
  import opened RateLimit
  import opened RegexManager

  /** The table after a run that started empty. */
  function RunDb(rules: seq<Rule>, run: seq<Visit>): (db: RegexDb)
    requires ValidRules(rules)
    ensures ValidDb(rules, db)
  {
    if run == [] then map[]
    else
      var before := RunDb(rules, run[..|run| - 1]);
      MatchedEffect(rules, run[|run| - 1], before);
      Matched(rules, run[|run| - 1], before).db
  }

  /** The rule, if any, that bans visit `p` of the run. */
  function BanAt(rules: seq<Rule>, run: seq<Visit>, p: nat): Option<nat>
    requires ValidRules(rules) && p < |run|
  {
    Matched(rules, run[p], RunDb(rules, run[..p])).hit
  }

  /** Visit `p` comes from `ip` and matches rule `j`. */
  ghost predicate HitAt(rules: seq<Rule>, run: seq<Visit>, ip: Str, j: nat, p: int)
    requires j < |rules|
  {
    0 <= p < |run| && run[p].ip == ip && IsHit(rules, run[p], j)
  }

  /** The clock has run for more than the rule's interval at every hit, and never runs backwards between hits. */
  ghost predicate Timed(rules: seq<Rule>, run: seq<Visit>, ip: Str, j: nat)
    requires j < |rules|
  {
    && (forall p :: HitAt(rules, run, ip, j, p) ==> run[p].env.now(j) > rules[j].interval)
    && (forall p, q :: p < q && HitAt(rules, run, ip, j, p) && HitAt(rules, run, ip, j, q)
          ==> run[p].env.now(j) <= run[q].env.now(j))
  }

  /** Any two hits are at least `d` msec apart. */
  ghost predicate Apart(rules: seq<Rule>, run: seq<Visit>, ip: Str, j: nat, d: real)
    requires j < |rules|
  {
    forall p, q :: p < q && HitAt(rules, run, ip, j, p) && HitAt(rules, run, ip, j, q)
      ==> run[q].env.now(j) as real >= run[p].env.now(j) as real + d
  }

  lemma {:induction false} Shorter(rules: seq<Rule>, run: seq<Visit>, ip: Str, j: nat, n: nat)
    requires j < |rules| && n <= |run|
    ensures forall p :: HitAt(rules, run[..n], ip, j, p) <==> p < n && HitAt(rules, run, ip, j, p)
  {
    hide IsHit;
    assert forall p :: 0 <= p < n ==> run[..n][p] == run[p];
  }

  /** The last step of a run on one record. */
  lemma {:induction false} LastStep(rules: seq<Rule>, run: seq<Visit>, ip: Str, j: nat)
    requires ValidRules(rules) && j < |rules| && run != []
    ensures var p := |run| - 1;
            var before := Record(RunDb(rules, run[..p]), ip, j);
            var after := Record(RunDb(rules, run), ip, j);
            after == before
            || (HitAt(rules, run, ip, j, p) && after == Bump(rules[j].interval, before, run[p].env.now(j)))
    ensures BanAt(rules, run, |run| - 1) == Some(j) && rules[j].hits > 0 ==>
              var v := run[|run| - 1];
              IsHit(rules, v, j)
              && After(rules, v, RunDb(rules, run[..|run| - 1]), j).rate >= Threshold(rules[j])
  {
    hide Bump, Threshold, Matched;
    var v, db := run[|run| - 1], RunDb(rules, run[..|run| - 1]);
    MatchedEffect(rules, v, db);
    var r := Matched(rules, v, db);
    assert RunDb(rules, run) == r.db;
    if v.ip == ip {
      assert KeptOrCounted(rules, v, db, j, Record(r.db, ip, j));
    } else {
      assert Entry(r.db, ip) == Entry(db, ip);
    }
  }

  // ----- spaced hits are never banned -----

  ghost predicate SpacedRecord(rules: seq<Rule>, run: seq<Visit>, ip: Str, j: nat, d: real)
    requires ValidRules(rules) && j < |rules| && d > 0.0
  {
    var st := Record(RunDb(rules, run), ip, j);
    st == FRESH
    || exists p :: HitAt(rules, run, ip, j, p) && Spaced(rules[j].interval, st, run[p].env.now(j), d)
  }

  /** The record after counting a hit at distance `d` from every hit before it. */
  lemma {:induction false} SpacedNext(rules: seq<Rule>, run: seq<Visit>, ip: Str, j: nat, d: real, now: nat)
    requires ValidRules(rules) && j < |rules| && d > 0.0 && SpacedRecord(rules, run, ip, j, d)
    requires now > rules[j].interval
    requires forall p :: HitAt(rules, run, ip, j, p) ==> now as real >= run[p].env.now(j) as real + d
    ensures Spaced(rules[j].interval, Bump(rules[j].interval, Record(RunDb(rules, run), ip, j), now), now, d)
  {
    hide Bump, Spaced, Matched;
    var st := Record(RunDb(rules, run), ip, j);
    if st == FRESH {
      FirstHit(rules[j].interval, now, d);
    } else {
      var p :| HitAt(rules, run, ip, j, p) && Spaced(rules[j].interval, st, run[p].env.now(j), d);
      SpacedHit(rules[j].interval, st, run[p].env.now(j), now, d);
    }
  }

  lemma {:induction false} SpacedRun(rules: seq<Rule>, run: seq<Visit>, ip: Str, j: nat, d: real)
    requires ValidRules(rules) && j < |rules| && d > 0.0
    requires Timed(rules, run, ip, j) && Apart(rules, run, ip, j, d)
    ensures SpacedRecord(rules, run, ip, j, d)
  {
    hide Bump, Spaced, Matched, IsHit;
    if run != [] {
      var n := |run| - 1;
      var shorter, st := run[..n], Record(RunDb(rules, run), ip, j);
      Shorter(rules, run, ip, j, n);
      SpacedRun(rules, shorter, ip, j, d);
      LastStep(rules, run, ip, j);
      var before := Record(RunDb(rules, shorter), ip, j);
      if st == before {
        if st != FRESH {
          var p :| HitAt(rules, shorter, ip, j, p) && Spaced(rules[j].interval, st, shorter[p].env.now(j), d);
          assert HitAt(rules, run, ip, j, p) && run[p] == shorter[p];
        }
      } else {
        SpacedNext(rules, shorter, ip, j, d, run[n].env.now(j));
      }
    }
  }

  lemma {:induction false} ThresholdInHits(rule: Rule, st: RegexState)
    requires rule.interval > 0
    ensures st.rate >= Threshold(rule) <==> Hits(rule.interval, st) >= rule.hits as real
  {
    var i, h := rule.interval as real, rule.hits as real;
    assert h / i * i == h;
    Scale(st.rate - h / i, i);
    assert Scaled(st.rate - h / i, i) == st.rate * i - h;
  }

  /**
   * Whatever updates are lost to failed try-locks, an address whose hits on a rule are at least `d` msec apart
   * never shows more than interval/d + 1 hits, and is never banned by a rule that asks for more than that.
   */
  lemma {:induction false} SpacedNeverBanned(rules: seq<Rule>, run: seq<Visit>, ip: Str, j: nat, d: real)
    requires ValidRules(rules) && j < |rules| && d > 0.0
    requires Timed(rules, run, ip, j) && Apart(rules, run, ip, j, d)
    ensures Hits(rules[j].interval, Record(RunDb(rules, run), ip, j)) <= rules[j].interval as real / d + 1.0
    ensures forall p :: 0 <= p < |run| && run[p].ip == ip && rules[j].interval as real / d + 1.0 < rules[j].hits as real
              ==> BanAt(rules, run, p) != Some(j)
  {
    hide Bump, Matched, IsHit, Hits;
    SpacedRun(rules, run, ip, j, d);
    var st := Record(RunDb(rules, run), ip, j);
    if st == FRESH {
      Positive(rules[j].interval as real, d);
      FreshHits(rules[j].interval);
    } else {
      var p :| HitAt(rules, run, ip, j, p) && Spaced(rules[j].interval, st, run[p].env.now(j), d);
      SpacedBound(rules[j].interval, st, run[p].env.now(j), d);
    }
    forall p | 0 <= p < |run| && run[p].ip == ip && rules[j].interval as real / d + 1.0 < rules[j].hits as real
      ensures BanAt(rules, run, p) != Some(j)
    {
      if BanAt(rules, run, p) == Some(j) {
        SpacedBanBound(rules, run, ip, j, d, p);
        assert false;
      }
    }
  }

  lemma {:induction false} FreshHits(interval: nat)
    ensures Hits(interval, FRESH) == 0.0
  {
  }

  /** A ban of a spaced address needs a threshold within the bound. */
  lemma {:induction false} SpacedBanBound(rules: seq<Rule>, run: seq<Visit>, ip: Str, j: nat, d: real, p: nat)
    requires ValidRules(rules) && j < |rules| && d > 0.0
    requires Timed(rules, run, ip, j) && Apart(rules, run, ip, j, d)
    requires p < |run| && run[p].ip == ip && BanAt(rules, run, p) == Some(j) && rules[j].hits > 0
    ensures rules[j].hits as real <= rules[j].interval as real / d + 1.0
  {
    hide Bump, Matched, IsHit, Hits, Spaced, Threshold;
    var upto := run[..p + 1];
    assert upto[..p] == run[..p];
    LastStep(rules, upto, ip, j);
    Shorter(rules, run, ip, j, p);
    SpacedRun(rules, run[..p], ip, j, d);
    assert HitAt(rules, run, ip, j, p);
    var now := run[p].env.now(j);
    SpacedNext(rules, run[..p], ip, j, d, now);
    var st := After(rules, run[p], RunDb(rules, run[..p]), j);
    SpacedBound(rules[j].interval, st, now, d);
    ThresholdInHits(rules[j], st);
  }

  // ----- the count is never too high, and forgotten after silence -----

  function HitCount(rules: seq<Rule>, run: seq<Visit>, ip: Str, j: nat): nat
    requires j < |rules|
  {
    if run == [] then 0
    else
      var v := run[|run| - 1];
      HitCount(rules, run[..|run| - 1], ip, j)
      + if v.ip == ip && rules[j].matches(v.record) && rules[j].hits > 0 then 1 else 0
  }

  /** How many visits changed the stored record of rule `j`: the hits that were not lost. */
  ghost function RecordedCount(rules: seq<Rule>, run: seq<Visit>, ip: Str, j: nat): nat
    requires ValidRules(rules) && j < |rules|
  {
    if run == [] then 0
    else
      var shorter := run[..|run| - 1];
      RecordedCount(rules, shorter, ip, j)
      + if Record(RunDb(rules, run), ip, j) != Record(RunDb(rules, shorter), ip, j) then 1 else 0
  }

  ghost predicate CountedRecord(rules: seq<Rule>, run: seq<Visit>, ip: Str, j: nat)
    requires ValidRules(rules) && j < |rules|
  {
    var st := Record(RunDb(rules, run), ip, j);
    st == FRESH
    || exists p :: HitAt(rules, run, ip, j, p) && st.begin > 0
         && Counted(rules[j].interval, st, run[p].env.now(j), RecordedCount(rules, run, ip, j))
  }

  lemma {:induction false} CountedRun(rules: seq<Rule>, run: seq<Visit>, ip: Str, j: nat)
    requires ValidRules(rules) && j < |rules| && Timed(rules, run, ip, j)
    ensures CountedRecord(rules, run, ip, j)
  {
    hide Bump, Matched, Hits;
    if run != [] {
      var n := |run| - 1;
      var shorter, st := run[..n], Record(RunDb(rules, run), ip, j);
      Shorter(rules, run, ip, j, n);
      CountedRun(rules, shorter, ip, j);
      LastStep(rules, run, ip, j);
      var before, i, c := Record(RunDb(rules, shorter), ip, j), rules[j].interval, RecordedCount(rules, shorter, ip, j);
      if before == FRESH {
        FreshHits(i);
        if st != before {
          CountedHit(i, before, 0, c, run[n].env.now(j));
          assert HitAt(rules, run, ip, j, n);
        }
      } else {
        var p :| HitAt(rules, shorter, ip, j, p) && before.begin > 0 && Counted(i, before, shorter[p].env.now(j), c);
        assert HitAt(rules, run, ip, j, p) && run[p] == shorter[p];
        if st != before {
          assert HitAt(rules, run, ip, j, n);
          CountedHit(i, before, run[p].env.now(j), c, run[n].env.now(j));
        }
      }
    }
  }

  /** Lost or not, only hits are recorded. */
  lemma {:induction false} RecordedAreHits(rules: seq<Rule>, run: seq<Visit>, ip: Str, j: nat)
    requires ValidRules(rules) && j < |rules|
    ensures RecordedCount(rules, run, ip, j) <= HitCount(rules, run, ip, j)
  {
    hide Bump, Matched;
    if run != [] {
      RecordedAreHits(rules, run[..|run| - 1], ip, j);
      LastStep(rules, run, ip, j);
    }
  }

  /** Over every run, with any lock outcomes: the count is nonnegative and at most the number of recorded hits. */
  lemma {:induction false} NeverOvercounts(rules: seq<Rule>, run: seq<Visit>, ip: Str, j: nat)
    requires ValidRules(rules) && j < |rules| && Timed(rules, run, ip, j)
    ensures 0.0 <= Hits(rules[j].interval, Record(RunDb(rules, run), ip, j)) <= RecordedCount(rules, run, ip, j) as real
    ensures RecordedCount(rules, run, ip, j) <= HitCount(rules, run, ip, j)
  {
    hide Bump, Matched, Hits;
    CountedRun(rules, run, ip, j);
    FreshHits(rules[j].interval);
    RecordedAreHits(rules, run, ip, j);
  }

  /** A hit that comes two intervals after all earlier ones leaves the count at one at most. */
  lemma {:induction false} SilenceResets(rules: seq<Rule>, run: seq<Visit>, ip: Str, j: nat)
    requires ValidRules(rules) && j < |rules| && run != [] && Timed(rules, run, ip, j)
    requires HitAt(rules, run, ip, j, |run| - 1)
    requires forall p :: HitAt(rules, run, ip, j, p) && p < |run| - 1
               ==> run[|run| - 1].env.now(j) >= run[p].env.now(j) + 2 * rules[j].interval
    ensures Hits(rules[j].interval, After(rules, run[|run| - 1], RunDb(rules, run[..|run| - 1]), j)) <= 1.0
  {
    hide Bump, Matched, Hits, IsHit;
    var n := |run| - 1;
    var shorter, now, i := run[..n], run[n].env.now(j), rules[j].interval;
    Shorter(rules, run, ip, j, n);
    CountedRun(rules, shorter, ip, j);
    var before := Record(RunDb(rules, shorter), ip, j);
    if before == FRESH {
      InWindow(i, before, now);
      FreshHits(i);
    } else {
      var c := RecordedCount(rules, shorter, ip, j);
      var p :| HitAt(rules, shorter, ip, j, p) && before.begin > 0 && Counted(i, before, shorter[p].env.now(j), c);
      assert HitAt(rules, run, ip, j, p) && run[p] == shorter[p];
      SilenceForgets(i, before, shorter[p].env.now(j), c, now);
    }
  }

  // ----- exactness in the first window -----

  /** The locks a hit on rule `j` needs succeed, no rule skips the host, and no rule that bans without a rate matches. */
  ghost predicate Undisturbed(rules: seq<Rule>, v: Visit, j: nat) {
    && v.env.gets(j) && v.env.set_
    && forall i :: 0 <= i < |rules| ==> v.host !in rules[i].hostsToSkip && (rules[i].matches(v.record) ==> rules[i].hits > 0)
  }

  /** Behind rule `j` the loop stores the vector it holds, whether or not a later rule bans. */
  lemma {:induction false} ScanStores(rules: seq<Rule>, v: Visit, db: RegexDb, j: nat, k: nat, st: seq<RegexState>)
    requires ValidRules(rules) && ValidDb(rules, db) && j < k <= |rules| && |st| == |rules| && Undisturbed(rules, v, j)
    ensures var r := Scan(rules, v, db, k, Some(st));
            Record(r.db, v.ip, j) == st[j] && r.hit != Some(j)
    decreases |rules| - k
  {
    hide Bump, Threshold;
    if k < |rules| {
      if !rules[k].matches(v.record) {
        ScanStores(rules, v, db, j, k + 1, st);
      } else {
        var s := Bump(rules[k].interval, st[k], v.env.now(k));
        if s.rate < Threshold(rules[k]) {
          ScanStores(rules, v, db, j, k + 1, st[k := s]);
        }
      }
    }
  }

  /** At rule `j` the visit is counted, and bans exactly at the threshold. */
  lemma {:induction false} ScanAt(rules: seq<Rule>, v: Visit, db: RegexDb, j: nat, st: Option<seq<RegexState>>)
    requires ValidRules(rules) && ValidDb(rules, db) && j < |rules| && Held(rules, v, db, j, st)
    requires Undisturbed(rules, v, j) && IsHit(rules, v, j)
    ensures var r, after := Scan(rules, v, db, j, st), After(rules, v, db, j);
            Record(r.db, v.ip, j) == after && (r.hit == Some(j) <==> after.rate >= Threshold(rules[j]))
  {
    hide Bump, Threshold;
    LoadedHeld(rules, v, db, j, st);
    var held := Loaded(rules, v, db, j, st);
    var after := After(rules, v, db, j);
    assert held.value[j] == Record(db, v.ip, j);
    if after.rate < Threshold(rules[j]) {
      ScanStores(rules, v, db, j, j + 1, held.value[j := after]);
    }
  }

  /** The same from any earlier rule on, unless a rule in between bans. */
  lemma {:induction false} ScanReaches(rules: seq<Rule>, v: Visit, db: RegexDb, j: nat, k: nat,
                                       st: Option<seq<RegexState>>)
    requires ValidRules(rules) && ValidDb(rules, db) && k <= j < |rules| && Held(rules, v, db, k, st)
    requires Undisturbed(rules, v, j) && IsHit(rules, v, j)
    ensures var r, after := Scan(rules, v, db, k, st), After(rules, v, db, j);
            || (r.hit.Some? && r.hit.value < j)
            || (Record(r.db, v.ip, j) == after && (r.hit == Some(j) <==> after.rate >= Threshold(rules[j])))
    decreases j - k
  {
    hide Bump, Threshold;
    if k == j {
      ScanAt(rules, v, db, j, st);
    } else if !rules[k].matches(v.record) {
      ScanReaches(rules, v, db, j, k + 1, st);
    } else {
      LoadedHeld(rules, v, db, k, st);
      var held := Loaded(rules, v, db, k, st);
      if held.None? {
        ScanReaches(rules, v, db, j, k + 1, None);
      } else {
        var s := Bump(rules[k].interval, held.value[k], v.env.now(k));
        if s.rate < Threshold(rules[k]) {
          assert s == After(rules, v, db, k);
          ScanReaches(rules, v, db, j, k + 1, Some(held.value[k := s]));
        }
      }
    }
  }

  /** An undisturbed hit on rule `j` that no earlier rule bans is counted, and bans exactly when the threshold is reached. */
  lemma {:induction false} UndisturbedCounts(rules: seq<Rule>, v: Visit, db: RegexDb, j: nat)
    requires ValidRules(rules) && ValidDb(rules, db) && j < |rules| && Undisturbed(rules, v, j) && IsHit(rules, v, j)
    requires Matched(rules, v, db).hit.Some? ==> Matched(rules, v, db).hit.value >= j
    ensures var r, after := Matched(rules, v, db), After(rules, v, db, j);
            Record(r.db, v.ip, j) == after && (r.hit == Some(j) <==> after.rate >= Threshold(rules[j]))
  {
    hide Bump, Threshold, Scan;
    ScanReaches(rules, v, db, j, 0, None);
  }

  /**
   * All hits of `ip` on rule `j` fall within one interval of the first, which is at `first`, are undisturbed, and are
   * not banned by an earlier rule. Its other visits are arbitrary.
   */
  ghost predicate OneWindow(rules: seq<Rule>, run: seq<Visit>, ip: Str, j: nat, first: nat)
    requires ValidRules(rules) && j < |rules|
  {
    forall p :: HitAt(rules, run, ip, j, p) ==>
      && Undisturbed(rules, run[p], j)
      && (BanAt(rules, run, p).Some? ==> BanAt(rules, run, p).value >= j)
      && if HitCount(rules, run[..p], ip, j) == 0 then run[p].env.now(j) == first
         else run[p].env.now(j) <= first + rules[j].interval
  }

  lemma {:induction false} OneWindowShorter(rules: seq<Rule>, run: seq<Visit>, ip: Str, j: nat, first: nat)
    requires ValidRules(rules) && j < |rules| && run != [] && OneWindow(rules, run, ip, j, first)
    ensures OneWindow(rules, run[..|run| - 1], ip, j, first)
  {
    hide Matched, Undisturbed, IsHit;
    var shorter := run[..|run| - 1];
    Shorter(rules, run, ip, j, |run| - 1);
    forall p | HitAt(rules, shorter, ip, j, p)
      ensures shorter[..p] == run[..p] && shorter[p] == run[p] && HitAt(rules, run, ip, j, p)
    {}
  }

  /** Within the window the stored count is exactly the number of hits. */
  lemma {:induction false} FirstWindowRun(rules: seq<Rule>, run: seq<Visit>, ip: Str, j: nat, first: nat)
    requires ValidRules(rules) && j < |rules| && first > 0 && OneWindow(rules, run, ip, j, first)
    ensures FirstWindow(rules[j].interval, Record(RunDb(rules, run), ip, j), first, HitCount(rules, run, ip, j))
  {
    hide Bump, Threshold, Matched, Undisturbed, Hits;
    if run != [] {
      var n := |run| - 1;
      var shorter, v := run[..n], run[n];
      OneWindowShorter(rules, run, ip, j, first);
      FirstWindowRun(rules, shorter, ip, j, first);
      var db := RunDb(rules, shorter);
      if HitAt(rules, run, ip, j, n) {
        UndisturbedCounts(rules, v, db, j);
        FirstWindowHit(rules[j].interval, Record(db, ip, j), first, HitCount(rules, shorter, ip, j), v.env.now(j));
      } else {
        LastStep(rules, run, ip, j);
      }
    }
  }

  /**
   * With the locks succeeding, hits within one interval of the first are counted exactly: a visit is banned by the
   * rule exactly when it is a hit and at least the `hits`-th one, whatever else this or any other address requests.
   */
  lemma {:induction false} BansAtExactly(rules: seq<Rule>, run: seq<Visit>, ip: Str, j: nat, first: nat)
    requires ValidRules(rules) && j < |rules| && first > 0 && OneWindow(rules, run, ip, j, first)
    requires run != [] && run[|run| - 1].ip == ip && rules[j].hits > 0
    ensures BanAt(rules, run, |run| - 1) == Some(j)
       <==> IsHit(rules, run[|run| - 1], j) && HitCount(rules, run, ip, j) >= rules[j].hits
  {
    hide Bump, Threshold, Matched, Undisturbed, Hits;
    var n := |run| - 1;
    var shorter, v := run[..n], run[n];
    var db := RunDb(rules, shorter);
    if HitAt(rules, run, ip, j, n) {
      OneWindowShorter(rules, run, ip, j, first);
      FirstWindowRun(rules, shorter, ip, j, first);
      UndisturbedCounts(rules, v, db, j);
      FirstWindowHit(rules[j].interval, Record(db, ip, j), first, HitCount(rules, shorter, ip, j), v.env.now(j));
      ThresholdInHits(rules[j], After(rules, v, db, j));
    } else {
      LastStep(rules, run, ip, j);
    }
  }
}
