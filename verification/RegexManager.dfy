/** src/regex_manager.cpp: `try_match` over all rules, with its per-address state vector and its try-locks. */
module RegexManager {
  import opened Bytes
  import opened IpDb
  import opened RateLimit

  /** A rule; its id is its position in the list. `interval` is in msec, `matches` is the RE2 full match. */
  datatype Rule = Rule(interval: nat, hits: nat, hostsToSkip: set<Str>, matches: Str -> bool)

  type RegexDb = Db<seq<RegexState>>

  /** Outcomes the code cannot control: the try-lock and the clock reading at each rule, the final try-lock. */
  datatype Env = Env(gets: nat -> bool, now: nat -> nat, set_: bool)

  datatype Visit = Visit(ip: Str, host: Str, record: Str, env: Env)

  datatype Outcome = Outcome(db: RegexDb, hit: Option<nat>)

  ghost predicate ValidRules(rules: seq<Rule>) {
    forall j :: 0 <= j < |rules| ==> rules[j].interval > 0
  }

  ghost predicate ValidDb(rules: seq<Rule>, db: RegexDb) {
    forall ip :: ip in db ==> |db[ip]| == |rules|
  }

  /** Hits per msec that count as excessive. */
  function Threshold(rule: Rule): real
    requires rule.interval > 0
  {
    rule.hits as real / rule.interval as real
  }

  /** The state vector at rule `k`: the one already held, or the one read now, or nothing. */
  function Loaded(rules: seq<Rule>, v: Visit, db: RegexDb, k: nat, st: Option<seq<RegexState>>)
    : (r: Option<seq<RegexState>>)
    requires ValidDb(rules, db) && (st.Some? ==> |st.value| == |rules|)
    ensures r.Some? ==> |r.value| == |rules|
  {
    if st.Some? then st
    else match Get(db, v.ip, [], v.env.gets(k))
      case None => None
      case Some(s) => if |s| == 0 then Some(seq(|rules|, _ => FRESH)) else Some(s)
  }

  /** The loop of `try_match` from rule `k` on, with the state vector held so far. */
  function Scan(rules: seq<Rule>, v: Visit, db: RegexDb, k: nat, st: Option<seq<RegexState>>): Outcome
    requires ValidRules(rules) && ValidDb(rules, db) && k <= |rules|
    requires st.Some? ==> |st.value| == |rules|
    decreases |rules| - k
  {
    if k == |rules| then
      Outcome(if st.Some? && |st.value| > 0 then Put(db, v.ip, st.value, v.env.set_) else db, None)
    else if v.host in rules[k].hostsToSkip then Outcome(db, None)
    else if !rules[k].matches(v.record) then Scan(rules, v, db, k + 1, st)
    else if rules[k].hits == 0 then Outcome(db, Some(k))
    else
      var held := Loaded(rules, v, db, k, st);
      if held.None? then Scan(rules, v, db, k + 1, None)
      else
        var s := Bump(rules[k].interval, held.value[k], v.env.now(k));
        var vec := held.value[k := s];
        if s.rate >= Threshold(rules[k]) then Outcome(Put(db, v.ip, vec, v.env.set_), Some(k))
        else Scan(rules, v, db, k + 1, Some(vec))
  }

  function Matched(rules: seq<Rule>, v: Visit, db: RegexDb): Outcome
    requires ValidRules(rules) && ValidDb(rules, db)
  {
    Scan(rules, v, db, 0, None)
  }

  class Manager {
    const rules: seq<Rule>
    const table: IpTable<seq<RegexState>>

    ghost predicate Valid()
      reads table
    {
      ValidRules(rules) && ValidDb(rules, table.db) && table.unset == []
    }

    constructor (rules: seq<Rule>, table: IpTable<seq<RegexState>>)
      requires ValidRules(rules) && ValidDb(rules, table.db) && table.unset == []
      ensures Valid() && this.rules == rules && this.table == table
    {
      this.rules := rules;
      this.table := table;
    }

    method TryMatch(v: Visit) returns (hit: Option<nat>)
      requires Valid()
      modifies table
      ensures Outcome(table.db, hit) == Matched(rules, v, old(table.db))
    {
      hide Bump, Threshold;
      var st: Option<seq<RegexState>> := None;
      for k := 0 to |rules|
        invariant table.db == old(table.db) && (st.Some? ==> |st.value| == |rules|)
        invariant Scan(rules, v, table.db, k, st) == Scan(rules, v, table.db, 0, None)
      {
        var rule := rules[k];
        if v.host in rule.hostsToSkip {
          return None;
        }
        if rule.matches(v.record) {
          if rule.hits == 0 {
            return Some(k);
          }
          if st.None? {
            st := table.GetIpState(v.ip, v.env.gets(k));
            if st.None? {
              continue;
            }
            if |st.value| == 0 {
              st := Some(seq(|rules|, _ => FRESH));
            }
          }
          var s := Bump(rule.interval, st.value[k], v.env.now(k));
          st := Some(st.value[k := s]);
          if s.rate >= Threshold(rule) {
            var _ := table.SetIpState(v.ip, st.value, v.env.set_);
            return Some(k);
          }
        }
      }
      if st.Some? && |st.value| > 0 {
        var _ := table.SetIpState(v.ip, st.value, v.env.set_);
      }
      return None;
    }
  }

  // ----- what one visit can do to one rule's record -----

  /** The record of address `ip` for rule `j`. */
  function Record(db: RegexDb, ip: Str, j: nat): RegexState {
    if ip in db && j < |db[ip]| then db[ip][j] else FRESH
  }

  /** The visit matches rule `j`, a rule with a rate. */
  ghost predicate IsHit(rules: seq<Rule>, v: Visit, j: nat)
    requires j < |rules|
  {
    rules[j].matches(v.record) && rules[j].hits > 0
  }

  /** The record of rule `j` if this visit is counted. */
  function After(rules: seq<Rule>, v: Visit, db: RegexDb, j: nat): RegexState
    requires ValidRules(rules) && j < |rules|
  {
    Bump(rules[j].interval, Record(db, v.ip, j), v.env.now(j))
  }

  ghost predicate KeptOrCounted(rules: seq<Rule>, v: Visit, db: RegexDb, j: nat, s: RegexState)
    requires ValidRules(rules) && j < |rules|
  {
    s == Record(db, v.ip, j) || (IsHit(rules, v, j) && s == After(rules, v, db, j))
  }

  /** The vector held at rule `k`: nothing at or behind `k` has been touched yet. */
  ghost predicate Held(rules: seq<Rule>, v: Visit, db: RegexDb, k: nat, st: Option<seq<RegexState>>)
    requires ValidRules(rules)
  {
    st.Some? ==>
      && |st.value| == |rules|
      && (forall j :: 0 <= j < |rules| ==> KeptOrCounted(rules, v, db, j, st.value[j]))
      && (forall j :: k <= j < |rules| ==> st.value[j] == Record(db, v.ip, j))
  }

  ghost predicate Effect(rules: seq<Rule>, v: Visit, db: RegexDb, r: Outcome)
    requires ValidRules(rules)
  {
    && ValidDb(rules, r.db)
    && (forall ip :: ip != v.ip ==> Entry(r.db, ip) == Entry(db, ip))
    && (forall j :: 0 <= j < |rules| ==> KeptOrCounted(rules, v, db, j, Record(r.db, v.ip, j)))
    && (r.hit.Some? ==>
          && r.hit.value < |rules| && rules[r.hit.value].matches(v.record)
          && (rules[r.hit.value].hits == 0
              || After(rules, v, db, r.hit.value).rate >= Threshold(rules[r.hit.value])))
  }

  lemma {:induction false} LoadedHeld(rules: seq<Rule>, v: Visit, db: RegexDb, k: nat, st: Option<seq<RegexState>>)
    requires ValidRules(rules) && ValidDb(rules, db) && Held(rules, v, db, k, st)
    ensures Held(rules, v, db, k, Loaded(rules, v, db, k, st))
  {
    hide Bump;
  }

  lemma {:induction false} StoredEffect(rules: seq<Rule>, v: Visit, db: RegexDb, vec: seq<RegexState>, hit: Option<nat>)
    requires ValidRules(rules) && ValidDb(rules, db) && Held(rules, v, db, |rules|, Some(vec))
    requires Effect(rules, v, db, Outcome(db, hit))
    ensures Effect(rules, v, db, Outcome(Put(db, v.ip, vec, v.env.set_), hit))
  {
    hide After, Threshold, IsHit;
  }

  lemma {:induction false} NoEffect(rules: seq<Rule>, v: Visit, db: RegexDb)
    requires ValidRules(rules) && ValidDb(rules, db)
    ensures Effect(rules, v, db, Outcome(db, None))
  {
  }

  /** Whatever the locks do, a visit leaves each record as it was or counts itself in it once. */
  lemma {:induction false} ScanEffect(rules: seq<Rule>, v: Visit, db: RegexDb, k: nat, st: Option<seq<RegexState>>)
    requires ValidRules(rules) && ValidDb(rules, db) && k <= |rules| && Held(rules, v, db, k, st)
    ensures Effect(rules, v, db, Scan(rules, v, db, k, st))
    decreases |rules| - k
  {
    hide Bump, Threshold, Effect;
    NoEffect(rules, v, db);
    if k == |rules| {
      if st.Some? {
        StoredEffect(rules, v, db, st.value, None);
      }
    } else if v.host in rules[k].hostsToSkip {
    } else if !rules[k].matches(v.record) {
      ScanEffect(rules, v, db, k + 1, st);
    } else if rules[k].hits == 0 {
      BanEffect(rules, v, db, k);
    } else {
      var held := Loaded(rules, v, db, k, st);
      LoadedHeld(rules, v, db, k, st);
      if held.None? {
        ScanEffect(rules, v, db, k + 1, None);
      } else {
        var s := Bump(rules[k].interval, held.value[k], v.env.now(k));
        var vec := held.value[k := s];
        assert s == After(rules, v, db, k);
        assert Held(rules, v, db, k + 1, Some(vec));
        if s.rate >= Threshold(rules[k]) {
          BanEffect(rules, v, db, k);
          StoredEffect(rules, v, db, vec, Some(k));
        } else {
          ScanEffect(rules, v, db, k + 1, Some(vec));
        }
      }
    }
  }

  lemma {:induction false} BanEffect(rules: seq<Rule>, v: Visit, db: RegexDb, k: nat)
    requires ValidRules(rules) && ValidDb(rules, db) && k < |rules| && rules[k].matches(v.record)
    requires rules[k].hits == 0 || After(rules, v, db, k).rate >= Threshold(rules[k])
    ensures Effect(rules, v, db, Outcome(db, Some(k)))
  {
  }

  lemma {:induction false} MatchedEffect(rules: seq<Rule>, v: Visit, db: RegexDb)
    requires ValidRules(rules) && ValidDb(rules, db)
    ensures Effect(rules, v, db, Matched(rules, v, db))
  {
    ScanEffect(rules, v, db, 0, None);
  }

  // ----- what decides a visit -----

  /** One of the first `n` rules is a hit at which the state vector could be read. */
  ghost predicate ReadBy(rules: seq<Rule>, v: Visit, n: nat)
    requires n <= |rules|
  {
    exists i: nat :: i < n && IsHit(rules, v, i) && v.env.gets(i)
  }

  /** Rule `j` counts the visit: a hit with a vector in hand. */
  ghost predicate CountedBy(rules: seq<Rule>, v: Visit, j: nat)
    requires j < |rules|
  {
    IsHit(rules, v, j) && ReadBy(rules, v, j + 1)
  }

  /** Rule `j` ends the scan: it skips the host, bans at once, or counts the visit and finds the rate excessive. */
  ghost predicate Halts(rules: seq<Rule>, v: Visit, db: RegexDb, j: nat)
    requires ValidRules(rules) && j < |rules|
  {
    || v.host in rules[j].hostsToSkip
    || (rules[j].matches(v.record) && rules[j].hits == 0)
    || (CountedBy(rules, v, j) && After(rules, v, db, j).rate >= Threshold(rules[j]))
  }

  ghost predicate FirstHalt(rules: seq<Rule>, v: Visit, db: RegexDb, j: nat)
    requires ValidRules(rules)
  {
    j < |rules| && Halts(rules, v, db, j) && forall i :: 0 <= i < j ==> !Halts(rules, v, db, i)
  }

  /** The vector after the first `n` rules: those that count the visit have counted it. */
  ghost function Tallied(rules: seq<Rule>, v: Visit, db: RegexDb, n: nat): (vec: seq<RegexState>)
    requires ValidRules(rules) && n <= |rules|
    ensures |vec| == |rules|
  {
    seq(|rules|, j requires 0 <= j < |rules| =>
      if j < n && CountedBy(rules, v, j) then After(rules, v, db, j) else Record(db, v.ip, j))
  }

  /**
   * The first rule that halts the scan decides. If it skips the host nothing is banned or stored, whatever was counted;
   * if it bans at once nothing is stored either; if the rate is excessive the counts up to it are stored, lock
   * permitting. If no rule halts the scan nothing is banned and the counts are stored.
   */
  ghost predicate Decisive(rules: seq<Rule>, v: Visit, db: RegexDb, r: Outcome)
    requires ValidRules(rules)
  {
    && (forall j: nat :: FirstHalt(rules, v, db, j) ==>
          if v.host in rules[j].hostsToSkip then r == Outcome(db, None)
          else if rules[j].hits == 0 then r == Outcome(db, Some(j))
          else r.hit == Some(j) && r.db == Put(db, v.ip, Tallied(rules, v, db, j + 1), v.env.set_))
    && ((forall j :: 0 <= j < |rules| ==> !Halts(rules, v, db, j)) ==>
          && r.hit == None
          && r.db == if ReadBy(rules, v, |rules|) then Put(db, v.ip, Tallied(rules, v, db, |rules|), v.env.set_) else db)
  }

  /** The vector held at rule `k`. */
  ghost function Holding(rules: seq<Rule>, v: Visit, db: RegexDb, k: nat): Option<seq<RegexState>>
    requires ValidRules(rules) && k <= |rules|
  {
    if ReadBy(rules, v, k) then Some(Tallied(rules, v, db, k)) else None
  }

  lemma {:induction false} HoldingMissed(rules: seq<Rule>, v: Visit, db: RegexDb, k: nat)
    requires ValidRules(rules) && ValidDb(rules, db) && k < |rules| && !CountedBy(rules, v, k)
    ensures Holding(rules, v, db, k + 1) == Holding(rules, v, db, k)
    ensures IsHit(rules, v, k) ==>
              Loaded(rules, v, db, k, Holding(rules, v, db, k)) == None == Holding(rules, v, db, k + 1)
  {
    hide After, Record;
    assert ReadBy(rules, v, k + 1) ==> !IsHit(rules, v, k);
    assert ReadBy(rules, v, k + 1) <==> ReadBy(rules, v, k);
    assert Tallied(rules, v, db, k + 1) == Tallied(rules, v, db, k);
  }

  lemma {:induction false} HoldingCounted(rules: seq<Rule>, v: Visit, db: RegexDb, k: nat)
    requires ValidRules(rules) && ValidDb(rules, db) && k < |rules| && CountedBy(rules, v, k)
    ensures var held := Loaded(rules, v, db, k, Holding(rules, v, db, k));
            && held.Some? && held.value[k] == Record(db, v.ip, k)
            && held.value[k := After(rules, v, db, k)] == Tallied(rules, v, db, k + 1)
    ensures Holding(rules, v, db, k + 1) == Some(Tallied(rules, v, db, k + 1))
  {
    hide After;
    var held := Loaded(rules, v, db, k, Holding(rules, v, db, k));
    if !ReadBy(rules, v, k) {
      assert v.env.gets(k);
      assert forall j :: 0 <= j < k ==> !CountedBy(rules, v, j);
      assert forall j :: 0 <= j < |rules| ==> held.value[j] == Record(db, v.ip, j);
    }
  }

  lemma {:induction false} ScanStep(rules: seq<Rule>, v: Visit, db: RegexDb, k: nat)
    requires ValidRules(rules) && ValidDb(rules, db) && k < |rules|
    ensures var r := Scan(rules, v, db, k, Holding(rules, v, db, k));
            if !Halts(rules, v, db, k) then r == Scan(rules, v, db, k + 1, Holding(rules, v, db, k + 1))
            else if v.host in rules[k].hostsToSkip then r == Outcome(db, None)
            else if rules[k].hits == 0 then r == Outcome(db, Some(k))
            else r == Outcome(Put(db, v.ip, Tallied(rules, v, db, k + 1), v.env.set_), Some(k))
  {
    if CountedBy(rules, v, k) {
      HoldingCounted(rules, v, db, k);
    } else {
      HoldingMissed(rules, v, db, k);
    }
    hide Bump, Threshold, Holding, Tallied, ReadBy, Loaded, Record;
  }

  lemma {:induction false} ScanEnd(rules: seq<Rule>, v: Visit, db: RegexDb)
    requires ValidRules(rules) && ValidDb(rules, db)
    ensures Scan(rules, v, db, |rules|, Holding(rules, v, db, |rules|))
         == Outcome(if ReadBy(rules, v, |rules|) then Put(db, v.ip, Tallied(rules, v, db, |rules|), v.env.set_) else db,
                    None)
  {
    assert rules == [] ==> !ReadBy(rules, v, 0);
    hide Tallied, ReadBy;
  }

  lemma {:induction false} ScanDecides(rules: seq<Rule>, v: Visit, db: RegexDb, k: nat)
    requires ValidRules(rules) && ValidDb(rules, db) && k <= |rules|
    requires forall i :: 0 <= i < k ==> !Halts(rules, v, db, i)
    ensures Decisive(rules, v, db, Scan(rules, v, db, k, Holding(rules, v, db, k)))
    decreases |rules| - k
  {
    hide Scan, Halts, Holding, Tallied, ReadBy;
    if k == |rules| {
      ScanEnd(rules, v, db);
    } else {
      ScanStep(rules, v, db, k);
      if Halts(rules, v, db, k) {
        assert forall j: nat :: FirstHalt(rules, v, db, j) ==> j == k;
      } else {
        ScanDecides(rules, v, db, k + 1);
      }
    }
  }

  /** What decides a visit, on every rule list, lock outcome and table. */
  lemma {:induction false} MatchedExactly(rules: seq<Rule>, v: Visit, db: RegexDb)
    requires ValidRules(rules) && ValidDb(rules, db)
    ensures Decisive(rules, v, db, Matched(rules, v, db))
  {
    hide Decisive, Scan;
    ScanDecides(rules, v, db, 0);
  }

  /** A visit is banned exactly when the first rule to halt the scan matches it and does not skip its host. */
  lemma {:induction false} BannedExactly(rules: seq<Rule>, v: Visit, db: RegexDb)
    requires ValidRules(rules) && ValidDb(rules, db)
    ensures forall j: nat :: Matched(rules, v, db).hit == Some(j) <==>
              FirstHalt(rules, v, db, j) && v.host !in rules[j].hostsToSkip
  {
    hide Halts, Matched, Tallied;
    MatchedExactly(rules, v, db);
    if k: nat :| k < |rules| && Halts(rules, v, db, k) {
      var i := SomeHalt(rules, v, db, k);
      assert forall j: nat :: FirstHalt(rules, v, db, j) ==> j == i;
    }
  }

  ghost function SomeHalt(rules: seq<Rule>, v: Visit, db: RegexDb, k: nat): (i: nat)
    requires ValidRules(rules) && k < |rules| && Halts(rules, v, db, k)
    ensures i <= k && FirstHalt(rules, v, db, i)
  {
    if i: nat :| i < k && Halts(rules, v, db, i) then SomeHalt(rules, v, db, i) else k
  }
}
