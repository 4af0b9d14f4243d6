/**
 * src/ip_db.h from the point of view of threads: reading an entry and writing it back are two operations, each under
 * its own try-lock, and operations of other requests may come in between.
 */
module SplitRuns {
  import opened Bytes
  import IpDb

  /** What an operation wants to do to the entry of its address once it has read it. */
  datatype Change<V> = Keep | Store(value: V) | Erase

  /** Operation `op` of thread `id` for address `ip` reads the entry; later it writes. */
  datatype Move<L> = Fetch(id: nat, ip: Str, op: L) | Commit(id: nat, ip: Str)

  /** What each operation makes of what it read; a write whose try-lock fails is a `Keep`. */
  type Plan<!L, !V> = (L, Option<V>) -> Change<V>

  /** An operation between its read and its write, what it read, and what it is going to write. */
  datatype Pending<L, V> = Pending(op: L, seen: Option<V>, change: Change<V>)

  /** The table, and the operations between read and write. */
  datatype Mid<L, V> = Mid(db: IpDb.Db<V>, pending: map<(nat, Str), Pending<L, V>>)

  function Applied<V>(e: Option<V>, c: Change<V>): Option<V> {
    match c
    case Keep => e
    case Store(v) => Some(v)
    case Erase => None
  }

  function Written<V>(db: IpDb.Db<V>, ip: Str, c: Change<V>): IpDb.Db<V> {
    match c
    case Keep => db
    case Store(v) => db[ip := v]
    case Erase => db - {ip}
  }

  ghost function After<L, V>(plan: Plan<L, V>, m: Mid<L, V>, move: Move<L>): Mid<L, V> {
    match move
    case Fetch(id, ip, l) =>
      var e := IpDb.Entry(m.db, ip);
      m.(pending := m.pending[(id, ip) := Pending(l, e, plan(l, e))])
    case Commit(id, ip) =>
      if (id, ip) !in m.pending then m
      else Mid(Written(m.db, ip, m.pending[(id, ip)].change), m.pending - {(id, ip)})
  }

  ghost function Run<L, V>(plan: Plan<L, V>, start: IpDb.Db<V>, moves: seq<Move<L>>): Mid<L, V> {
    if moves == [] then Mid(start, map[])
    else After(plan, Run(plan, start, moves[..|moves| - 1]), moves[|moves| - 1])
  }

  /** The entry of an address after the first `p` moves. */
  ghost function EntryAt<L, V>(plan: Plan<L, V>, start: IpDb.Db<V>, moves: seq<Move<L>>, p: nat, ip: Str): Option<V>
    requires p <= |moves|
  {
    IpDb.Entry(Run(plan, start, moves[..p]).db, ip)
  }

  lemma {:induction false} RunStep<L, V>(plan: Plan<L, V>, start: IpDb.Db<V>, moves: seq<Move<L>>, p: nat)
    requires p < |moves|
    ensures Run(plan, start, moves[..p + 1]) == After(plan, Run(plan, start, moves[..p]), moves[p])
  {
    hide After;
    assert moves[..p + 1][..p] == moves[..p] && moves[..p + 1][p] == moves[p];
  }

  // ----- where entries come from -----

  /** The read at `q` is that of this operation of thread `id`. */
  ghost predicate Wants<L, V>(plan: Plan<L, V>, start: IpDb.Db<V>, moves: seq<Move<L>>, q: nat, id: nat, ip: Str,
                              c: Pending<L, V>) {
    && q < |moves| && moves[q].Fetch? && moves[q].id == id && moves[q].ip == ip && moves[q].op == c.op
    && c.seen == EntryAt(plan, start, moves, q, ip) && c.change == plan(c.op, c.seen)
  }

  /** Thread `id` does nothing for the address strictly between moves `q` and `r`. */
  ghost predicate Quiet<L>(moves: seq<Move<L>>, id: nat, ip: Str, q: nat, r: nat) {
    forall k :: q < k < r && k < |moves| ==> moves[k].id != id || moves[k].ip != ip
  }

  /** The operation that read at `q` wrote `v` at `r`: what it decided then, with no other move of its thread in between. */
  ghost predicate Wrote<L, V>(plan: Plan<L, V>, start: IpDb.Db<V>, moves: seq<Move<L>>, q: nat, r: nat, ip: Str, v: V) {
    && q < r < |moves| && moves[q].Fetch? && moves[q].ip == ip && moves[r] == Commit(moves[q].id, ip)
    && Quiet(moves, moves[q].id, ip, q, r)
    && plan(moves[q].op, EntryAt(plan, start, moves, q, ip)) == Store(v)
  }

  /** The entry is `v` from right after move `r` up to move `n`. */
  ghost predicate Stands<L, V>(plan: Plan<L, V>, start: IpDb.Db<V>, moves: seq<Move<L>>, r: nat, n: nat, ip: Str,
                               v: V) {
    forall k: nat :: r < k <= n && k <= |moves| ==> EntryAt(plan, start, moves, k, ip) == Some(v)
  }

  /** A pending change was decided at the last move of its thread. */
  lemma {:induction false} PendingExplained<L, V>(plan: Plan<L, V>, start: IpDb.Db<V>, moves: seq<Move<L>>, n: nat,
      id: nat, ip: Str)
    requires n <= |moves| && (id, ip) in Run(plan, start, moves[..n]).pending
    ensures exists q: nat :: q < n && Quiet(moves, id, ip, q, n)
                        && Wants(plan, start, moves, q, id, ip, Run(plan, start, moves[..n]).pending[(id, ip)])
  {
    if n > 0 {
      RunStep(plan, start, moves, n - 1);
      hide Run;
      var m, held := moves[n - 1], Run(plan, start, moves[..n]).pending[(id, ip)];
      if m.id == id && m.ip == ip {
        assert Wants(plan, start, moves, n - 1, id, ip, held) && Quiet(moves, id, ip, n - 1, n);
      } else {
        PendingExplained(plan, start, moves, n - 1, id, ip);
        var q: nat :| q < n - 1 && Quiet(moves, id, ip, q, n - 1) && Wants(plan, start, moves, q, id, ip, held);
        assert Quiet(moves, id, ip, q, n);
      }
    }
  }

  /**
   * An entry that was not there from the start was written by an operation of its address, which carried out what it had
   * decided on the entry it read; and the entry has stood unchanged since.
   */
  lemma {:induction false} EntryExplained<L, V>(plan: Plan<L, V>, start: IpDb.Db<V>, moves: seq<Move<L>>, n: nat,
      ip: Str)
    requires n <= |moves| && ip !in start && EntryAt(plan, start, moves, n, ip).Some?
    ensures var v := EntryAt(plan, start, moves, n, ip).value;
            exists q: nat, r: nat :: r < n && Wrote(plan, start, moves, q, r, ip, v) && Stands(plan, start, moves, r, n, ip, v)
  {
    if n > 0 {
      var v := EntryAt(plan, start, moves, n, ip).value;
      EntryStep(plan, start, moves, n - 1, ip);
      hide EntryAt, Wrote, Stands, WritesAt, Run;
      if WritesAt(plan, start, moves, n - 1, ip, v) {
        WriteExplained(plan, start, moves, n - 1, ip, v);
      } else {
        EntryExplained(plan, start, moves, n - 1, ip);
        var q: nat, r: nat :| r < n - 1 && Wrote(plan, start, moves, q, r, ip, v) && Stands(plan, start, moves, r, n - 1, ip, v);
        StandsLonger(plan, start, moves, r, n - 1, ip, v);
      }
    }
  }

  /** Move `k` stores `v` for the address. */
  ghost predicate WritesAt<L, V>(plan: Plan<L, V>, start: IpDb.Db<V>, moves: seq<Move<L>>, k: nat, ip: Str, v: V)
    requires k < |moves|
  {
    var pending, m := Run(plan, start, moves[..k]).pending, moves[k];
    m.Commit? && m.ip == ip && (m.id, ip) in pending && pending[(m.id, ip)].change == Store(v)
  }

  lemma {:induction false} EntryStep<L, V>(plan: Plan<L, V>, start: IpDb.Db<V>, moves: seq<Move<L>>, k: nat, ip: Str)
    requires k < |moves|
    ensures var before, after := EntryAt(plan, start, moves, k, ip), EntryAt(plan, start, moves, k + 1, ip);
            after.Some? ==> after == before || WritesAt(plan, start, moves, k, ip, after.value)
  {
    RunStep(plan, start, moves, k);
    hide Run;
  }

  lemma {:induction false} WriteExplained<L, V>(plan: Plan<L, V>, start: IpDb.Db<V>, moves: seq<Move<L>>, k: nat,
      ip: Str, v: V)
    requires k < |moves| && WritesAt(plan, start, moves, k, ip, v)
    ensures exists q: nat :: Wrote(plan, start, moves, q, k, ip, v)
    ensures Stands(plan, start, moves, k, k + 1, ip, v)
  {
    hide Run, Quiet;
    var id := moves[k].id;
    var held := Run(plan, start, moves[..k]).pending[(id, ip)];
    PendingExplained(plan, start, moves, k, id, ip);
    var q: nat :| q < k && Quiet(moves, id, ip, q, k) && Wants(plan, start, moves, q, id, ip, held);
    assert Wrote(plan, start, moves, q, k, ip, v) by {
      assert moves[q].Fetch? && moves[q].id == id && moves[q].ip == ip && moves[k] == Commit(id, ip);
      hide EntryAt;
    }
    WrittenStands(plan, start, moves, k, ip, v);
  }

  lemma {:induction false} WrittenStands<L, V>(plan: Plan<L, V>, start: IpDb.Db<V>, moves: seq<Move<L>>, k: nat,
      ip: Str, v: V)
    requires k < |moves| && WritesAt(plan, start, moves, k, ip, v)
    ensures Stands(plan, start, moves, k, k + 1, ip, v)
  {
    RunStep(plan, start, moves, k);
    hide Run;
  }

  lemma {:induction false} StandsLonger<L, V>(plan: Plan<L, V>, start: IpDb.Db<V>, moves: seq<Move<L>>, r: nat,
      n: nat, ip: Str, v: V)
    requires n < |moves| && Stands(plan, start, moves, r, n, ip, v) && EntryAt(plan, start, moves, n + 1, ip) == Some(v)
    ensures Stands(plan, start, moves, r, n + 1, ip, v)
  {
    hide EntryAt;
  }

  // ----- other addresses do not matter -----

  ghost function Only<L>(moves: seq<Move<L>>, ip: Str): seq<Move<L>> {
    if moves == [] then []
    else Only(moves[..|moves| - 1], ip) + if moves[|moves| - 1].ip == ip then [moves[|moves| - 1]] else []
  }

  ghost predicate Alike<L, V>(a: Mid<L, V>, b: Mid<L, V>, ip: Str) {
    && IpDb.Entry(a.db, ip) == IpDb.Entry(b.db, ip)
    && forall id: nat :: ((id, ip) in a.pending <==> (id, ip) in b.pending)
                    && ((id, ip) in a.pending ==> a.pending[(id, ip)] == b.pending[(id, ip)])
  }

  lemma {:induction false} AfterAlike<L, V>(plan: Plan<L, V>, a: Mid<L, V>, b: Mid<L, V>, m: Move<L>, ip: Str)
    requires Alike(a, b, ip)
    ensures m.ip == ip ==> Alike(After(plan, a, m), After(plan, b, m), ip)
    ensures m.ip != ip ==> Alike(After(plan, a, m), b, ip)
  {
  }

  /** At this granularity too: what an address sees is decided by its own operations alone. */
  lemma {:induction false} OthersDoNotMatter<L, V>(plan: Plan<L, V>, start: IpDb.Db<V>, moves: seq<Move<L>>, ip: Str)
    ensures Alike(Run(plan, start, moves), Run(plan, start, Only(moves, ip)), ip)
  {
    hide After, Alike;
    if moves == [] {
      AlikeSelf(Run(plan, start, moves), ip);
    } else {
      var n := |moves| - 1;
      var rest, m := moves[..n], moves[n];
      OthersDoNotMatter(plan, start, rest, ip);
      AfterAlike(plan, Run(plan, start, rest), Run(plan, start, Only(rest, ip)), m, ip);
      var only := Only(moves, ip);
      if m.ip == ip {
        assert only[..|only| - 1] == Only(rest, ip) && only[|only| - 1] == m;
      } else {
        assert only == Only(rest, ip);
      }
    }
  }

  lemma {:induction false} AlikeSelf<L, V>(a: Mid<L, V>, ip: Str)
    ensures Alike(a, a, ip)
  {
  }

  // ----- operations that do not overlap -----

  /** Whole operations one after the other: each is a read and, with nothing in between, its write. */
  ghost function Weave<L>(ids: seq<nat>, ip: Str, ops: seq<L>): (w: seq<Move<L>>)
    requires |ids| == |ops|
    ensures |w| == 2 * |ops|
    ensures forall k :: 0 <= k < |ops| ==> w[2 * k] == Fetch(ids[k], ip, ops[k]) && w[2 * k + 1] == Commit(ids[k], ip)
  {
    if ops == [] then []
    else
      var n := |ops| - 1;
      Weave(ids[..n], ip, ops[..n]) + [Fetch(ids[n], ip, ops[n]), Commit(ids[n], ip)]
  }

  /** The moves at an index: reads at the even ones, writes at the odd ones. */
  lemma {:induction false} WeaveAt<L>(ids: seq<nat>, ip: Str, ops: seq<L>, i: nat)
    requires |ids| == |ops| && i < 2 * |ops|
    ensures var h := i / 2;
            h < |ops| && Weave(ids, ip, ops)[i] == if i % 2 == 0 then Fetch(ids[h], ip, ops[h]) else Commit(ids[h], ip)
  {
    var h, w := i / 2, Weave(ids, ip, ops);
    hide Weave;
    assert ops[h] == ops[h];
    assert w[2 * h] == Fetch(ids[h], ip, ops[h]) && w[2 * h + 1] == Commit(ids[h], ip);
  }

  /** The entry after whole operations, one after the other. */
  ghost function Serial<L, V>(plan: Plan<L, V>, e: Option<V>, ops: seq<L>): Option<V> {
    if ops == [] then e
    else
      var before := Serial(plan, e, ops[..|ops| - 1]);
      Applied(before, plan(ops[|ops| - 1], before))
  }

  /** No other operation of the address comes between the read and the write of one. */
  ghost predicate Undivided<L>(moves: seq<Move<L>>, ip: Str, ids: seq<nat>, ops: seq<L>) {
    |ids| == |ops| && Only(moves, ip) == Weave(ids, ip, ops)
  }

  lemma {:induction false} WeaveIsSerial<L, V>(plan: Plan<L, V>, start: IpDb.Db<V>, ids: seq<nat>, ip: Str, ops: seq<L>)
    requires |ids| == |ops|
    ensures IpDb.Entry(Run(plan, start, Weave(ids, ip, ops)).db, ip) == Serial(plan, IpDb.Entry(start, ip), ops)
  {
    if ops != [] {
      var n := |ops| - 1;
      var w, less := Weave(ids, ip, ops), Weave(ids[..n], ip, ops[..n]);
      WeaveIsSerial(plan, start, ids[..n], ip, ops[..n]);
      assert w == less + [Fetch(ids[n], ip, ops[n]), Commit(ids[n], ip)];
      hide Weave, Run;
      var before := Run(plan, start, less);
      PairRuns(plan, start, less, ids[n], ip, ops[n]);
    }
  }

  /** One whole operation. */
  lemma {:induction false} PairRuns<L, V>(plan: Plan<L, V>, start: IpDb.Db<V>, moves: seq<Move<L>>, id: nat, ip: Str,
                                          op: L)
    ensures var e := IpDb.Entry(Run(plan, start, moves).db, ip);
            IpDb.Entry(Run(plan, start, moves + [Fetch(id, ip, op), Commit(id, ip)]).db, ip) == Applied(e, plan(op, e))
  {
    var w, n := moves + [Fetch(id, ip, op), Commit(id, ip)], |moves|;
    assert w[..n] == moves && w[..n + 2] == w;
    RunStep(plan, start, w, n);
    RunStep(plan, start, w, n + 1);
  }

  /** Then the entry of the address is what whole operations leave, whatever other addresses do in between. */
  lemma {:induction false} UndividedIsSerial<L, V>(plan: Plan<L, V>, start: IpDb.Db<V>, moves: seq<Move<L>>, ip: Str,
      ids: seq<nat>, ops: seq<L>)
    requires Undivided(moves, ip, ids, ops)
    ensures IpDb.Entry(Run(plan, start, moves).db, ip) == Serial(plan, IpDb.Entry(start, ip), ops)
  {
    hide Run, Weave, Serial;
    OthersDoNotMatter(plan, start, moves, ip);
    WeaveIsSerial(plan, start, ids, ip, ops);
  }

  lemma {:induction false} OnlyPrefix<L>(moves: seq<Move<L>>, ip: Str, p: nat)
    requires p <= |moves|
    ensures Only(moves[..p], ip) <= Only(moves, ip)
    ensures p < |moves| && moves[p].ip == ip ==>
              |Only(moves[..p], ip)| < |Only(moves, ip)| && Only(moves, ip)[|Only(moves[..p], ip)|] == moves[p]
  {
    if p < |moves| {
      var less := moves[..|moves| - 1];
      assert less[..p] == moves[..p];
      OnlyPrefix(less, ip, p);
    } else {
      assert moves[..p] == moves;
    }
  }

  /** How many operations of an address have begun. */
  ghost function Begun<L>(moves: seq<Move<L>>, ip: Str): nat {
    |Only(moves, ip)| / 2
  }

  lemma {:induction false} WeavePrefix<L>(ids: seq<nat>, ip: Str, ops: seq<L>, k: nat)
    requires |ids| == |ops| && k <= |ops|
    ensures Weave(ids, ip, ops)[..2 * k] == Weave(ids[..k], ip, ops[..k])
  {
    var a, b := Weave(ids, ip, ops)[..2 * k], Weave(ids[..k], ip, ops[..k]);
    forall i | 0 <= i < 2 * k ensures a[i] == b[i] {
      WeaveAt(ids, ip, ops, i);
      WeaveAt(ids[..k], ip, ops[..k], i);
    }
  }

  /** And the read at `p` finds what the whole operations before it left. */
  lemma {:induction false} UndividedRead<L, V>(plan: Plan<L, V>, start: IpDb.Db<V>, moves: seq<Move<L>>, ip: Str,
      ids: seq<nat>, ops: seq<L>, p: nat)
    requires Undivided(moves, ip, ids, ops) && p < |moves| && moves[p].Fetch? && moves[p].ip == ip
    ensures var k := Begun(moves[..p], ip);
            && k < |ops| && ops[k] == moves[p].op
            && EntryAt(plan, start, moves, p, ip) == Serial(plan, IpDb.Entry(start, ip), ops[..k])
  {
    hide Run, Serial;
    OnlyPrefix(moves, ip, p);
    var w, before := Weave(ids, ip, ops), Only(moves[..p], ip);
    var i := |before|;
    var k := i / 2;
    assert w[i] == moves[p];
    WeaveAt(ids, ip, ops, i);
    WeavePrefix(ids, ip, ops, k);
    assert before == w[..i];
    hide Weave, Only;
    OthersDoNotMatter(plan, start, moves[..p], ip);
    WeaveIsSerial(plan, start, ids[..k], ip, ops[..k]);
  }

  lemma {:induction false} BegunGrows<L>(moves: seq<Move<L>>, ip: Str, ids: seq<nat>, ops: seq<L>, p: nat, q: nat)
    requires Undivided(moves, ip, ids, ops) && p < q < |moves|
    requires moves[p].Fetch? && moves[p].ip == ip && moves[q].Fetch? && moves[q].ip == ip
    ensures Begun(moves[..p], ip) < Begun(moves[..q], ip)
  {
    var w := Weave(ids, ip, ops);
    OnlyPrefix(moves, ip, p);
    OnlyPrefix(moves, ip, q);
    assert moves[..q][..p] == moves[..p];
    OnlyPrefix(moves[..q], ip, p);
    var i, j := |Only(moves[..p], ip)|, |Only(moves[..q], ip)|;
    assert i < j && w[i].Fetch? && w[j].Fetch?;
    WeaveAt(ids, ip, ops, i);
    WeaveAt(ids, ip, ops, j);
  }
}
