/** When a transaction id can be handed out a second time: NextTransactionID returns
    its id whether or not the write succeeded (internal/core/transactions.go:30-40),
    and loadLocked raises the counter above the stored ids (persist.go:126-133). */
module Reissue {
  import opened Common
  import opened Core
  import opened Durable
  import opened Persistence

  /** A run from s on. */
  ghost predicate Continues(s: State, b: seq<State>, ss: seq<Step>) {
    |b| == |ss| + 1 && b[0] == s &&
    forall k :: 0 <= k < |ss| ==> Enabled(b[k], ss[k]) && b[k + 1] == Apply(b[k], ss[k])
  }

  /** A crash in s, a restart, and from then on anything: allocations, writes, further
      crashes. In the end the id n has been handed out after the crash. */
  ghost predicate Reissues(s: State, cfg: Config, now: Stamp, b: seq<State>, ss: seq<Step>, n: int) {
    && Continues(s, b, ss)
    && |ss| > 0 && ss[0] == Restart(cfg, now)
    && exists j :: |s.history.txIds| <= j < |b[|ss|].history.txIds| && b[|ss|].history.txIds[j] == n
  }

  // ----- what is handed out after a restart ---------------------------------------

  /** No id below low has been handed out since, or can be. */
  ghost predicate From(s: State, low: int, since: nat) {
    && low <= s.core.nextTransaction
    && low <= RestartCounter(s.file)
    && (s.queue.writer.Some? ==> low <= s.queue.writer.value.snap.nextTransaction)
    && since <= |s.history.txIds|
    && (forall j :: since <= j < |s.history.txIds| ==> low <= s.history.txIds[j])
  }

  lemma CounterAtLeast(d: Durable)
    requires WellFormed(d)
    ensures RestartCounter(d) >= d.nextTransaction
  {
    LoadTxsRest(Blank(d), d.transactions);
  }

  lemma FromKept(s: State, st: Step, low: int, since: nat)
    requires Inv(s) && From(s, low, since) && Enabled(s, st)
    ensures From(Apply(s, st), low, since)
  {
    match st
    case Change(ch, _) => AfterTouchesOne(s.core, s.cfg, ch);
    case Commit => CounterAtLeast(Normal(s.queue.writer.value.snap));
    case Restart(cfg, now) => LoadCounter(s.file, cfg, now);
    case _ =>
  }

  lemma {:induction false} FromNowOn(s: State, b: seq<State>, ss: seq<Step>, cfg: Config, now: Stamp, k: nat)
    requires Inv(s) && Continues(s, b, ss) && 1 <= k < |b| && ss[0] == Restart(cfg, now)
    ensures Inv(b[k]) && From(b[k], RestartCounter(s.file), |s.history.txIds|)
  {
    if k == 1 {
      InvPreserved(s, ss[0]);
      LoadCounter(s.file, cfg, now);
    } else {
      FromNowOn(s, b, ss, cfg, now, k - 1);
      InvPreserved(b[k - 1], ss[k - 1]);
      FromKept(b[k - 1], ss[k - 1], RestartCounter(s.file), |s.history.txIds|);
    }
  }

  // ----- a run that hands an id out again ---------------------------------------------

  /** Allocations only, with tickets nobody waits for. */
  lemma {:induction false} Allocations(s: State, count: nat, ticket: nat) returns (b: seq<State>, ss: seq<Step>)
    requires forall t :: t >= ticket ==> Plain(t) !in s.queue.waiting
    ensures Continues(s, b, ss) && |ss| == count
    ensures forall k :: 0 <= k < |ss| ==> ss[k].AllocTransaction?
    ensures b[count].core.nextTransaction == s.core.nextTransaction + count
    ensures |b[count].history.txIds| == |s.history.txIds| + count
    ensures count > 0 ==>
              b[count].history.txIds[|s.history.txIds| + count - 1] == s.core.nextTransaction + count - 1
    ensures forall t :: t >= ticket + count ==> Plain(t) !in b[count].queue.waiting
  {
    if count == 0 {
      b, ss := [s], [];
    } else {
      b, ss := Allocations(s, count - 1, ticket);
      var last, alloc := b[count - 1], AllocTransaction(ticket + count - 1);
      b, ss := b + [Apply(last, alloc)], ss + [alloc];
    }
  }

  /** A crash, a restart and allocations alone are enough. */
  lemma ReissueRun(s: State, cfg: Config, now: Stamp, n: int) returns (b: seq<State>, ss: seq<Step>)
    requires Inv(s) && ValidConfig(cfg) && RestartCounter(s.file) <= n
    ensures Reissues(s, cfg, now, b, ss, n)
    ensures forall k :: 1 <= k < |ss| ==> ss[k].AllocTransaction?
  {
    LoadCounter(s.file, cfg, now);
    var r := Apply(s, Restart(cfg, now));
    var count := n - RestartCounter(s.file) + 1;
    var b1, ss1 := Allocations(r, count, 1);
    b, ss := [s] + b1, [Restart(cfg, now)] + ss1;
    forall k | 0 <= k < |ss|
      ensures Enabled(b[k], ss[k]) && b[k + 1] == Apply(b[k], ss[k])
    {
      if k > 0 {
        assert b[k] == b1[k - 1] && b[k + 1] == b1[k] && ss[k] == ss1[k - 1];
      }
    }
    assert b[|ss|] == b1[count];
    assert b[|ss|].history.txIds[|s.history.txIds| + count - 1] == n;
  }

  // ----- exactly when ---------------------------------------------------------------

  /** In every reachable state and for every number, handed out before or not: it can
      be handed out after a crash now if and only if the restart would leave the
      counter at or below it. */
  lemma HandedOutExactlyWhen(b0: seq<State>, ss0: seq<Step>, k: nat, n: int, cfg: Config, now: Stamp)
    requires Run(b0, ss0) && k < |b0| && ValidConfig(cfg)
    ensures (exists b, ss :: Reissues(b0[k], cfg, now, b, ss, n)) <==>
            Load(b0[k].file, cfg, now).nextTransaction <= n
  {
    var s := b0[k];
    RunInv(b0, ss0, k);
    LoadCounter(s.file, cfg, now);
    if RestartCounter(s.file) <= n {
      var b, ss := ReissueRun(s, cfg, now, n);
    }
    if b, ss :| Reissues(s, cfg, now, b, ss, n) {
      FromNowOn(s, b, ss, cfg, now, |ss|);
    }
  }

  /** For an id that the current run has handed out, that is so if and only if no write
      covering it has committed and every numeric id on file is below it. */
  lemma ReissuedExactlyWhen(b0: seq<State>, ss0: seq<Step>, k: nat, i: nat, cfg: Config, now: Stamp)
    requires Run(b0, ss0) && k < |b0| && ValidConfig(cfg)
    requires b0[k].history.runStart <= i < |b0[k].history.txIds|
    ensures var s := b0[k];
            var n := s.history.txIds[i];
            (exists b, ss :: Reissues(s, cfg, now, b, ss, n)) <==>
            i !in s.history.covered
            && forall t :: 0 <= t < |s.file.transactions| ==> Below(s.file.transactions[t].id, n)
  {
    var s := b0[k];
    var n := s.history.txIds[i];
    RunInv(b0, ss0, k);
    HandedOutExactlyWhen(b0, ss0, k, n, cfg, now);
    LoadCounter(s.file, cfg, now);
    CoveredMeansOnFile(b0, ss0, k, i);
    LoadTxsCounter(Blank(s.file), s.file.transactions, n);
  }

  /** So an id whose every write has failed is safe all the same once the session that
      bears it is on file. */
  lemma StoredIdsAreNotReissued(b0: seq<State>, ss0: seq<Step>, k: nat, i: nat, cfg: Config, now: Stamp, t: nat)
    requires Run(b0, ss0) && k < |b0| && ValidConfig(cfg)
    requires b0[k].history.runStart <= i < |b0[k].history.txIds|
    requires t < |b0[k].file.transactions|
    requires b0[k].history.txIds[i] >= 0 && b0[k].file.transactions[t].id == Itoa(b0[k].history.txIds[i])
    ensures !exists b, ss :: Reissues(b0[k], cfg, now, b, ss, b0[k].history.txIds[i])
  {
    var s := b0[k];
    RunInv(b0, ss0, k);
    StoredIdPassed(s.file, t, s.history.txIds[i]);
    LoadCounter(s.file, cfg, now);
    HandedOutExactlyWhen(b0, ss0, k, s.history.txIds[i], cfg, now);
  }
}
