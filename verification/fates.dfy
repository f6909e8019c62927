/** What becomes of the ids that core gives out before their write has an outcome
    (internal/core/reservations.go, transactions.go), and what each change does to the
    table, over the machine in persistence.dfy. */
module Fates {
  import opened Common
  import opened Core
  import opened Persistence
  import Effects

  // ----- a reservation id ---------------------------------------------------------------

  /** BeginReservation still has the id and its record is pending, or it has returned
      it and the counter on file has passed it, or the record is gone for good. */
  ghost predicate Fate(s: State, id: int) {
    var returned, dropped := id in s.history.reserved, id in s.ledger.unrecorded;
    && id < s.core.nextReservation
    && (BeingBegun(s.queue, id) || returned || dropped)
    && (BeingBegun(s.queue, id) ==> HasStatus(s.core, id, Pending) && !returned && !dropped)
    && (returned ==> !dropped && id < s.file.nextReservation)
    && (dropped ==> id !in s.core.reservations)
  }

  lemma BeginsWith(s: State, st: Step, id: int)
    requires Inv(s) && Enabled(s, st) && st.Begin?
    requires id == s.core.nextReservation < Apply(s, st).core.nextReservation
    ensures Fate(Apply(s, st), id)
  {
    assert Accounted(s.core, s.ledger, id);
  }

  lemma ChangeKeepsFate(s: State, st: Step, id: int)
    requires Inv(s) && Enabled(s, st) && st.Change? && Fate(s, id)
    ensures Fate(Apply(s, st), id)
  {
    AfterTouchesOne(s.core, s.cfg, st.change);
  }

  lemma StepKeepsFate(s: State, st: Step, id: int)
    requires Inv(s) && Enabled(s, st) && !st.Restart? && Fate(s, id)
    ensures Fate(Apply(s, st), id)
  {
    if st.Change? {
      ChangeKeepsFate(s, st, id);
    }
  }

  ghost predicate NoRestart(ss: seq<Step>, k: nat, j: nat) {
    forall i :: k <= i < j && i < |ss| ==> !ss[i].Restart?
  }

  /** For as long as the process lives, an id that BeginReservation took is with it,
      its record pending; or has been returned, and then the counter on file has passed
      it; or its record has been removed. It is never in two of these. */
  lemma {:induction false} EveryBegunIdHasItsFate(b: seq<State>, ss: seq<Step>, k: nat, j: nat, id: int)
    requires Run(b, ss) && k < j < |b| && ss[k].Begin? && NoRestart(ss, k, j)
    requires id == b[k].core.nextReservation < b[k + 1].core.nextReservation
    ensures Fate(b[j], id)
    decreases j
  {
    RunInv(b, ss, j - 1);
    if j == k + 1 {
      BeginsWith(b[k], ss[k], id);
    } else {
      EveryBegunIdHasItsFate(b, ss, k, j - 1, id);
      StepKeepsFate(b[j - 1], ss[j - 1], id);
    }
  }

  // ----- and why ----------------------------------------------------------------------------

  /** The step is the commit, or the failure, of the write that this operation waits for. */
  ghost predicate WriteEnds(s: State, st: Step, kind: Kind, ok: bool) {
    st == (if ok then Commit else Fail) && s.queue.writer.Some? && s.queue.writer.value.kind == kind
  }

  ghost predicate WriteEnded(b: seq<State>, ss: seq<Step>, n: nat, kind: Kind, ok: bool) {
    exists i :: 0 <= i < n && i < |ss| && i < |b| && WriteEnds(b[i], ss[i], kind, ok)
  }

  lemma ReturnedNow(s: State, st: Step, id: int)
    requires Enabled(s, st)
    ensures id in Apply(s, st).history.reserved ==>
              id in s.history.reserved || WriteEnds(s, st, Recording(id), true)
    ensures id in Apply(s, st).history.remotes ==>
              id in s.history.remotes || WriteEnds(s, st, Starting(id), true)
  {
  }

  lemma DroppedNow(s: State, st: Step, id: int)
    requires Enabled(s, st)
    ensures id in Apply(s, st).ledger.unrecorded || id in Apply(s, st).queue.dropping ==>
              id in s.ledger.unrecorded || id in s.queue.dropping || WriteEnds(s, st, Recording(id), false)
  {
  }

  lemma NothingYet(b: seq<State>, ss: seq<Step>, id: int)
    requires Run(b, ss)
    ensures id !in b[0].history.reserved && id !in b[0].history.remotes
    ensures id !in b[0].ledger.unrecorded && id !in b[0].queue.dropping
  {
  }

  /** An id is returned only once its own write has committed, and a record is removed
      only because its own write failed. */
  lemma {:induction false} FatesHaveTheirReasons(b: seq<State>, ss: seq<Step>, k: nat, id: int)
    requires Run(b, ss) && k < |b|
    ensures id in b[k].history.reserved ==> WriteEnded(b, ss, k, Recording(id), true)
    ensures id in b[k].history.remotes ==> WriteEnded(b, ss, k, Starting(id), true)
    ensures id in b[k].ledger.unrecorded || id in b[k].queue.dropping ==> WriteEnded(b, ss, k, Recording(id), false)
  {
    if k == 0 {
      NothingYet(b, ss, id);
    } else {
      FatesHaveTheirReasons(b, ss, k - 1, id);
      ReturnedNow(b[k - 1], ss[k - 1], id);
      DroppedNow(b[k - 1], ss[k - 1], id);
    }
  }

  // ----- a remote start id --------------------------------------------------------------------

  predicate BeingStarted(q: Queue, id: int) {
    Starting(id) in q.waiting || (q.writer.Some? && q.writer.value.kind == Starting(id))
  }

  lemma StartMoves(s: State, st: Step, id: int)
    requires Enabled(s, st) && !st.Restart?
    ensures st == AllocRemoteStart && id == s.core.nextRemoteStart ==> BeingStarted(Apply(s, st).queue, id)
    ensures BeingStarted(s.queue, id) ==>
              BeingStarted(Apply(s, st).queue, id) || id in Apply(s, st).history.remotes
              || WriteEnds(s, st, Starting(id), false)
    ensures id in s.history.remotes ==> id in Apply(s, st).history.remotes
  {
  }

  /** An id that NextRemoteStartID took is still on its way, or has been returned, or
      its own write has failed. */
  lemma {:induction false} EveryRemoteStartIdHasItsFate(b: seq<State>, ss: seq<Step>, k: nat, j: nat)
    requires Run(b, ss) && k < j < |b| && ss[k] == AllocRemoteStart && NoRestart(ss, k, j)
    ensures var id := b[k].core.nextRemoteStart;
            BeingStarted(b[j].queue, id) || id in b[j].history.remotes || WriteEnded(b, ss, j, Starting(id), false)
    decreases j
  {
    var id := b[k].core.nextRemoteStart;
    StartMoves(b[j - 1], ss[j - 1], id);
    if j > k + 1 {
      EveryRemoteStartIdHasItsFate(b, ss, k, j - 1);
    }
  }

  // ----- the events of a record --------------------------------------------------------------

  predicate Open(c: Core, id: int) {
    HasStatus(c, id, Pending) || HasStatus(c, id, Active)
  }

  predicate BecomesActive(s: State, u: State, id: int) {
    HasStatus(s.core, id, Pending) && HasStatus(u.core, id, Active)
  }

  predicate Ends(s: State, u: State, id: int) {
    Open(s.core, id) && !Open(u.core, id)
  }

  ghost predicate EventsTell(s: State, st: Step, u: State, id: int) {
    && u.ledger.created[id] == s.ledger.created[id] + (if BecomesActive(s, u, id) then 1 else 0)
    && u.ledger.ended[id] == s.ledger.ended[id] + (if Ends(s, u, id) && st != Drop(id) then 1 else 0)
  }

  lemma ChangeTells(s: State, st: Step, id: int)
    requires Inv(s) && Enabled(s, st) && st.Change?
    ensures EventsTell(s, st, Apply(s, st), id)
  {
    var ch := st.change;
    AfterTouchesOne(s.core, s.cfg, ch);
    if ch.StartingSession? {
      SessionEndsOneActive(s.core, s.cfg, ch.cp, ch.t, ch.now);
    }
  }

  lemma OtherStepTells(s: State, st: Step, id: int)
    requires Inv(s) && Enabled(s, st) && !st.Change? && !st.Restart?
    ensures EventsTell(s, st, Apply(s, st), id)
  {
  }

  /** A reservation is reported created exactly when it turns active, and reported ended
      exactly when it stops being pending or active, unless it goes because its counter
      could not be written: nobody has been told of it then. */
  lemma EventsAreTold(b: seq<State>, ss: seq<Step>, k: nat, id: int)
    requires Run(b, ss) && k < |ss| && !ss[k].Restart?
    ensures EventsTell(b[k], ss[k], b[k + 1], id)
  {
    RunInv(b, ss, k);
    if ss[k].Change? {
      ChangeTells(b[k], ss[k], id);
    } else {
      OtherStepTells(b[k], ss[k], id);
    }
  }

  // ----- what a change does ---------------------------------------------------------------------

  /** The changes to a record: the two of status keep everything else of it, the others
      remove it, and no other record, transaction or counter is touched. */
  lemma RecordChangeIs(c: Core, cfg: Config, ch: Change)
    requires Applies(c, ch) && !ch.StartingSession? && !ch.StoppingSession?
    ensures var d := After(c, cfg, ch);
            && Effects.OnlyRecord(c, d, ch.id) && d.nextReservation == c.nextReservation
            && (ch.Activating? || ch.Orphaning? ==>
                  && ch.id in d.reservations && ch.id in c.reservations
                  && Effects.SameReservation(d.reservations[ch.id].res, c.reservations[ch.id].res)
                  && d.reservations[ch.id].res.status == (if ch.Activating? then Active else Cancelling)
                  && d.reservations[ch.id].armed == ch.Activating?)
            && (ch.Ending? || ch.Expiring? || ch.EndingCancelling? ==> ch.id !in d.reservations)
  {
  }

  /** A session is there and running once it has started; once it has stopped it is
      there and not running, and the reservations are as they were. */
  lemma SessionChangeIs(c: Core, cfg: Config, ch: Change)
    requires Valid(c, cfg) && Applies(c, ch) && (ch.StartingSession? || ch.StoppingSession?)
    ensures var d := After(c, cfg, ch);
            && (ch.StartingSession? ==>
                  && Running(d.txs, ch.cp, ch.t.id) && d.txs[ch.cp][ch.t.id].tag == ch.t.tag
                  && d.txs[ch.cp][ch.t.id].meterStart == ch.t.meterStart
                  && Effects.OnlyTransaction(c.txs, d.txs, ch.cp, ch.t.id))
            && (ch.StoppingSession? ==>
                  && HasTx(d.txs, ch.cp, ch.tx) && d.txs[ch.cp][ch.tx].stoppedAt == Some(ch.at)
                  && d.txs[ch.cp][ch.tx].meterStop == ch.meterStop && d.txs[ch.cp][ch.tx].reason == ch.reason
                  && Effects.OnlyTransaction(c.txs, d.txs, ch.cp, ch.tx)
                  && d.reservations == c.reservations)
  {
    if ch.StartingSession? {
      Effects.StartSessionIs(c, cfg, ch.cp, ch.t, ch.now);
    } else {
      Effects.StopSessionIs(c, ch.cp, ch.tx, ch.meterStop, ch.reason, ch.at);
    }
  }
}
