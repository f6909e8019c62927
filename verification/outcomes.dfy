/** What every step of control does to core's table and to the connection
    (internal/control/control.go), said of the states before and after it, and what
    that means for Reserve and Cancel over whole runs. */
module Outcomes {
  import opened Common
  import opened Core
  import opened Control
  import opened Conversation
  import Station

  // ----- one step --------------------------------------------------------------------

  predicate IdOf(s: State, t: nat, id: int) {
    t in s.desk.reserves
    && match s.desk.reserves[t]
       case Recording(i) => i == id
       case Unrecorded(i) => i == id
       case Recorded(i) => i == id
       case Awaiting(i) => i == id
       case Accepted(i) => i == id
       case Refused(i) => i == id
       case Failed(i) => i == id
       case Orphaned(i) => i == id
       case _ => false
  }

  /** The step that ends this record: the failed counter write and the refusal of its
      own Reserve call, its background cancel, a Cancel that the station has answered,
      and its timer at its expiry. */
  predicate EndsRecord(s: State, st: Step, id: int) {
    match st
    case Forget(t) => IdOf(s, t, id)
    case EndRefused(t) => IdOf(s, t, id)
    case EndOrphan(i) => i == id
    case EndReleased(u) => u in s.desk.users && s.desk.users[u].id == id
    case Fire(i, expiresAt) =>
      i == id && id in s.core.reservations && s.core.reservations[id].res.status == Active
      && s.core.reservations[id].res.expiresAt.at == expiresAt.at <= s.now
    case _ => false
  }

  ghost predicate SameRecord(s: State, u: State, id: int) {
    (id in u.core.reservations <==> id in s.core.reservations)
    && (id in s.core.reservations && id in u.core.reservations ==>
          u.core.reservations[id] == s.core.reservations[id])
  }

  ghost predicate OthersStand(s: State, u: State, id: int) {
    forall other :: other != id ==> SameRecord(s, u, other)
  }

  /** The record is as before but for its status and its timer. */
  ghost predicate Turned(s: State, u: State, id: int, from: Status, to: Status) {
    && id in s.core.reservations && s.core.reservations[id].res.status == from
    && id in u.core.reservations
    && u.core.reservations[id] == Entry(s.core.reservations[id].res.(status := to), to == Active)
  }

  /** A step that decides a pending record gives it this status. */
  predicate TurnsRecord(s: State, st: Step, id: int, to: Status) {
    (st.ActivateIt? && IdOf(s, st.t, id) && to == Active) || (st.OrphanIt? && IdOf(s, st.t, id) && to == Cancelling)
  }

  ghost predicate MayAdd(s: State, u: State, id: int) {
    SameRecord(s, u, id)
    || (id !in s.core.reservations && id == s.core.nextReservation && u.core.nextReservation == id + 1
        && id in u.core.reservations && u.core.reservations[id].res.status == Pending)
  }

  ghost predicate MayEndActive(s: State, u: State, id: int) {
    SameRecord(s, u, id)
    || (id in s.core.reservations && s.core.reservations[id].res.status == Active && id !in u.core.reservations)
  }

  predicate TableStep(st: Step) {
    st.Begin? || st.Forget? || st.ActivateIt? || st.EndRefused? || st.OrphanIt? || st.EndOrphan?
    || st.EndReleased? || st.Fire? || st.Session?
  }

  predicate DecidingStep(st: Step) {
    st.ActivateIt? || st.OrphanIt?
  }

  lemma CoreStands(s: State, st: Step)
    requires Enabled(s, st) && !TableStep(st)
    ensures Apply(s, st).core == s.core
  {
  }

  lemma RemovalTold(s: State, st: Step, id: int)
    requires OwnInv(s) && Enabled(s, st) && TableStep(st) && !DecidingStep(st) && !st.Begin? && !st.Session?
    ensures var u := Apply(s, st);
            && u.core.nextReservation == s.core.nextReservation
            && (if EndsRecord(s, st, id) then id !in u.core.reservations else SameRecord(s, u, id))
  {
    assert Removed(s, st).Some? && Apply(s, st).core == Without(s.core, Removed(s, st).value);
    assert EndsRecord(s, st, id) <==> Removed(s, st) == Some(id);
  }

  lemma DecisionTold(s: State, st: Step, id: int)
    requires OwnInv(s) && Enabled(s, st) && DecidingStep(st)
    ensures var u := Apply(s, st);
            && u.core.nextReservation == s.core.nextReservation
            && (if st.ActivateIt? && IdOf(s, st.t, id) then Turned(s, u, id, Pending, Active)
                else if st.OrphanIt? && IdOf(s, st.t, id) then Turned(s, u, id, Pending, Cancelling)
                else SameRecord(s, u, id))
  {
    assert HasStatus(s.core, s.desk.reserves[st.t].id, Pending);
  }

  lemma BeginTold(s: State, st: Step, id: int)
    requires OwnInv(s) && Enabled(s, st) && st.Begin?
    ensures var u := Apply(s, st);
            MayAdd(s, u, id) && s.core.nextReservation <= u.core.nextReservation
  {
  }

  lemma SessionTold(s: State, st: Step, id: int)
    requires OwnInv(s) && Enabled(s, st) && st.Session?
    ensures var u := Apply(s, st);
            MayEndActive(s, u, id) && u.core.nextReservation == s.core.nextReservation
  {
    SessionEndsOneActive(s.core, s.cfg, st.cp, st.start, st.at);
  }

  ghost predicate StepTells(s: State, st: Step, u: State, id: int) {
    && (EndsRecord(s, st, id) ==> id !in u.core.reservations)
    && (TurnsRecord(s, st, id, Active) ==> Turned(s, u, id, Pending, Active))
    && (TurnsRecord(s, st, id, Cancelling) ==> Turned(s, u, id, Pending, Cancelling))
    && (st.Session? ==> MayEndActive(s, u, id))
    && (st.Begin? ==> MayAdd(s, u, id))
    && (!EndsRecord(s, st, id) && !TurnsRecord(s, st, id, Active) && !TurnsRecord(s, st, id, Cancelling)
        && !st.Session? && !st.Begin? ==>
          SameRecord(s, u, id))
    && s.core.nextReservation <= u.core.nextReservation
  }

  lemma StepTold(s: State, st: Step, id: int)
    requires OwnInv(s) && Enabled(s, st)
    ensures StepTells(s, st, Apply(s, st), id)
  {
    if !TableStep(st) {
      CoreStands(s, st);
    } else if st.Session? {
      SessionTold(s, st, id);
    } else if st.Begin? {
      BeginTold(s, st, id);
    } else if DecidingStep(st) {
      DecisionTold(s, st, id);
    } else {
      RemovalTold(s, st, id);
    }
  }

  /** Every step changes a record exactly as its kind says, and no other step changes
      it at all. */
  lemma RecordsChangeOnlySo(b: seq<State>, ss: seq<Step>, k: nat, id: int)
    requires Run(b, ss) && k < |ss|
    ensures StepTells(b[k], ss[k], b[k + 1], id)
  {
    RunInv(b, ss, k);
    StepTold(b[k], ss[k], id);
  }

  // ----- an answered Cancel --------------------------------------------------------------

  lemma StaysGone(b: seq<State>, ss: seq<Step>, k: nat, id: int)
    requires Run(b, ss) && k < |ss|
    requires id !in b[k].core.reservations && id < b[k].core.nextReservation
    ensures id !in b[k + 1].core.reservations && id < b[k + 1].core.nextReservation
  {
    RecordsChangeOnlySo(b, ss, k, id);
  }

  /** An id that core has handed out and has no record of never gets one again. */
  lemma {:induction false} GoneForGood(b: seq<State>, ss: seq<Step>, k: nat, j: nat, id: int)
    requires Run(b, ss) && k <= j < |b|
    requires id !in b[k].core.reservations && id < b[k].core.nextReservation
    ensures id !in b[j].core.reservations && id < b[j].core.nextReservation
  {
    if k < j {
      GoneForGood(b, ss, k, j - 1, id);
      StaysGone(b, ss, j - 1, id);
    }
  }

  /** Once the station has answered a Cancel, accepting or refusing, the reservation
      ends in core: it has no record from then on, and every other record is as it was. */
  lemma AnsweredCancelEnds(b: seq<State>, ss: seq<Step>, k: nat, j: nat, u: nat)
    requires Run(b, ss) && k < j < |b| && ss[k] == EndReleased(u)
    ensures u in b[k].desk.users && u in b[k].line.userAns
    ensures b[k].desk.users[u].id !in b[j].core.reservations
    ensures OthersStand(b[k], b[k + 1], b[k].desk.users[u].id)
  {
    RunInv(b, ss, k);
    RunInv(b, ss, k + 1);
    assert Enabled(b[k], ss[k]);
    var id := b[k].desk.users[u].id;
    assert UserTracks(b[k].line, u, b[k].desk.users[u]);
    RecordsChangeOnlySo(b, ss, k, id);
    var now, next := b[k], b[k + 1];
    forall other | other != id ensures SameRecord(now, next, other) {
      RecordsChangeOnlySo(b, ss, k, other);
    }
    assert OthersStand(b[k], b[k + 1], id);
    GoneForGood(b, ss, k + 1, j, id);
  }

  // ----- what goes over the line ------------------------------------------------------------

  lemma SendsTold(s: State, st: Step)
    requires OwnInv(s) && Enabled(s, st) && (st.SendReserve? || st.SendCancel? || st.SendRelease?)
    ensures var w := Apply(s, st).line.wire;
            && (st.SendReserve? ==>
                  exists id :: IdOf(s, st.t, id) && id in s.requests
                    && w == s.line.wire + [ReserveNow(id, s.requests[id].connector)])
            && (st.SendCancel? ==> w == s.line.wire + [OrphanCancel(st.id)])
            && (st.SendRelease? ==>
                  st.u in s.desk.users && w == s.line.wire + [UserCancel(st.u, s.desk.users[st.u].id)])
  {
    if st.SendReserve? {
      assert IdOf(s, st.t, s.desk.reserves[st.t].id);
    }
  }

  lemma LineTold(s: State, st: Step)
    requires Enabled(s, st) && !st.SendReserve? && !st.SendCancel? && !st.SendRelease?
    ensures var u := Apply(s, st);
            && (st.StationHandles? ==> s.line.wire != [] && u.line.wire == s.line.wire[1..])
            && (st.DropLine? ==> !u.line.open && u.line.wire <= s.line.wire)
            && (!st.StationHandles? && !st.DropLine? ==> u.line.wire == s.line.wire)
  {
    if !LineStep(st) {
      LineStands(s, st);
    }
  }

  /** The connection is FIFO, and each send step sends exactly its own request: the
      ReserveNow of the call's id for the connector asked for, the cancel of the id. */
  lemma WireChangesOnlySo(b: seq<State>, ss: seq<Step>, k: nat)
    requires Run(b, ss) && k < |ss|
    ensures var s, st, w := b[k], ss[k], b[k + 1].line.wire;
            && (st.SendReserve? ==>
                  exists id :: IdOf(s, st.t, id) && id in s.requests
                    && w == s.line.wire + [ReserveNow(id, s.requests[id].connector)])
            && (st.SendCancel? ==> w == s.line.wire + [OrphanCancel(st.id)])
            && (st.SendRelease? ==>
                  st.u in s.desk.users && w == s.line.wire + [UserCancel(st.u, s.desk.users[st.u].id)])
            && (st.StationHandles? ==> s.line.wire != [] && w == s.line.wire[1..])
            && (st.DropLine? ==> w <= s.line.wire)
            && (!st.SendReserve? && !st.SendCancel? && !st.SendRelease? && !st.StationHandles? && !st.DropLine? ==>
                  w == s.line.wire)
  {
    RunInv(b, ss, k);
    if ss[k].SendReserve? || ss[k].SendCancel? || ss[k].SendRelease? {
      SendsTold(b[k], ss[k]);
    } else {
      LineTold(b[k], ss[k]);
    }
  }

  /** The answer to a request is kept for the call it belongs to: Accepted exactly if
      the connector can be reserved, or if the id is held, which it then is not. */
  ghost predicate AnswersAs(l: Line, u: Line, m: Msg, scenario: Station.Scenario) {
    match m
    case ReserveNow(id, c) =>
      var accepts := scenario == Station.Normal && c in l.plugs && Station.Reservable(l.plugs[c]);
      && u.reserveAns == l.reserveAns[id := accepts] && u.orphanAns == l.orphanAns && u.userAns == l.userAns
      && u.plugs == (if accepts then l.plugs[c := Station.Plug(id, 0, Station.Reserved)] else l.plugs)
    case OrphanCancel(id) =>
      && u.orphanAns == l.orphanAns[id := Station.Holds(l.plugs, id)]
      && u.reserveAns == l.reserveAns && u.userAns == l.userAns
      && Releases(l.plugs, u.plugs, id)
    case UserCancel(user, id) =>
      && u.userAns == l.userAns[user := Station.Holds(l.plugs, id)]
      && u.reserveAns == l.reserveAns && u.orphanAns == l.orphanAns
      && Releases(l.plugs, u.plugs, id)
  }

  /** The connector held for the id, if there is one, is available again. */
  ghost predicate Releases(before: Station.Plugs, after: Station.Plugs, id: int) {
    && after.Keys == before.Keys
    && forall c :: c in before && c in after ==>
         after[c] == if before[c].reservationId == id then Station.Plug(0, before[c].transactionId, Station.Available)
                     else before[c]
  }

  lemma ReserveAnswered(l: Line, scenario: Station.Scenario)
    requires l.wire != [] && l.wire[0].ReserveNow?
    ensures AnswersAs(l, Handled(l, scenario), l.wire[0], scenario)
  {
    Station.ReserveNowAnswers(scenario, l.plugs, l.wire[0].connector, l.wire[0].id);
  }

  lemma CancelReleases(plugs: Station.Plugs, id: int)
    requires id != 0 && (0 in plugs ==> plugs[0].reservationId != id)
    requires forall c, d :: c in plugs && d in plugs ==>
               plugs[c].reservationId == id && plugs[d].reservationId == id ==> c == d
    ensures var r := Station.CancelReservation(plugs, id);
            (r.accepted <==> Station.Holds(plugs, id)) && Releases(plugs, r.plugs, id)
  {
    Station.CancelReservationIs(plugs, id);
  }

  lemma CancelAnswered(l: Line, scenario: Station.Scenario, rq: Requests)
    requires l.wire != [] && !l.wire[0].ReserveNow? && Addressed(l, rq)
    requires forall i :: i in rq ==> i >= 1 && rq[i].connector != 0
    ensures AnswersAs(l, Handled(l, scenario), l.wire[0], scenario)
  {
    assert l.wire[0] in l.wire;
    CancelReleases(l.plugs, l.wire[0].id);
  }

  lemma RequestAnswered(s: State, scenario: Station.Scenario)
    requires OwnInv(s) && Addressed(s.line, s.requests) && s.line.wire != []
    ensures AnswersAs(s.line, Handled(s.line, scenario), s.line.wire[0], scenario)
  {
    if s.line.wire[0].ReserveNow? {
      ReserveAnswered(s.line, scenario);
    } else {
      ConnectorsPositive(s);
      CancelAnswered(s.line, scenario, s.requests);
    }
  }

  lemma StationAnswers(b: seq<State>, ss: seq<Step>, k: nat)
    requires Run(b, ss) && k < |ss| && ss[k].StationHandles?
    ensures b[k].line.wire != [] && AnswersAs(b[k].line, b[k + 1].line, b[k].line.wire[0], ss[k].scenario)
  {
    RunInv(b, ss, k);
    RequestAnswered(b[k], ss[k].scenario);
  }

  /** Time passes by ticks and by nothing else. */
  lemma TimePasses(s: State, st: Step)
    requires Enabled(s, st)
    ensures Apply(s, st).now == s.now + if st.Tick? then st.d else 0
  {
    if ReserveStep(st) {
      CallsTakeNoTime(s, st);
    }
  }

  lemma CallsTakeNoTime(s: State, st: Step)
    requires Enabled(s, st) && ReserveStep(st)
    ensures Apply(s, st).now == s.now
  {
  }

  // ----- what excuses a hold without a record ------------------------------------------------

  /** The session that this step starts ends the reservation, which was active. */
  ghost predicate SessionTakes(s: State, st: Step, u: State, id: int) {
    st.Session? && HasStatus(s.core, id, Active) && id !in u.core.reservations
  }

  ghost predicate LostBy(ss: seq<Step>, n: nat, id: int) {
    exists j :: 0 <= j < n && j < |ss| && ss[j] == FailCancel(id)
  }

  ghost predicate TakenBy(b: seq<State>, ss: seq<Step>, n: nat, id: int) {
    exists j, u :: 0 <= j < n && j < |ss| && j < |b| && SessionTakes(b[j], ss[j], u, id) && Next(b, j, u)
  }

  ghost predicate Next(b: seq<State>, j: nat, u: State) {
    j + 1 < |b| && b[j + 1] == u
  }

  lemma LostNow(s: State, st: Step, id: int)
    requires Enabled(s, st) && id in Apply(s, st).lost
    ensures id in s.lost || st == FailCancel(id)
  {
    if ReserveStep(st) {
      ReserveLineFrame(s, st);
    }
  }

  lemma SessionNow(s: State, st: Step, id: int)
    requires OwnInv(s) && Enabled(s, st) && st.Session? && id in Apply(s, st).bySession
    ensures id in s.bySession || SessionTakes(s, st, Apply(s, st), id)
  {
    SessionEndsOneActive(s.core, s.cfg, st.cp, st.start, st.at);
  }

  lemma NoSessionNow(s: State, st: Step)
    requires Enabled(s, st) && !st.Session?
    ensures Apply(s, st).bySession == s.bySession
  {
  }

  lemma ExcusedNow(b: seq<State>, ss: seq<Step>, k: nat, id: int)
    requires Run(b, ss) && k < |ss|
    ensures id in b[k + 1].lost ==> id in b[k].lost || ss[k] == FailCancel(id)
    ensures id in b[k + 1].bySession ==> id in b[k].bySession || SessionTakes(b[k], ss[k], b[k + 1], id)
  {
    RunInv(b, ss, k);
    if id in b[k + 1].lost {
      LostNow(b[k], ss[k], id);
    }
    if ss[k].Session? {
      if id in b[k + 1].bySession {
        SessionNow(b[k], ss[k], id);
      }
    } else {
      NoSessionNow(b[k], ss[k]);
    }
  }

  lemma NothingExcusedYet(b: seq<State>, ss: seq<Step>)
    requires Run(b, ss)
    ensures b[0].lost == {} && b[0].bySession == {}
  {
  }

  /** The only ids that a station may hold without a record, apart from the expired ones,
      are those whose own background cancel failed and those that were active and were
      ended by a session. */
  lemma {:induction false} ExcusesAreReal(b: seq<State>, ss: seq<Step>, k: nat, id: int)
    requires Run(b, ss) && k < |b|
    ensures id in b[k].lost ==> LostBy(ss, k, id)
    ensures id in b[k].bySession ==> TakenBy(b, ss, k, id)
  {
    if k == 0 {
      NothingExcusedYet(b, ss);
    } else {
      ExcusesAreReal(b, ss, k - 1, id);
      ExcusedNow(b, ss, k - 1, id);
      if SessionTakes(b[k - 1], ss[k - 1], b[k], id) {
        assert Next(b, k - 1, b[k]);
      }
    }
  }

  // ----- the counter is written first ---------------------------------------------------------

  predicate RecordedAs(s: State, t: nat, id: int) {
    t in s.desk.reserves && s.desk.reserves[t] == Recorded(id)
  }

  /** The step is this call's successful write for this id. */
  predicate WritesFor(s: State, st: Step, t: nat, id: int) {
    st == Write(t, true) && t in s.desk.reserves && s.desk.reserves[t] == Recording(id)
  }

  ghost predicate WroteFor(b: seq<State>, ss: seq<Step>, n: nat, t: nat, id: int) {
    exists j :: 0 <= j < n && j < |ss| && j < |b| && WritesFor(b[j], ss[j], t, id)
  }

  lemma OtherCallRecorded(s: State, st: Step, t: nat, id: int)
    requires Enabled(s, st) && RecordedAs(Apply(s, st), t, id) && ReserveStep(st)
    ensures RecordedAs(s, t, id) || WritesFor(s, st, t, id)
  {
  }

  lemma BecomesRecorded(s: State, st: Step, t: nat, id: int)
    requires Enabled(s, st) && RecordedAs(Apply(s, st), t, id)
    ensures RecordedAs(s, t, id) || WritesFor(s, st, t, id)
  {
    if ReserveStep(st) {
      OtherCallRecorded(s, st, t, id);
    }
  }

  lemma RecordedBack(b: seq<State>, ss: seq<Step>, k: nat, t: nat, id: int)
    requires Run(b, ss) && k < |ss| && RecordedAs(b[k + 1], t, id)
    ensures RecordedAs(b[k], t, id) || WritesFor(b[k], ss[k], t, id)
  {
    BecomesRecorded(b[k], ss[k], t, id);
  }

  lemma NothingRecordedYet(b: seq<State>, ss: seq<Step>, t: nat, id: int)
    requires Run(b, ss)
    ensures !RecordedAs(b[0], t, id)
  {
  }

  lemma {:induction false} RecordedMeansWritten(b: seq<State>, ss: seq<Step>, k: nat, t: nat, id: int)
    requires Run(b, ss) && k < |b| && RecordedAs(b[k], t, id)
    ensures WroteFor(b, ss, k, t, id)
  {
    if k == 0 {
      NothingRecordedYet(b, ss, t, id);
    } else {
      RecordedBack(b, ss, k - 1, t, id);
      if WritesFor(b[k - 1], ss[k - 1], t, id) {
        assert WroteFor(b, ss, k, t, id);
      } else {
        RecordedMeansWritten(b, ss, k - 1, t, id);
      }
    }
  }

  /** A ReserveNow goes out only after its own call has written the counter that makes
      its id unique, and successfully. */
  lemma WrittenBeforeSent(b: seq<State>, ss: seq<Step>, k: nat, t: nat)
    requires Run(b, ss) && k < |ss| && ss[k] == SendReserve(t)
    ensures exists id ::
              && IdOf(b[k], t, id) && WroteFor(b, ss, k, t, id) && id in b[k].requests
              && b[k + 1].line.wire == b[k].line.wire + [ReserveNow(id, b[k].requests[id].connector)]
  {
    assert Enabled(b[k], ss[k]);
    var id := b[k].desk.reserves[t].id;
    assert RecordedAs(b[k], t, id) && IdOf(b[k], t, id);
    RecordedMeansWritten(b, ss, k, t, id);
    WireChangesOnlySo(b, ss, k);
  }
}
