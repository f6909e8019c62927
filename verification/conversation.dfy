/** What core knows and what the station holds, over every run of the machine in
    control.dfy. */
module Conversation {
  import opened Common
  import opened Core
  import opened Control
  import Station

  // ----- one reservation id, as the conversation sees it -----------------------------

  /** How far the Reserve call has got with a pending record. */
  datatype Stage = Unsent | Out | Yes | No | Past

  function StageOf(pc: Pc): Stage {
    if pc.Recording? || pc.Unrecorded? || pc.Recorded? then Unsent
    else if pc.Awaiting? || pc.Failed? then Out
    else if pc.Accepted? then Yes
    else if pc.Refused? then No
    else Past
  }

  /** excused: the id need not have a record in core for the station to hold it. */
  datatype View = View(known: bool, stage: Stage, status: Option<Status>, lost: bool, excused: bool)

  function StatusOf(c: Core, id: int): Option<Status> {
    if id in c.reservations then Some(c.reservations[id].res.status) else None
  }

  function StageIn(c: Core, d: Desk, rq: Requests, id: int): Stage {
    if HasStatus(c, id, Pending) && Decided(d, rq, id) then StageOf(d.reserves[rq[id].call.value]) else Past
  }

  predicate Excused(s: State, id: int) {
    id in s.lost || id in s.bySession || (id in s.requests && s.requests[id].expiresAt <= s.now)
  }

  function ViewOf(s: State, id: int): View {
    View(id in s.requests, StageIn(s.core, s.desk, s.requests, id), StatusOf(s.core, id), id in s.lost, Excused(s, id))
  }

  predicate Coherent(v: View) {
    && (v.stage != Past ==> v.status == Some(Pending))
    && (v.lost ==> v.excused)
    && (v.status.Some? ==> v.known)
  }

  predicate Mentions(wire: seq<Msg>, id: int) {
    exists m :: m in wire && m.id == id
  }

  /** A ReserveNow for the id has been sent and not been handled. */
  predicate Flying(wire: seq<Msg>, id: int) {
    exists m :: m in wire && m.ReserveNow? && m.id == id
  }

  ghost predicate Quiet(l: Line, id: int) {
    !Mentions(l.wire, id) && !Station.Holds(l.plugs, id) && id !in l.reserveAns && id !in l.orphanAns
  }

  /** The line and the view of one id fit together. */
  ghost predicate Tracks(l: Line, id: int, v: View) {
    && Coherent(v)
    && (!v.known || v.stage == Unsent ==> Quiet(l, id))
    && (Flying(l.wire, id) ==>
          id !in l.reserveAns && id !in l.orphanAns && !Station.Holds(l.plugs, id)
          && (v.lost || v.stage == Out || v.status == Some(Cancelling)))
    && (Station.Holds(l.plugs, id) ==>
          (v.status.Some? || v.excused) && v.stage != No && id !in l.orphanAns
          && (id in l.reserveAns ==> l.reserveAns[id]))
    && (v.stage == Yes ==> id in l.reserveAns && l.reserveAns[id])
    && (v.stage == No ==> id in l.reserveAns && !l.reserveAns[id])
    && (v.status == Some(Active) ==> !Flying(l.wire, id))
  }

  /** Nothing about an id is sent before its ReserveNow, and that is sent once. */
  ghost predicate Ordered(wire: seq<Msg>) {
    forall i, j :: 0 <= i < j < |wire| && wire[j].ReserveNow? ==> wire[i].id != wire[j].id
  }

  /** Connectors are held and asked for only as the requests say. */
  ghost predicate Addressed(l: Line, rq: Requests) {
    && (forall m :: m in l.wire ==> m.id in rq)
    && (forall m :: m in l.wire && m.ReserveNow? ==> m.connector == rq[m.id].connector)
    && (forall c :: c in l.plugs && l.plugs[c].reservationId != 0 ==>
          l.plugs[c].reservationId in rq && rq[l.plugs[c].reservationId].connector == c)
  }

  ghost predicate UserTracks(l: Line, u: nat, user: User) {
    && !Flying(l.wire, user.id)
    && (u in l.userAns ==> !Station.Holds(l.plugs, user.id))
    && (user.Released? ==> u in l.userAns)
    && (user.Picked? ==> u !in l.userAns)
    && (forall m :: m in l.wire && m.UserCancel? && m.user == u ==> !user.Picked? && m.id == user.id)
  }

  ghost predicate UsersTrack(l: Line, users: map<nat, User>, next: nat) {
    && (forall u :: u in users ==> u < next && UserTracks(l, u, users[u]))
    && (forall u :: u in l.userAns ==> u < next)
    && (forall m :: m in l.wire && m.UserCancel? ==> m.user < next)
  }

  /** A background cancel that is over was heard, or the id counts as lost. */
  ghost predicate CancelsTrack(answers: map<int, bool>, cancels: map<int, Bg>, lost: set<int>) {
    forall id :: id in cancels && cancels[id].Answered? ==> id in lost || id in answers
  }

  ghost predicate LineInv(s: State) {
    && Ordered(s.line.wire)
    && Addressed(s.line, s.requests)
    && UsersTrack(s.line, s.desk.users, s.desk.nextUser)
    && CancelsTrack(s.line.orphanAns, s.desk.cancels, s.lost)
    && forall id :: id >= 1 ==> Tracks(s.line, id, ViewOf(s, id))
  }

  // ----- changes of view, the line standing still ------------------------------------------

  lemma QuietTracks(l: Line, id: int, v: View)
    requires Quiet(l, id) && Coherent(v) && (v.stage == Unsent || v.stage == Out || v.stage == Past)
    ensures Tracks(l, id, v)
  {
    assert Flying(l.wire, id) ==> Mentions(l.wire, id);
  }

  lemma HeardTracks(l: Line, id: int, v: View)
    requires Tracks(l, id, v) && v.stage == Out && id in l.reserveAns
    ensures Tracks(l, id, v.(stage := if l.reserveAns[id] then Yes else No))
  {
  }

  lemma ActivatedTracks(l: Line, id: int, v: View)
    requires Tracks(l, id, v) && v.stage == Yes
    ensures Tracks(l, id, v.(stage := Past, status := Some(Active)))
  {
  }

  lemma RefusedTracks(l: Line, id: int, v: View)
    requires Tracks(l, id, v) && v.stage == No
    ensures Tracks(l, id, v.(stage := Past, status := None))
  {
  }

  lemma OrphanedTracks(l: Line, id: int, v: View)
    requires Tracks(l, id, v) && v.stage == Out
    ensures Tracks(l, id, v.(stage := Past, status := Some(Cancelling)))
  {
  }

  lemma OrphanEndedTracks(l: Line, id: int, v: View)
    requires Tracks(l, id, v) && v.status == Some(Cancelling) && (v.lost || id in l.orphanAns)
    ensures Tracks(l, id, v.(stage := Past, status := None))
  {
  }

  lemma ActiveEndedTracks(l: Line, id: int, v: View, excused: bool)
    requires Tracks(l, id, v) && v.status == Some(Active)
    requires (v.excused ==> excused) && (Station.Holds(l.plugs, id) ==> excused)
    ensures Tracks(l, id, v.(stage := Past, status := None, excused := excused))
  {
  }

  lemma ExcusedTracks(l: Line, id: int, v: View, lost: bool, excused: bool)
    requires Tracks(l, id, v) && (v.lost ==> lost) && (v.excused ==> excused) && (lost ==> excused)
    ensures Tracks(l, id, v.(lost := lost, excused := excused))
  {
  }

  // ----- changes of the line, the view standing still -----------------------------------------

  lemma AppendOther(wire: seq<Msg>, m: Msg, id: int)
    requires m.id != id || !m.ReserveNow?
    ensures Flying(wire + [m], id) <==> Flying(wire, id)
    ensures m.id != id ==> (Mentions(wire + [m], id) <==> Mentions(wire, id))
  {
    forall x
      ensures x in wire + [m] <==> x in wire || x == m
    {
    }
  }

  lemma SentTracks(l: Line, m: Msg, id: int, v: View)
    requires Tracks(l, id, v)
    requires m.id == id ==> !m.ReserveNow? && v.known && v.stage != Unsent
    ensures Tracks(l.(wire := l.wire + [m]), id, v)
  {
    AppendOther(l.wire, m, id);
  }

  lemma ReserveSentTracks(l: Line, id: int, connector: int, v: View)
    requires Tracks(l, id, v) && v.stage == Unsent
    ensures Tracks(l.(wire := l.wire + [ReserveNow(id, connector)]), id, v.(stage := Out))
  {
  }

  lemma AppendOrdered(wire: seq<Msg>, m: Msg)
    requires Ordered(wire) && (m.ReserveNow? ==> !Mentions(wire, m.id))
    ensures Ordered(wire + [m])
  {
    forall i | 0 <= i < |wire| && m.ReserveNow?
      ensures wire[i].id != m.id
    {
      assert wire[i] in wire;
    }
  }

  /** Some messages gone from the wire, some holds gone from the station. */
  ghost predicate Fewer(l: Line, k: Line) {
    && k.reserveAns == l.reserveAns && k.orphanAns == l.orphanAns && k.userAns == l.userAns
    && (forall m :: m in k.wire ==> m in l.wire)
    && (forall id :: id >= 1 && Station.Holds(k.plugs, id) ==> Station.Holds(l.plugs, id))
  }

  lemma FewerTracks(l: Line, k: Line, id: int, v: View)
    requires Fewer(l, k) && id >= 1 && Tracks(l, id, v)
    ensures Tracks(k, id, v)
  {
  }

  lemma FirstGone(wire: seq<Msg>, id: int)
    requires |wire| > 0 && Ordered(wire)
    ensures Ordered(wire[1..])
    ensures forall m :: m in wire[1..] ==> m in wire
    ensures wire[0].id == id ==> !Flying(wire[1..], id)
  {
    forall m | m in wire[1..] && m.ReserveNow?
      ensures m.id != wire[0].id
    {
      var j :| 0 <= j < |wire[1..]| && wire[1..][j] == m;
      assert wire[j + 1] == m;
    }
  }

  lemma ReserveHandledTracks(l: Line, scenario: Station.Scenario, id: int, v: View)
    requires |l.wire| > 0 && l.wire[0].ReserveNow? && l.wire[0].id >= 1 && id >= 1
    requires Ordered(l.wire) && Tracks(l, id, v)
    ensures Tracks(Handled(l, scenario), id, v)
  {
    var ReserveNow(x, connector) := l.wire[0];
    var k := Handled(l, scenario);
    FirstGone(l.wire, id);
    Station.ReserveNowHolds(scenario, l.plugs, connector, x, id);
    if id == x {
      assert l.wire[0] in l.wire;
      assert Flying(l.wire, id) && Mentions(l.wire, id);
    }
  }

  lemma CancelHandledTracks(l: Line, scenario: Station.Scenario, rq: Requests, id: int, v: View)
    requires |l.wire| > 0 && !l.wire[0].ReserveNow? && l.wire[0].id >= 1 && id >= 1
    requires Ordered(l.wire) && Addressed(l, rq) && Tracks(l, id, v)
    requires forall i :: i in rq ==> rq[i].connector != 0
    ensures Tracks(Handled(l, scenario), id, v)
    ensures l.wire[0].id == id ==>
              !Flying(Handled(l, scenario).wire, id) && !Station.Holds(Handled(l, scenario).plugs, id)
  {
    var x := l.wire[0].id;
    FirstGone(l.wire, id);
    FirstGone(l.wire, x);
    Station.CancelReservationReleases(l.plugs, x, id);
    if id == x {
      assert l.wire[0] in l.wire;
      assert Mentions(l.wire, id);
    }
  }

  lemma HandledAddressed(l: Line, scenario: Station.Scenario, rq: Requests)
    requires |l.wire| > 0 && Addressed(l, rq) && Ordered(l.wire)
    requires forall i :: i in rq ==> i >= 1 && rq[i].connector != 0
    ensures Addressed(Handled(l, scenario), rq)
  {
    var m := l.wire[0];
    var k := Handled(l, scenario);
    assert m in l.wire;
    FirstGone(l.wire, m.id);
    forall c | c in k.plugs && k.plugs[c].reservationId != 0
      ensures k.plugs[c].reservationId in rq && rq[k.plugs[c].reservationId].connector == c
    {
      if m.ReserveNow? {
      } else {
        assert c in l.plugs && l.plugs[c].reservationId == k.plugs[c].reservationId;
      }
    }
  }

  // ----- every step keeps the conversation in order ---------------------------------------------

  /** Call t neither was nor is deciding about the id, and nothing else about the id
      changed. */
  lemma UntouchedView(s: State, u: State, t: nat, id: int)
    requires forall k :: k != t ==> (k in u.desk.reserves <==> k in s.desk.reserves)
    requires forall k :: k != t && k in u.desk.reserves && k in s.desk.reserves ==>
               u.desk.reserves[k] == s.desk.reserves[k]
    requires !(t in s.desk.reserves && Deciding(s.desk.reserves[t]) && s.desk.reserves[t].id == id)
    requires !(t in u.desk.reserves && Deciding(u.desk.reserves[t]) && u.desk.reserves[t].id == id)
    requires StatusOf(u.core, id) == StatusOf(s.core, id)
    requires id in u.requests <==> id in s.requests
    requires id in s.requests ==> u.requests[id] == s.requests[id]
    requires (id in u.lost <==> id in s.lost) && (id in u.bySession <==> id in s.bySession) && u.now == s.now
    ensures ViewOf(u, id) == ViewOf(s, id)
  {
    assert HasStatus(u.core, id, Pending) <==> HasStatus(s.core, id, Pending);
  }

  /** The record a deciding call works on, as a view. */
  lemma DecidingView(s: State, t: nat)
    requires OwnInv(s) && t in s.desk.reserves && Deciding(s.desk.reserves[t])
    ensures var id := s.desk.reserves[t].id;
            id >= 1 && HasStatus(s.core, id, Pending) && OwnedBy(s.requests, id, t)
            && ViewOf(s, id) == View(true, StageOf(s.desk.reserves[t]), Some(Pending), id in s.lost, Excused(s, id))
  {
    var id := s.desk.reserves[t].id;
    assert HasStatus(s.core, id, Pending);
    assert Decided(s.desk, s.requests, id);
  }

  lemma IdleTracks(s: State, st: Step, id: int)
    requires OwnInv(s) && LineInv(s) && Enabled(s, st) && id >= 1
    requires st.Enter? || st.RefuseLocally? || st.Saved? || st.Return? || st.Spawn?
    ensures var u := Apply(s, st); Tracks(u.line, id, ViewOf(u, id))
  {
    UntouchedView(s, Apply(s, st), st.t, id);
  }

  lemma WriteTracks(s: State, t: nat, ok: bool, id: int)
    requires OwnInv(s) && LineInv(s) && Enabled(s, Write(t, ok)) && id >= 1
    ensures var u := Apply(s, Write(t, ok)); Tracks(u.line, id, ViewOf(u, id))
  {
    var u := Apply(s, Write(t, ok));
    DecidingView(s, t);
    if id != s.desk.reserves[t].id {
      UntouchedView(s, u, t, id);
    }
  }

  lemma ForgetTracks(s: State, t: nat, id: int)
    requires OwnInv(s) && LineInv(s) && Enabled(s, Forget(t)) && id >= 1
    ensures var u := Apply(s, Forget(t)); Tracks(u.line, id, ViewOf(u, id))
  {
    var u := Apply(s, Forget(t));
    DecidingView(s, t);
    if id == s.desk.reserves[t].id {
      QuietTracks(s.line, id, ViewOf(u, id));
    } else {
      UntouchedView(s, u, t, id);
    }
  }

  lemma SendReserveTracks(s: State, t: nat, id: int)
    requires OwnInv(s) && LineInv(s) && Enabled(s, SendReserve(t)) && id >= 1
    ensures var u := Apply(s, SendReserve(t)); Tracks(u.line, id, ViewOf(u, id))
  {
    var u := Apply(s, SendReserve(t));
    var x := s.desk.reserves[t].id;
    DecidingView(s, t);
    if id == x {
      ReserveSentTracks(s.line, id, s.requests[id].connector, ViewOf(s, id));
    } else {
      UntouchedView(s, u, t, id);
      SentTracks(s.line, ReserveNow(x, s.requests[x].connector), id, ViewOf(s, id));
    }
  }

  lemma HearReserveTracks(s: State, t: nat, id: int)
    requires OwnInv(s) && LineInv(s) && Enabled(s, HearReserve(t)) && id >= 1
    ensures var u := Apply(s, HearReserve(t)); Tracks(u.line, id, ViewOf(u, id))
  {
    var u := Apply(s, HearReserve(t));
    DecidingView(s, t);
    if id == s.desk.reserves[t].id {
      HeardTracks(s.line, id, ViewOf(s, id));
    } else {
      UntouchedView(s, u, t, id);
    }
  }

  lemma FailReserveTracks(s: State, t: nat, id: int)
    requires OwnInv(s) && LineInv(s) && Enabled(s, FailReserve(t)) && id >= 1
    ensures var u := Apply(s, FailReserve(t)); Tracks(u.line, id, ViewOf(u, id))
  {
    var u := Apply(s, FailReserve(t));
    DecidingView(s, t);
    if id != s.desk.reserves[t].id {
      UntouchedView(s, u, t, id);
    } else if s.desk.reserves[t].Recorded? {
      QuietTracks(s.line, id, ViewOf(u, id));
    }
  }

  lemma ActivateTracks(s: State, t: nat, id: int)
    requires OwnInv(s) && LineInv(s) && Enabled(s, ActivateIt(t)) && id >= 1
    ensures var u := Apply(s, ActivateIt(t)); Tracks(u.line, id, ViewOf(u, id))
  {
    var u := Apply(s, ActivateIt(t));
    DecidingView(s, t);
    if id == s.desk.reserves[t].id {
      ActivatedTracks(s.line, id, ViewOf(s, id));
    } else {
      UntouchedView(s, u, t, id);
    }
  }

  lemma EndRefusedTracks(s: State, t: nat, id: int)
    requires OwnInv(s) && LineInv(s) && Enabled(s, EndRefused(t)) && id >= 1
    ensures var u := Apply(s, EndRefused(t)); Tracks(u.line, id, ViewOf(u, id))
  {
    var u := Apply(s, EndRefused(t));
    DecidingView(s, t);
    if id == s.desk.reserves[t].id {
      RefusedTracks(s.line, id, ViewOf(s, id));
    } else {
      UntouchedView(s, u, t, id);
    }
  }

  lemma OrphanTracks(s: State, t: nat, id: int)
    requires OwnInv(s) && LineInv(s) && Enabled(s, OrphanIt(t)) && id >= 1
    ensures var u := Apply(s, OrphanIt(t)); Tracks(u.line, id, ViewOf(u, id))
  {
    var u := Apply(s, OrphanIt(t));
    DecidingView(s, t);
    if id == s.desk.reserves[t].id {
      OrphanedTracks(s.line, id, ViewOf(s, id));
    } else {
      UntouchedView(s, u, t, id);
    }
  }

  lemma ReserveStepTracks(s: State, st: Step, id: int)
    requires OwnInv(s) && LineInv(s) && Enabled(s, st) && ReserveStep(st) && id >= 1
    ensures var u := Apply(s, st); Tracks(u.line, id, ViewOf(u, id))
  {
    match st
    case Write(t, ok) => WriteTracks(s, t, ok, id);
    case Forget(t) => ForgetTracks(s, t, id);
    case SendReserve(t) => SendReserveTracks(s, t, id);
    case HearReserve(t) => HearReserveTracks(s, t, id);
    case FailReserve(t) => FailReserveTracks(s, t, id);
    case ActivateIt(t) => ActivateTracks(s, t, id);
    case EndRefused(t) => EndRefusedTracks(s, t, id);
    case OrphanIt(t) => OrphanTracks(s, t, id);
    case Enter(_) => IdleTracks(s, st, id);
    case RefuseLocally(_) => IdleTracks(s, st, id);
    case Spawn(_) => IdleTracks(s, st, id);
    case Saved(_) => IdleTracks(s, st, id);
    case Return(_) => IdleTracks(s, st, id);
  }

  lemma BeginTracks(s: State, t: nat, draft: Reservation, at: Stamp, id: int)
    requires OwnInv(s) && LineInv(s) && PcIs(s, t, Entered) && id >= 1
    ensures var u := Began(s, t, draft, at); Tracks(u.line, id, ViewOf(u, id))
  {
    var u := Began(s, t, draft, at);
    var b := BeginReservation(s.core, s.cfg, draft, at);
    if b.res.Ok? && id == b.res.value.id {
      assert id !in s.requests;
      assert !ViewOf(s, id).known;
      QuietTracks(s.line, id, ViewOf(u, id));
    } else {
      UntouchedView(s, u, t, id);
    }
  }

  /** A record that was not pending went, or stays: only its own view changes. */
  lemma RemovedView(s: State, u: State, x: int, id: int)
    requires u.desk.reserves == s.desk.reserves && u.requests == s.requests && u.now == s.now
    requires u.core == Without(s.core, x) && !HasStatus(s.core, x, Pending)
    requires id in u.lost <==> id in s.lost
    requires id != x ==> (id in u.bySession <==> id in s.bySession)
    ensures id != x ==> ViewOf(u, id) == ViewOf(s, id)
    ensures ViewOf(u, x) == ViewOf(s, x).(stage := Past, status := None, lost := x in u.lost, excused := Excused(u, x))
  {
    assert HasStatus(u.core, id, Pending) <==> HasStatus(s.core, id, Pending);
  }

  lemma EndOrphanTracks(s: State, x: int, id: int)
    requires OwnInv(s) && LineInv(s) && Enabled(s, EndOrphan(x)) && id >= 1
    ensures var u := Apply(s, EndOrphan(x)); Tracks(u.line, id, ViewOf(u, id))
  {
    var u := Apply(s, EndOrphan(x));
    assert BgLive(s.desk.cancels, x) && HasStatus(s.core, x, Cancelling);
    RemovedView(s, u, x, id);
    if id == x {
      OrphanEndedTracks(s.line, id, ViewOf(s, id));
    }
  }

  lemma EndReleasedTracks(s: State, k: nat, id: int)
    requires OwnInv(s) && LineInv(s) && Enabled(s, EndReleased(k)) && id >= 1
    ensures var u := Apply(s, EndReleased(k)); Tracks(u.line, id, ViewOf(u, id))
  {
    var u := Apply(s, EndReleased(k));
    var x := s.desk.users[k].id;
    assert Settled(s.core, x) && UserTracks(s.line, k, s.desk.users[k]);
    RemovedView(s, u, x, id);
    if id == x && HasStatus(s.core, x, Active) {
      ActiveEndedTracks(s.line, id, ViewOf(s, id), Excused(u, id));
    }
  }

  lemma FireTracks(s: State, x: int, expiresAt: Stamp, id: int)
    requires OwnInv(s) && LineInv(s) && Enabled(s, Fire(x, expiresAt)) && id >= 1
    ensures var u := Apply(s, Fire(x, expiresAt)); Tracks(u.line, id, ViewOf(u, id))
  {
    var u := Apply(s, Fire(x, expiresAt));
    RemovedView(s, u, x, id);
    if id == x {
      assert s.requests[x].expiresAt == expiresAt.at;
      ActiveEndedTracks(s.line, id, ViewOf(s, id), true);
    }
  }

  lemma SessionTracks(s: State, cp: string, start: Start, at: Stamp, id: int)
    requires OwnInv(s) && LineInv(s) && id >= 1
    ensures var u := SessionStarted(s, cp, start, at); Tracks(u.line, id, ViewOf(u, id))
  {
    var u := SessionStarted(s, cp, start, at);
    var r := StartSession(s.core, s.cfg, cp, start, at);
    SessionEndsOneActive(s.core, s.cfg, cp, start, at);
    assert HasStatus(u.core, id, Pending) <==> HasStatus(s.core, id, Pending);
    if r.ended.Some? && r.ended.value.id == id {
      assert HasStatus(s.core, id, Active);
      ActiveEndedTracks(s.line, id, ViewOf(s, id), true);
    } else {
      assert ViewOf(u, id) == ViewOf(s, id);
    }
  }

  lemma StationTracks(s: State, scenario: Station.Scenario, id: int)
    requires OwnInv(s) && LineInv(s) && Enabled(s, StationHandles(scenario)) && id >= 1
    ensures var u := Apply(s, StationHandles(scenario)); Tracks(u.line, id, ViewOf(u, id))
  {
    var m := s.line.wire[0];
    assert m in s.line.wire;
    ConnectorsPositive(s);
    if m.ReserveNow? {
      ReserveHandledTracks(s.line, scenario, id, ViewOf(s, id));
    } else {
      CancelHandledTracks(s.line, scenario, s.requests, id, ViewOf(s, id));
    }
  }

  lemma ConnectorsPositive(s: State)
    requires OwnInv(s)
    ensures forall id :: id in s.requests ==> id >= 1 && s.requests[id].connector != 0
  {
    forall id | id in s.requests
      ensures s.requests[id].connector != 0
    {
      ConnectorFound(s.cfg.evses, s.requests[id].evse);
    }
  }

  /** The steps that remove a record without being part of Reserve. */
  predicate EndingStep(st: Step) {
    st.EndOrphan? || st.EndReleased? || st.Fire? || st.Session?
  }

  lemma EndingTracks(s: State, st: Step, id: int)
    requires OwnInv(s) && LineInv(s) && Enabled(s, st) && EndingStep(st) && id >= 1
    ensures var u := Apply(s, st); Tracks(u.line, id, ViewOf(u, id))
  {
    match st
    case EndOrphan(x) => EndOrphanTracks(s, x, id);
    case EndReleased(k) => EndReleasedTracks(s, k, id);
    case Fire(x, expiresAt) => FireTracks(s, x, expiresAt, id);
    case Session(cp, start, at) => SessionTracks(s, cp, start, at, id);
  }

  lemma LineStepTracks(s: State, st: Step, id: int)
    requires OwnInv(s) && LineInv(s) && Enabled(s, st) && id >= 1
    requires LineStep(st) && !st.SendReserve?
    ensures var u := Apply(s, st); Tracks(u.line, id, ViewOf(u, id))
  {
    var v := ViewOf(s, id);
    match st
    case SendCancel(x) =>
      assert HasStatus(s.core, x, Cancelling);
      SentTracks(s.line, OrphanCancel(x), id, v);
    case SendRelease(k) =>
      var x := s.desk.users[k].id;
      assert x in s.requests && Settled(s.core, x);
      SentTracks(s.line, UserCancel(k, x), id, v);
    case StationHandles(scenario) => StationTracks(s, scenario, id);
    case StationChanges(plugs) => FewerTracks(s.line, Apply(s, st).line, id, v);
    case DropLine(_) => FewerTracks(s.line, Apply(s, st).line, id, v);
  }

  /** The remaining steps of background cancels and of Cancel, time, and Close. */
  lemma OtherTracks(s: State, st: Step, id: int)
    requires OwnInv(s) && LineInv(s) && Enabled(s, st) && id >= 1
    requires !ReserveStep(st) && !st.Begin? && !EndingStep(st) && !LineStep(st)
    ensures var u := Apply(s, st); Tracks(u.line, id, ViewOf(u, id))
  {
    var v := ViewOf(s, id);
    if st.FailCancel? {
      ExcusedTracks(s.line, id, v, v.lost || id == st.id, v.excused || id == st.id);
    } else if st.Tick? {
      ExcusedTracks(s.line, id, v, v.lost, Excused(Apply(s, st), id));
    }
  }

  /** The only steps that change the line. */
  predicate LineStep(st: Step) {
    st.SendReserve? || st.SendCancel? || st.SendRelease? || st.StationHandles? || st.StationChanges? || st.DropLine?
  }

  lemma TracksPreserved(s: State, st: Step, id: int)
    requires OwnInv(s) && LineInv(s) && Enabled(s, st) && id >= 1
    ensures var u := Apply(s, st); Tracks(u.line, id, ViewOf(u, id))
  {
    if st.Begin? {
      BeginTracks(s, st.t, st.draft, st.at, id);
    } else if ReserveStep(st) {
      ReserveStepTracks(s, st, id);
    } else if EndingStep(st) {
      EndingTracks(s, st, id);
    } else if LineStep(st) {
      LineStepTracks(s, st, id);
    } else {
      OtherTracks(s, st, id);
    }
  }

  lemma LineStands(s: State, st: Step)
    requires Enabled(s, st) && !LineStep(st)
    ensures Apply(s, st).line == s.line
  {
  }

  lemma OrderPreserved(s: State, st: Step)
    requires OwnInv(s) && LineInv(s) && Enabled(s, st) && LineStep(st)
    ensures Ordered(Apply(s, st).line.wire)
  {
    match st
    case SendReserve(t) =>
      var id := s.desk.reserves[t].id;
      DecidingView(s, t);
      assert Quiet(s.line, id);
      AppendOrdered(s.line.wire, ReserveNow(id, s.requests[id].connector));
    case SendCancel(id) => AppendOrdered(s.line.wire, OrphanCancel(id));
    case SendRelease(u) => AppendOrdered(s.line.wire, UserCancel(u, s.desk.users[u].id));
    case StationHandles(_) => FirstGone(s.line.wire, s.line.wire[0].id);
    case StationChanges(_) =>
    case DropLine(_) =>
  }

  lemma AddressedSend(l: Line, rq: Requests, m: Msg)
    requires Addressed(l, rq) && m.id in rq && (m.ReserveNow? ==> m.connector == rq[m.id].connector)
    ensures Addressed(l.(wire := l.wire + [m]), rq)
  {
  }

  lemma AddressedPreserved(s: State, st: Step)
    requires OwnInv(s) && LineInv(s) && Enabled(s, st) && LineStep(st)
    ensures Addressed(Apply(s, st).line, s.requests)
  {
    match st
    case SendReserve(t) =>
      var id := s.desk.reserves[t].id;
      AddressedSend(s.line, s.requests, ReserveNow(id, s.requests[id].connector));
    case SendCancel(id) => AddressedSend(s.line, s.requests, OrphanCancel(id));
    case SendRelease(u) => AddressedSend(s.line, s.requests, UserCancel(u, s.desk.users[u].id));
    case StationHandles(scenario) =>
      ConnectorsPositive(s);
      HandledAddressed(s.line, scenario, s.requests);
    case StationChanges(_) =>
    case DropLine(_) =>
  }

  lemma BeginAddressed(s: State, t: nat, draft: Reservation, at: Stamp)
    requires OwnInv(s) && Addressed(s.line, s.requests)
    ensures Addressed(s.line, Began(s, t, draft, at).requests)
  {
    assert s.core.nextReservation !in s.requests;
  }

  lemma HandledKeepsAnswers(l: Line, scenario: Station.Scenario)
    requires |l.wire| > 0
    ensures l.orphanAns.Keys <= Handled(l, scenario).orphanAns.Keys
  {
  }

  /** What a step of a Reserve call leaves alone. */
  lemma ReserveFrame(s: State, st: Step)
    requires Enabled(s, st) && ReserveStep(st)
    ensures var d, e := s.desk, Apply(s, st).desk;
            e.users == d.users && e.nextUser == d.nextUser
  {
  }

  lemma ReserveCloseFrame(s: State, st: Step)
    requires Enabled(s, st) && ReserveStep(st)
    ensures Apply(s, st).desk.closeReturned == s.desk.closeReturned
  {
  }

  lemma ReserveCountFrame(s: State, st: Step)
    requires Enabled(s, st) && ReserveStep(st)
    ensures Apply(s, st).desk.inflight > s.desk.inflight ==> st.Spawn? || (st.Enter? && !s.desk.closed)
  {
  }

  lemma ReserveLineFrame(s: State, st: Step)
    requires Enabled(s, st) && ReserveStep(st)
    ensures Apply(s, st).line.orphanAns == s.line.orphanAns && Apply(s, st).lost == s.lost
  {
  }

  lemma OtherFrame(s: State, st: Step)
    requires Enabled(s, st) && !ReserveStep(st)
    ensures var d, e := s.desk, Apply(s, st).desk;
            (d.closeReturned ==> e.closeReturned) && e.inflight <= d.inflight
  {
  }

  lemma CancelsPreserved(s: State, st: Step)
    requires OwnInv(s) && LineInv(s) && Enabled(s, st)
    ensures var u := Apply(s, st); CancelsTrack(u.line.orphanAns, u.desk.cancels, u.lost)
  {
    if ReserveStep(st) {
      ReserveLineFrame(s, st);
      SpawnedCancels(s, st);
    } else if st.StationHandles? {
      HandledKeepsAnswers(s.line, st.scenario);
    }
  }

  lemma SpawnedCancels(s: State, st: Step)
    requires Enabled(s, st) && ReserveStep(st)
    ensures var e := Apply(s, st).desk;
            forall id :: id in e.cancels && e.cancels[id].Answered? ==>
              id in s.desk.cancels && s.desk.cancels[id].Answered?
  {
  }

  lemma UsersSend(l: Line, users: map<nat, User>, next: nat, m: Msg)
    requires UsersTrack(l, users, next) && !m.UserCancel?
    requires m.ReserveNow? ==> forall u :: u in users ==> users[u].id != m.id
    ensures UsersTrack(l.(wire := l.wire + [m]), users, next)
  {
    var k := l.(wire := l.wire + [m]);
    forall u | u in users
      ensures UserTracks(k, u, users[u])
    {
      assert UserTracks(l, u, users[u]);
      AppendOther(l.wire, m, users[u].id);
    }
  }

  lemma UsersSendRelease(l: Line, users: map<nat, User>, next: nat, u: nat)
    requires UsersTrack(l, users, next) && u in users && users[u].Picked?
    ensures var id := users[u].id;
            UsersTrack(l.(wire := l.wire + [UserCancel(u, id)]), users[u := AwaitingRelease(id)], next)
  {
    var id := users[u].id;
    var m := UserCancel(u, id);
    var k := l.(wire := l.wire + [m]);
    forall w | w in users
      ensures UserTracks(k, w, users[u := AwaitingRelease(id)][w])
    {
      assert UserTracks(l, w, users[w]);
      AppendOther(l.wire, m, users[w].id);
    }
  }

  lemma UsersHandled(s: State, scenario: Station.Scenario)
    requires OwnInv(s) && LineInv(s) && |s.line.wire| > 0
    ensures UsersTrack(Handled(s.line, scenario), s.desk.users, s.desk.nextUser)
  {
    var l := s.line;
    var m := l.wire[0];
    assert m in l.wire;
    FirstGone(l.wire, m.id);
    forall u | u in s.desk.users
      ensures UserTracks(Handled(l, scenario), u, s.desk.users[u])
    {
      UserHandled(s, scenario, u);
    }
  }

  lemma UserHandled(s: State, scenario: Station.Scenario, u: nat)
    requires OwnInv(s) && LineInv(s) && |s.line.wire| > 0 && u in s.desk.users
    ensures UserTracks(Handled(s.line, scenario), u, s.desk.users[u])
  {
    var m := s.line.wire[0];
    assert m in s.line.wire;
    assert UserTracks(s.line, u, s.desk.users[u]);
    ConnectorsPositive(s);
    assert s.desk.users[u].id in s.requests && m.id in s.requests;
    if m.ReserveNow? {
      UserSeesReserve(s.line, scenario, u, s.desk.users[u]);
    } else {
      UserSeesCancel(s.line, scenario, s.requests, u, s.desk.users[u]);
    }
  }

  lemma UserSeesReserve(l: Line, scenario: Station.Scenario, u: nat, user: User)
    requires |l.wire| > 0 && l.wire[0].ReserveNow? && l.wire[0].id >= 1 && user.id >= 1
    requires UserTracks(l, u, user) && Ordered(l.wire)
    ensures UserTracks(Handled(l, scenario), u, user)
  {
    var m := l.wire[0];
    assert m in l.wire && m.id != user.id;
    FirstGone(l.wire, m.id);
    Station.ReserveNowHolds(scenario, l.plugs, m.connector, m.id, user.id);
  }

  lemma UserSeesCancel(l: Line, scenario: Station.Scenario, rq: Requests, u: nat, user: User)
    requires |l.wire| > 0 && !l.wire[0].ReserveNow? && l.wire[0].id >= 1 && user.id >= 1
    requires UserTracks(l, u, user) && Ordered(l.wire) && Addressed(l, rq)
    requires forall i :: i in rq ==> rq[i].connector != 0
    ensures UserTracks(Handled(l, scenario), u, user)
  {
    var m := l.wire[0];
    assert m in l.wire;
    FirstGone(l.wire, m.id);
    Station.CancelReservationReleases(l.plugs, m.id, user.id);
  }

  lemma UsersFewer(l: Line, k: Line, users: map<nat, User>, next: nat)
    requires UsersTrack(l, users, next) && Fewer(l, k)
    requires forall u :: u in users ==> users[u].id >= 1
    ensures UsersTrack(k, users, next)
  {
    forall u | u in users
      ensures UserTracks(k, u, users[u])
    {
      assert UserTracks(l, u, users[u]);
    }
  }

  lemma UsersOnSend(s: State, st: Step)
    requires OwnInv(s) && LineInv(s) && Enabled(s, st)
    requires st.SendReserve? || st.SendCancel? || st.SendRelease?
    ensures var u := Apply(s, st); UsersTrack(u.line, u.desk.users, u.desk.nextUser)
  {
    var users, next := s.desk.users, s.desk.nextUser;
    match st
    case SendReserve(t) =>
      var id := s.desk.reserves[t].id;
      DecidingView(s, t);
      UsersSend(s.line, users, next, ReserveNow(id, s.requests[id].connector));
    case SendCancel(id) => UsersSend(s.line, users, next, OrphanCancel(id));
    case SendRelease(u) => UsersSendRelease(s.line, users, next, u);
  }

  lemma UsersOnLine(s: State, st: Step)
    requires OwnInv(s) && LineInv(s) && Enabled(s, st) && LineStep(st)
    ensures var u := Apply(s, st); UsersTrack(u.line, u.desk.users, u.desk.nextUser)
  {
    var users, next := s.desk.users, s.desk.nextUser;
    if st.StationHandles? {
      UsersHandled(s, st.scenario);
    } else if st.StationChanges? || st.DropLine? {
      UsersFewer(s.line, Apply(s, st).line, users, next);
    } else {
      UsersOnSend(s, st);
    }
  }

  predicate UserMoves(st: Step) {
    st.Pick? || st.HearRelease? || st.FailRelease? || st.EndReleased?
  }

  lemma UsersMove(s: State, st: Step)
    requires OwnInv(s) && LineInv(s) && Enabled(s, st) && UserMoves(st)
    ensures var u := Apply(s, st); UsersTrack(s.line, u.desk.users, u.desk.nextUser)
  {
    if st.Pick? {
      assert ViewOf(s, st.id).status == Some(Active);
      assert Tracks(s.line, st.id, ViewOf(s, st.id));
    }
  }

  lemma UsersStand(s: State, st: Step)
    requires Enabled(s, st) && !UserMoves(st) && !LineStep(st)
    ensures Apply(s, st).desk.users == s.desk.users && Apply(s, st).desk.nextUser == s.desk.nextUser
  {
    if ReserveStep(st) {
      ReserveFrame(s, st);
    }
  }

  /** Everything LineInv says besides Tracks. */
  lemma LinePreserved(s: State, st: Step)
    requires OwnInv(s) && LineInv(s) && Enabled(s, st)
    ensures var u := Apply(s, st);
            Ordered(u.line.wire) && Addressed(u.line, u.requests) && UsersTrack(u.line, u.desk.users, u.desk.nextUser)
  {
    if LineStep(st) {
      OrderPreserved(s, st);
      AddressedPreserved(s, st);
      UsersOnLine(s, st);
    } else {
      LineStands(s, st);
      if st.Begin? {
        BeginAddressed(s, st.t, st.draft, st.at);
      }
      if UserMoves(st) {
        UsersMove(s, st);
      } else {
        UsersStand(s, st);
      }
    }
  }

  ghost predicate Inv(s: State) {
    OwnInv(s) && CounterInv(s.desk) && LineInv(s)
  }

  lemma InvPreserved(s: State, st: Step)
    requires Inv(s) && Enabled(s, st)
    ensures Inv(Apply(s, st))
  {
    OwnPreserved(s, st);
    CounterPreserved(s, st);
    LinePreserved(s, st);
    CancelsPreserved(s, st);
    var u := Apply(s, st);
    forall id | id >= 1
      ensures Tracks(u.line, id, ViewOf(u, id))
    {
      TracksPreserved(s, st, id);
    }
  }

  lemma InitialTracks(s: State, id: int)
    requires Init(s) && id >= 1
    ensures Tracks(s.line, id, ViewOf(s, id))
  {
    assert id in s.core.reservations ==> HasStatus(s.core, id, Active);
    assert HasStatus(s.core, id, Pending) ==> HasStatus(s.core, id, Active);
  }

  lemma InitialOwn(s: State)
    requires Init(s)
    ensures OwnInv(s) && CounterInv(s.desk)
  {
    assert forall id :: id in s.requests ==> id in s.core.reservations;
    assert forall id, st :: HasStatus(s.core, id, st) ==> HasStatus(s.core, id, Active);
  }

  lemma InvInitial(s: State)
    requires Init(s)
    ensures Inv(s)
  {
    InitialOwn(s);
    forall id | id >= 1
      ensures Tracks(s.line, id, ViewOf(s, id))
    {
      InitialTracks(s, id);
    }
  }

  lemma {:induction false} RunInv(b: seq<State>, ss: seq<Step>, k: nat)
    requires Run(b, ss) && k < |b|
    ensures Inv(b[k])
  {
    if k == 0 {
      InvInitial(b[0]);
    } else {
      RunInv(b, ss, k - 1);
      InvPreserved(b[k - 1], ss[k - 1]);
    }
  }

  // ----- what control promises --------------------------------------------------------------------

  /** Nothing the station holds is forgotten: a reservation it holds that has not
      expired has a record in core, unless the background cancel for that very id
      failed or timed out, or core ended it because a session started. */
  lemma HeldIsRecorded(b: seq<State>, ss: seq<Step>, k: nat, id: int)
    requires Run(b, ss) && k < |b|
    requires id >= 1 && Station.Holds(b[k].line.plugs, id)
    ensures id in b[k].requests
    ensures b[k].requests[id].expiresAt > b[k].now && id !in b[k].lost && id !in b[k].bySession ==>
              id in b[k].core.reservations
  {
    RunInv(b, ss, k);
    assert Tracks(b[k].line, id, ViewOf(b[k], id));
  }

  /** A ReserveNow goes out only while no other reservation on that EVSE is pending,
      active or cancelling. */
  lemma NoSecondReserveNow(b: seq<State>, ss: seq<Step>, k: nat, other: int)
    requires Run(b, ss) && k < |ss| && ss[k].SendReserve?
    requires other in b[k].core.reservations
    ensures var id := b[k].desk.reserves[ss[k].t].id;
            id in b[k].requests
            && (b[k].core.reservations[other].res.evse == b[k].requests[id].evse ==> other == id)
  {
    RunInv(b, ss, k);
    DecidingView(b[k], ss[k].t);
  }

  lemma ConnectorTellsRecords(s: State, a: int, b: int)
    requires OwnInv(s) && a in s.core.reservations && b in s.core.reservations
    requires s.requests[a].connector == s.requests[b].connector
    ensures a == b
  {
    ConnectorsTellEvsesApart(s.cfg, s.requests[a].evse, s.requests[b].evse);
  }

  /** A reservation the station accepted is still pending when Reserve activates it:
      the branch in which it has vanished is never taken. */
  lemma AcceptedIsStillPending(b: seq<State>, ss: seq<Step>, k: nat, t: nat)
    requires Run(b, ss) && k < |b| && t in b[k].desk.reserves
    ensures b[k].desk.reserves[t] != Vanished
    ensures b[k].desk.reserves[t].Accepted? ==> HasStatus(b[k].core, b[k].desk.reserves[t].id, Pending)
  {
    RunInv(b, ss, k);
  }

  /** Every pending or cancelling record is covered by a unit of the in-flight
      counter that is its own: the Reserve call that made it, or its background
      cancel. */
  lemma EveryOpenRecordIsCovered(b: seq<State>, ss: seq<Step>, k: nat, id: int)
    requires Run(b, ss) && k < |b|
    ensures var s := b[k];
            s.desk.inflight == |s.desk.reserves| + |s.desk.cancels|
    ensures var s := b[k];
            HasStatus(s.core, id, Pending) ==> Decided(s.desk, s.requests, id)
    ensures var s := b[k];
            HasStatus(s.core, id, Cancelling) ==>
              (BgLive(s.desk.cancels, id) && !AboutToCancel(s.desk, s.requests, id))
              || (AboutToCancel(s.desk, s.requests, id) && id !in s.desk.cancels)
  {
    RunInv(b, ss, k);
  }

  /** The counter is raised from zero only before Close: a background cancel starts
      while its Reserve call is still counted. */
  lemma SpawnNeverRacesClose(b: seq<State>, ss: seq<Step>, k: nat)
    requires Run(b, ss) && k < |ss|
    requires b[k + 1].desk.inflight > b[k].desk.inflight
    ensures b[k].desk.inflight > 0 || !b[k].desk.closed
  {
    RunInv(b, ss, k);
    OnlyTheseCount(b[k], ss[k]);
    if ss[k].Spawn? {
      NotEmpty(b[k].desk.reserves, ss[k].t);
    }
  }

  lemma OnlyTheseCount(s: State, st: Step)
    requires Enabled(s, st) && Apply(s, st).desk.inflight > s.desk.inflight
    ensures st.Spawn? || (st.Enter? && !s.desk.closed)
  {
    if ReserveStep(st) {
      ReserveCountFrame(s, st);
    } else {
      OtherFrame(s, st);
    }
  }

  /** Once Close has returned, no Reserve call and no background cancel is running,
      every reservation left is active, and it stays that way. */
  lemma CloseIsFinal(b: seq<State>, ss: seq<Step>, j: nat, k: nat)
    requires Run(b, ss) && j <= k < |b| && b[j].desk.closeReturned
    ensures b[k].desk.reserves == map[] && b[k].desk.cancels == map[]
    ensures forall id :: id in b[k].core.reservations ==> HasStatus(b[k].core, id, Active)
  {
    StaysClosed(b, ss, j, k);
    RunInv(b, ss, k);
    var s := b[k];
    forall id | id in s.core.reservations
      ensures HasStatus(s.core, id, Active)
    {
      assert !HasStatus(s.core, id, Pending) && !HasStatus(s.core, id, Cancelling);
    }
  }

  lemma {:induction false} StaysClosed(b: seq<State>, ss: seq<Step>, j: nat, k: nat)
    requires Run(b, ss) && j <= k < |b| && b[j].desk.closeReturned
    ensures b[k].desk.closeReturned
    decreases k
  {
    if j < k {
      StaysClosed(b, ss, j, k - 1);
      NothingReopens(b[k - 1], ss[k - 1]);
    }
  }

  lemma NothingReopens(s: State, st: Step)
    requires Enabled(s, st) && s.desk.closeReturned
    ensures Apply(s, st).desk.closeReturned
  {
    if ReserveStep(st) {
      ReserveCloseFrame(s, st);
    } else {
      OtherFrame(s, st);
    }
  }
}
