/** What a ReserveNow may displace at the station. The simulator's reserveNow does
    not look at an existing hold (internal/simulator/handlers.go:99-113), so that no
    live one is lost is core's doing, and control's. */
module Displacement {
  import opened Common
  import opened Core
  import opened Control
  import opened Conversation
  import Station

  /** live: the ids with a record in core. Of two requests under way for a connector
      the first has none any more. */
  ghost predicate Queued(wire: seq<Msg>, live: set<int>) {
    forall i, j :: 0 <= i < j < |wire| && wire[i].ReserveNow? && wire[j].ReserveNow? ==>
      wire[i].connector == wire[j].connector ==> wire[i].id !in live
  }

  /** And neither has what the station holds a requested connector for, unless it is
      the request's own id. */
  ghost predicate Unheld(wire: seq<Msg>, plugs: Station.Plugs, live: set<int>) {
    forall m :: m in wire && m.ReserveNow? && m.connector in plugs && plugs[m.connector].reservationId in live ==>
      plugs[m.connector].reservationId == m.id
  }

  ghost predicate Cleared(l: Line, live: set<int>) {
    Queued(l.wire, live) && Unheld(l.wire, l.plugs, live)
  }

  lemma FewerLive(l: Line, live: set<int>, live': set<int>)
    requires Cleared(l, live) && live' <= live
    ensures Cleared(l, live')
  {
  }

  /** No step but Begin brings a record in. */
  lemma TableShrinks(s: State, st: Step)
    requires Enabled(s, st) && !st.Begin? && OnePerEvse(s.core) && Valid(s.core, s.cfg)
    ensures Apply(s, st).core.reservations.Keys <= s.core.reservations.Keys
  {
    if st.Session? {
      SessionEndsOneActive(s.core, s.cfg, st.cp, st.start, st.at);
    }
  }

  /** An id nobody has heard of may get a record. */
  lemma BeginClears(s: State, t: nat, draft: Reservation, at: Stamp)
    requires OwnInv(s) && LineInv(s) && Cleared(s.line, s.core.reservations.Keys)
    ensures Cleared(s.line, Began(s, t, draft, at).core.reservations.Keys)
  {
    var id := s.core.nextReservation;
    assert id !in s.requests && id >= 1;
    assert forall m :: m in s.line.wire ==> m.id != id;
  }

  /** The id of a record about to be asked for has not been heard of at the station,
      and no other record is on its connector. */
  lemma OwnConnector(s: State, t: nat)
    requires OwnInv(s) && LineInv(s) && Enabled(s, SendReserve(t))
    ensures var id := s.desk.reserves[t].id;
            && id in s.core.reservations && id in s.requests && id >= 1
            && (forall m :: m in s.line.wire ==> m.id != id)
            && forall other :: other in s.core.reservations && other in s.requests ==>
                 s.requests[other].connector == s.requests[id].connector ==> other == id
  {
    var id := s.desk.reserves[t].id;
    DecidingView(s, t);
    assert Tracks(s.line, id, ViewOf(s, id)) && Quiet(s.line, id);
    forall other | other in s.core.reservations && other in s.requests
                   && s.requests[other].connector == s.requests[id].connector
      ensures other == id
    {
      ConnectorTellsRecords(s, other, id);
    }
  }

  lemma AppendClears(l: Line, live: set<int>, rq: Requests, m: Msg)
    requires Cleared(l, live) && Addressed(l, rq) && 0 !in live
    requires m.ReserveNow? && m.id in rq && m.connector == rq[m.id].connector
    requires forall x :: x in l.wire ==> x.id != m.id
    requires forall other :: other in live && other in rq && rq[other].connector == m.connector ==> other == m.id
    ensures Cleared(l.(wire := l.wire + [m]), live)
  {
    forall i | 0 <= i < |l.wire| && l.wire[i].ReserveNow? && l.wire[i].connector == m.connector
      ensures l.wire[i].id !in live
    {
      assert l.wire[i] in l.wire;
    }
  }

  lemma SendClears(s: State, t: nat)
    requires OwnInv(s) && LineInv(s) && Cleared(s.line, s.core.reservations.Keys) && Enabled(s, SendReserve(t))
    ensures Cleared(Apply(s, SendReserve(t)).line, s.core.reservations.Keys)
  {
    var id := s.desk.reserves[t].id;
    OwnConnector(s, t);
    AppendClears(s.line, s.core.reservations.Keys, s.requests, ReserveNow(id, s.requests[id].connector));
  }

  /** Releasing connectors and taking requests off the wire clears nothing up. */
  lemma FewerClears(l: Line, k: Line, live: set<int>)
    requires Cleared(l, live) && 0 !in live && Station.OnlyReleases(l.plugs, k.plugs)
    requires exists lo, hi :: 0 <= lo <= hi <= |l.wire| && k.wire == l.wire[lo..hi]
    ensures Cleared(k, live)
  {
  }

  lemma ReserveHandledClears(l: Line, scenario: Station.Scenario, live: set<int>)
    requires Cleared(l, live) && |l.wire| > 0 && l.wire[0].ReserveNow?
    ensures Cleared(Handled(l, scenario), live)
  {
    var k, first := Handled(l, scenario), l.wire[0];
    assert Queued(k.wire, live);
    forall m | m in k.wire && m.ReserveNow? && m.connector in k.plugs && k.plugs[m.connector].reservationId in live
      ensures k.plugs[m.connector].reservationId == m.id
    {
      var j :| 0 <= j < |k.wire| && k.wire[j] == m;
      assert l.wire[j + 1] == m && m in l.wire;
    }
  }

  lemma CancelReleases(plugs: Station.Plugs, id: int)
    ensures Station.OnlyReleases(plugs, Station.CancelReservation(plugs, id).plugs)
  {
  }

  lemma HandledClears(l: Line, scenario: Station.Scenario, live: set<int>)
    requires Cleared(l, live) && |l.wire| > 0 && 0 !in live
    ensures Cleared(Handled(l, scenario), live)
  {
    if l.wire[0].ReserveNow? {
      ReserveHandledClears(l, scenario, live);
    } else {
      CancelReleases(l.plugs, l.wire[0].id);
      assert Handled(l, scenario).wire == l.wire[1..|l.wire|];
      FewerClears(l, Handled(l, scenario), live);
    }
  }

  lemma ClearedPreserved(s: State, st: Step)
    requires OwnInv(s) && LineInv(s) && Cleared(s.line, s.core.reservations.Keys) && Enabled(s, st)
    ensures Cleared(Apply(s, st).line, Apply(s, st).core.reservations.Keys)
  {
    if st.Begin? {
      BeginClears(s, st.t, st.draft, st.at);
    } else {
      TableShrinks(s, st);
      LineClears(s, st);
      FewerLive(Apply(s, st).line, s.core.reservations.Keys, Apply(s, st).core.reservations.Keys);
    }
  }

  lemma CancelSent(l: Line, m: Msg, live: set<int>)
    requires Cleared(l, live) && !m.ReserveNow?
    ensures Cleared(l.(wire := l.wire + [m]), live)
  {
  }

  lemma LineClears(s: State, st: Step)
    requires OwnInv(s) && LineInv(s) && Cleared(s.line, s.core.reservations.Keys) && Enabled(s, st) && !st.Begin?
    ensures Cleared(Apply(s, st).line, s.core.reservations.Keys)
  {
    var l, live := s.line, s.core.reservations.Keys;
    if !LineStep(st) {
      LineStands(s, st);
    } else if st.SendReserve? {
      SendClears(s, st.t);
    } else if st.SendCancel? {
      CancelSent(l, OrphanCancel(st.id), live);
    } else if st.SendRelease? {
      CancelSent(l, UserCancel(st.u, s.desk.users[st.u].id), live);
    } else if st.StationHandles? {
      HandledClears(l, st.scenario, live);
    } else {
      var k := Apply(s, st).line;
      assert k.wire == l.wire[0..|k.wire|];
      FewerClears(l, k, live);
    }
  }

  lemma {:induction false} RunCleared(b: seq<State>, ss: seq<Step>, k: nat)
    requires Run(b, ss) && k < |b|
    ensures Cleared(b[k].line, b[k].core.reservations.Keys)
  {
    if k > 0 {
      RunCleared(b, ss, k - 1);
      RunInv(b, ss, k - 1);
      ClearedPreserved(b[k - 1], ss[k - 1]);
    }
  }

  /** When the station comes to a ReserveNow, whatever it still holds the connector for
      has expired, was ended by a session, or is an id whose background cancel failed
      or timed out. */
  lemma ReserveNowMeetsNoLiveHold(b: seq<State>, ss: seq<Step>, k: nat, held: int)
    requires Run(b, ss) && k < |b|
    requires |b[k].line.wire| > 0 && b[k].line.wire[0].ReserveNow?
    requires var m := b[k].line.wire[0];
             held >= 1 && m.connector in b[k].line.plugs && b[k].line.plugs[m.connector].reservationId == held
    ensures held != b[k].line.wire[0].id && Excused(b[k], held)
  {
    RunInv(b, ss, k);
    RunCleared(b, ss, k);
    var s := b[k];
    var m := s.line.wire[0];
    assert m in s.line.wire && Flying(s.line.wire, m.id) && Station.Holds(s.line.plugs, held);
    assert m.id in s.requests;
    assert Tracks(s.line, m.id, ViewOf(s, m.id)) && Tracks(s.line, held, ViewOf(s, held));
  }

  // ----- a hold that is overwritten ---------------------------------------------------

  /** Steps from any state on. */
  ghost predicate Path(b: seq<State>, ss: seq<Step>) {
    |b| == |ss| + 1 &&
    forall k :: 0 <= k < |ss| ==> Enabled(b[k], ss[k]) && b[k + 1] == Apply(b[k], ss[k])
  }

  lemma Join(b: seq<State>, ss: seq<Step>, b': seq<State>, ss': seq<Step>)
    requires Path(b, ss) && Path(b', ss') && b[|ss|] == b'[0]
    ensures Path(b + b'[1..], ss + ss')
    ensures (b + b'[1..])[|ss + ss'|] == b'[|ss'|]
  {
    var c, cs := b + b'[1..], ss + ss';
    forall k | 0 <= k < |cs|
      ensures Enabled(c[k], cs[k]) && c[k + 1] == Apply(c[k], cs[k])
    {
      if k >= |ss| {
        assert c[k] == b'[k - |ss|] && c[k + 1] == b'[k + 1 - |ss|];
      }
    }
  }

  /** A Reserve call up to its record, which takes an EVSE nobody has reserved. */
  lemma Record(s: State, t: nat, draft: Reservation, connector: int) returns (u: State, b: seq<State>, ss: seq<Step>)
    requires !s.desk.closed && t !in s.desk.reserves
    requires ConnectorOf(s.cfg.evses, draft.evse) == Some(connector) && !Occupied(s.core, draft.evse)
    ensures Path(b, ss) && b[0] == s && u == b[|ss|]
    ensures var id := s.core.nextReservation;
            && u.core == BeginReservation(s.core, s.cfg, draft, Utc(draft.createdAt)).core
            && u.desk == s.desk.(inflight := s.desk.inflight + 1, reserves := s.desk.reserves[t := Recording(id)])
            && u.requests == s.requests[id := Request(draft.evse, connector, draft.expiresAt.at, Some(t))]
            && u.cfg == s.cfg && u.now == s.now && u.line == s.line
  {
    var at := Utc(draft.createdAt);
    var s1 := Apply(s, Enter(t));
    u := Apply(s1, Begin(t, draft, at));
    b, ss := [s, s1, u], [Enter(t), Begin(t, draft, at)];
    assert u.desk.reserves == s.desk.reserves[t := Recording(s.core.nextReservation)];
  }

  lemma Send(s: State, t: nat, id: int) returns (u: State, b: seq<State>, ss: seq<Step>)
    requires PcIs(s, t, Recording(id)) && id in s.requests && s.line.open
    ensures Path(b, ss) && b[0] == s && u == b[|ss|]
    ensures u == s.(line := s.line.(wire := s.line.wire + [ReserveNow(id, s.requests[id].connector)]),
                    desk := s.desk.(reserves := s.desk.reserves[t := Awaiting(id)]))
  {
    var s1 := Apply(s, Write(t, true));
    u := Apply(s1, SendReserve(t));
    b, ss := [s, s1, u], [Write(t, true), SendReserve(t)];
    assert u.desk.reserves == s.desk.reserves[t := Awaiting(id)];
  }

  lemma Ask(s: State, t: nat, draft: Reservation, connector: int) returns (u: State, b: seq<State>, ss: seq<Step>)
    requires !s.desk.closed && t !in s.desk.reserves && s.line.open
    requires ConnectorOf(s.cfg.evses, draft.evse) == Some(connector) && !Occupied(s.core, draft.evse)
    ensures Path(b, ss) && b[0] == s && u == b[|ss|]
    ensures var id := s.core.nextReservation;
            && u.line == s.line.(wire := s.line.wire + [ReserveNow(id, connector)])
            && u.core == BeginReservation(s.core, s.cfg, draft, Utc(draft.createdAt)).core
            && PcIs(u, t, Awaiting(id)) && u.desk.reserves.Keys == s.desk.reserves.Keys + {t}
            && u.requests == s.requests[id := Request(draft.evse, connector, draft.expiresAt.at, Some(t))]
            && u.cfg == s.cfg && u.now == s.now && u.desk.closed == s.desk.closed
  {
    var s1, b1, ss1 := Record(s, t, draft, connector);
    var s2, b2, ss2 := Send(s1, t, s.core.nextReservation);
    Join(b1, ss1, b2, ss2);
    u, b, ss := s2, b1 + b2[1..], ss1 + ss2;
  }

  /** Its timeout. */
  lemma TimesOut(s: State, t: nat, id: int) returns (u: State, b: seq<State>, ss: seq<Step>)
    requires PcIs(s, t, Awaiting(id)) && HasStatus(s.core, id, Pending)
    ensures Path(b, ss) && b[0] == s && u == b[|ss|]
    ensures u == s.(core := Orphan(s.core, id), desk := s.desk.(reserves := s.desk.reserves[t := Orphaned(id)]))
  {
    var s1 := Apply(s, FailReserve(t));
    u := Apply(s1, OrphanIt(t));
    b, ss := [s, s1, u], [FailReserve(t), OrphanIt(t)];
    assert u.desk.reserves == s.desk.reserves[t := Orphaned(id)];
  }

  /** And the background cancel that fails as well. */
  lemma CancelFails(s: State, t: nat, id: int) returns (u: State, b: seq<State>, ss: seq<Step>)
    requires PcIs(s, t, Orphaned(id))
    ensures Path(b, ss) && b[0] == s && u == b[|ss|]
    ensures u.core == Without(s.core, id) && u.line == s.line && u.requests == s.requests
    ensures u.cfg == s.cfg && u.now == s.now
    ensures u.desk.closed == s.desk.closed && u.desk.reserves == s.desk.reserves[t := Returning]
  {
    var s1 := Apply(s, Spawn(t));
    var s2 := Apply(s1, FailCancel(id));
    u := Apply(s2, EndOrphan(id));
    b, ss := [s, s1, s2, u], [Spawn(t), FailCancel(id), EndOrphan(id)];
  }

  lemma GiveUp(s: State, t: nat, id: int) returns (u: State, b: seq<State>, ss: seq<Step>)
    requires PcIs(s, t, Awaiting(id)) && HasStatus(s.core, id, Pending)
    ensures Path(b, ss) && b[0] == s && u == b[|ss|]
    ensures u.core == Without(Orphan(s.core, id), id) && u.line == s.line && u.requests == s.requests
    ensures u.cfg == s.cfg && u.now == s.now
    ensures u.desk.closed == s.desk.closed && u.desk.reserves.Keys == s.desk.reserves.Keys
  {
    var s1, b1, ss1 := TimesOut(s, t, id);
    var s2, b2, ss2 := CancelFails(s1, t, id);
    Join(b1, ss1, b2, ss2);
    u, b, ss := s2, b1 + b2[1..], ss1 + ss2;
  }

  /** The station accepts the request that is next on the wire. */
  lemma Accepts(s: State) returns (u: State)
    requires |s.line.wire| > 0 && s.line.wire[0].ReserveNow? && s.line.wire[0].connector in s.line.plugs
    requires Station.Reservable(s.line.plugs[s.line.wire[0].connector])
    ensures Path([s, u], [StationHandles(Station.Normal)])
    ensures var m := s.line.wire[0];
            var plug := s.line.plugs[m.connector].(reservationId := m.id, status := Station.Reserved);
            && u == s.(line := u.line)
            && u.line.open == s.line.open && u.line.wire == s.line.wire[1..]
            && u.line.plugs == s.line.plugs[m.connector := plug]
  {
    u := Apply(s, StationHandles(Station.Normal));
  }

  const OneEvse: Config := Config("station", [Evse("evse", 1)])
  const Plug: Station.Plug := Station.Plug(0, 0, Station.Available)

  function AtRest(): State {
    State(OneEvse, 0, Core(map[], map[], 0, 1, 1, 1), Desk(false, false, 0, map[], map[], map[], 0),
          Line(true, [], map[], map[], map[], map[1 := Plug]), map[], {}, {})
  }

  function Draft(): Reservation {
    Reservation(0, "", "station", "evse", 0, "tag", Stamp(100, true), Stamp(0, true), "cli", "", Pending)
  }

  /** It happens: the station accepts reservation 1, the Reserve call times out, its
      background cancel fails, and a second Reserve call gets reservation 2 accepted
      over the first, which has not expired. */
  lemma ALostHoldIsOverwritten() returns (b: seq<State>, ss: seq<Step>)
    ensures Run(b, ss) && |ss| > 0
    ensures var s, u := b[|ss| - 1], b[|ss|];
            && ss[|ss| - 1] == StationHandles(Station.Normal)
            && 1 in s.line.plugs && s.line.plugs[1].reservationId == 1
            && 1 in s.requests && s.requests[1].expiresAt > s.now
            && 1 in u.line.plugs && u.line.plugs[1].reservationId == 2
  {
    var s0, b0, ss0 := FirstHeld();
    var s1, b1, ss1 := Ask(s0, 1, Draft(), 1);
    Join(b0, ss0, b1, ss1);
    var c, cs := b0 + b1[1..], ss0 + ss1;
    var s2 := Accepts(s1);
    Join(c, cs, [s1, s2], [StationHandles(Station.Normal)]);
    b, ss := c + [s1, s2][1..], cs + [StationHandles(Station.Normal)];
    assert b[|ss| - 1] == c[|cs|];
  }

  /** The first half: the station holds an id of which core knows nothing any more. */
  lemma FirstAccepted() returns (s: State, b: seq<State>, ss: seq<Step>)
    ensures Path(b, ss) && Init(b[0]) && s == b[|ss|]
    ensures s.cfg == OneEvse && s.now == 0 && !s.desk.closed && s.desk.reserves.Keys == {0}
    ensures PcIs(s, 0, Awaiting(1)) && HasStatus(s.core, 1, Pending)
    ensures s.core.reservations.Keys == {1} && s.core.nextReservation == 2
    ensures s.line.open && s.line.wire == []
    ensures s.line.plugs == map[1 := Plug.(reservationId := 1, status := Station.Reserved)]
    ensures 1 in s.requests && s.requests[1].expiresAt == 100
  {
    var s0, b0, ss0 := Ask(AtRest(), 0, Draft(), 1);
    s := Accepts(s0);
    Join(b0, ss0, [s0, s], [StationHandles(Station.Normal)]);
    b, ss := b0 + [s0, s][1..], ss0 + [StationHandles(Station.Normal)];
  }

  lemma FirstHeld() returns (s: State, b: seq<State>, ss: seq<Step>)
    ensures Path(b, ss) && Init(b[0]) && s == b[|ss|]
    ensures s.cfg == OneEvse && s.now == 0 && !s.desk.closed && 1 !in s.desk.reserves
    ensures s.core.reservations == map[] && s.core.nextReservation == 2
    ensures s.line.open && s.line.wire == []
    ensures s.line.plugs == map[1 := Plug.(reservationId := 1, status := Station.Reserved)]
    ensures 1 in s.requests && s.requests[1].expiresAt == 100
  {
    var s1, b1, ss1 := FirstAccepted();
    var s2, b2, ss2 := GiveUp(s1, 0, 1);
    Join(b1, ss1, b2, ss2);
    s, b, ss := s2, b1 + b2[1..], ss1 + ss2;
  }
}
