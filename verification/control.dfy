/** Reserve, its background cancel, Cancel and Close (internal/control/control.go),
    together with core's table and the conversation with the station over one FIFO
    connection. Every call is cut at its critical sections and at each message, so
    any number of calls interleave freely, with each other and with timers,
    sessions, timeouts and the loss of the connection. */
module Control {
  import opened Common
  import opened Core
  import Station

  /** Where a Reserve call stands. */
  datatype Pc =
    | Entered                 // counted in the in-flight counter
    | Recording(id: int)      // the record is pending, its counter write under way
    | Unrecorded(id: int)     // that write failed
    | Recorded(id: int)       // ReserveNow is about to be sent
    | Awaiting(id: int)
    | Accepted(id: int)
    | Refused(id: int)
    | Failed(id: int)         // no usable answer
    | Orphaned(id: int)       // marked cancelling; the background cancel comes next
    | Saving                  // writing the table after activating or ending
    | Vanished                // the branch that control.go calls a bug
    | Returning

  /** Where the background cancel of a reservation stands. */
  datatype Bg = Asking | AwaitingCancel | Answered | BgReturning

  /** Where a Cancel call stands, with the id ActiveReservation gave it. */
  datatype User = Picked(id: int) | AwaitingRelease(id: int) | Released(id: int)

  datatype Desk = Desk(
    closed: bool,
    closeReturned: bool,
    inflight: int,
    reserves: map<nat, Pc>,
    cancels: map<int, Bg>,
    users: map<nat, User>,
    nextUser: nat)

  datatype Msg =
    | ReserveNow(id: int, connector: int)
    | OrphanCancel(id: int)
    | UserCancel(user: nat, id: int)

  /** The connection and the station. wire holds requests sent and not yet handled,
      the maps the answers by the call they belong to: true for Accepted. */
  datatype Line = Line(
    open: bool,
    wire: seq<Msg>,
    reserveAns: map<int, bool>,
    orphanAns: map<int, bool>,
    userAns: map<nat, bool>,
    plugs: Station.Plugs)

  /** What was asked for under an id, and by which Reserve call. */
  datatype Request = Request(evse: string, connector: int, expiresAt: int, call: Option<nat>)

  /** lost collects the ids whose background cancel failed or timed out, bySession
      those that core ended because a session started. */
  datatype State = State(
    cfg: Config,
    now: int,
    core: Core,
    desk: Desk,
    line: Line,
    requests: map<int, Request>,
    lost: set<int>,
    bySession: set<int>)

  datatype Step =
    | Enter(t: nat)
    | RefuseLocally(t: nat)
    | Begin(t: nat, draft: Reservation, at: Stamp)
    | Write(t: nat, ok: bool)
    | Forget(t: nat)
    | SendReserve(t: nat)
    | HearReserve(t: nat)
    | FailReserve(t: nat)
    | ActivateIt(t: nat)
    | EndRefused(t: nat)
    | OrphanIt(t: nat)
    | Spawn(t: nat)
    | Saved(t: nat)
    | Return(t: nat)
    | SendCancel(id: int)
    | HearCancel(id: int)
    | FailCancel(id: int)
    | EndOrphan(id: int)
    | BgReturn(id: int)
    | Pick(id: int)
    | SendRelease(u: nat)
    | HearRelease(u: nat)
    | FailRelease(u: nat)
    | EndReleased(u: nat)
    | StationHandles(scenario: Station.Scenario)
    | StationChanges(plugs: Station.Plugs)
    | DropLine(kept: nat)
    | Tick(d: nat)
    | Fire(id: int, expiresAt: Stamp)
    | Session(cp: string, start: Start, at: Stamp)
    | CloseBegins
    | CloseReturns

  predicate PcIs(s: State, t: nat, pc: Pc) {
    t in s.desk.reserves && s.desk.reserves[t] == pc
  }

  predicate BgIs(s: State, id: int, bg: Bg) {
    id in s.desk.cancels && s.desk.cancels[id] == bg
  }

  ghost predicate Enabled(s: State, st: Step) {
    var d := s.desk;
    match st
    case Enter(t) => !d.closed && t !in d.reserves
    case RefuseLocally(t) => PcIs(s, t, Entered)
    case Begin(t, _, _) => PcIs(s, t, Entered)
    case Write(t, _) => t in d.reserves && d.reserves[t].Recording?
    case Forget(t) => t in d.reserves && d.reserves[t].Unrecorded?
    case SendReserve(t) =>
      t in d.reserves && d.reserves[t].Recorded? && s.line.open && d.reserves[t].id in s.requests
    case HearReserve(t) => t in d.reserves && d.reserves[t].Awaiting? && d.reserves[t].id in s.line.reserveAns
    case FailReserve(t) => t in d.reserves && (d.reserves[t].Recorded? || d.reserves[t].Awaiting?)
    case ActivateIt(t) => t in d.reserves && d.reserves[t].Accepted?
    case EndRefused(t) => t in d.reserves && d.reserves[t].Refused?
    case OrphanIt(t) => t in d.reserves && d.reserves[t].Failed?
    case Spawn(t) => t in d.reserves && d.reserves[t].Orphaned?
    case Saved(t) => PcIs(s, t, Saving)
    case Return(t) => PcIs(s, t, Returning) || PcIs(s, t, Vanished)
    case SendCancel(id) => BgIs(s, id, Asking) && s.line.open
    case HearCancel(id) => BgIs(s, id, AwaitingCancel) && id in s.line.orphanAns
    case FailCancel(id) => BgIs(s, id, Asking) || BgIs(s, id, AwaitingCancel)
    case EndOrphan(id) => BgIs(s, id, Answered)
    case BgReturn(id) => BgIs(s, id, BgReturning)
    case Pick(id) => HasStatus(s.core, id, Active)
    case SendRelease(u) => u in d.users && d.users[u].Picked? && s.line.open
    case HearRelease(u) => u in d.users && d.users[u].AwaitingRelease? && u in s.line.userAns
    case FailRelease(u) => u in d.users
    case EndReleased(u) => u in d.users && d.users[u].Released?
    case StationHandles(_) => |s.line.wire| > 0
    case StationChanges(plugs) => Station.OnlyReleases(s.line.plugs, plugs)
    case DropLine(kept) => kept <= |s.line.wire|
    case Tick(_) => true
    case Fire(id, expiresAt) => ExpiryApplies(s.core, id, expiresAt) && expiresAt.at <= s.now
    case Session(_, _, _) => true
    case CloseBegins => true
    case CloseReturns => d.closed && d.inflight == 0
  }

  function SetPc(s: State, t: nat, pc: Pc): State {
    s.(desk := s.desk.(reserves := s.desk.reserves[t := pc]))
  }

  function SetBg(s: State, id: int, bg: Bg): State {
    s.(desk := s.desk.(cancels := s.desk.cancels[id := bg]))
  }

  function SetUser(s: State, u: nat, user: User): State {
    s.(desk := s.desk.(users := s.desk.users[u := user]))
  }

  function Sends(s: State, m: Msg): State {
    s.(line := s.line.(wire := s.line.wire + [m]))
  }

  /** EndReservation and expire: the record goes, if it is still there. */
  function Ends(s: State, id: int): State {
    s.(core := Without(s.core, id))
  }

  function Began(s: State, t: nat, draft: Reservation, at: Stamp): State {
    var b := BeginReservation(s.core, s.cfg, draft, at);
    match b.res
    case Err(_) => SetPc(s, t, Returning)
    case Ok(r) =>
      SetPc(s, t, Recording(r.id)).(core := b.core,
        requests := s.requests[r.id := Request(r.evse, r.connector, r.expiresAt.at, Some(t))])
  }

  /** The station takes the oldest request off the wire and answers it. */
  ghost function Handled(l: Line, scenario: Station.Scenario): Line
    requires |l.wire| > 0
  {
    var rest := l.(wire := l.wire[1..]);
    match l.wire[0]
    case ReserveNow(id, connector) =>
      var r := Station.ReserveNow(scenario, l.plugs, connector, id);
      rest.(plugs := r.plugs, reserveAns := l.reserveAns[id := r.answer == Station.Accepted])
    case OrphanCancel(id) =>
      var r := Station.CancelReservation(l.plugs, id);
      rest.(plugs := r.plugs, orphanAns := l.orphanAns[id := r.accepted])
    case UserCancel(u, id) =>
      var r := Station.CancelReservation(l.plugs, id);
      rest.(plugs := r.plugs, userAns := l.userAns[u := r.accepted])
  }

  ghost function SessionStarted(s: State, cp: string, start: Start, at: Stamp): State {
    var r := StartSession(s.core, s.cfg, cp, start, at);
    s.(core := r.core,
       bySession := if r.ended.Some? then s.bySession + {r.ended.value.id} else s.bySession)
  }

  ghost function Apply(s: State, st: Step): State
    requires Enabled(s, st)
  {
    var d := s.desk;
    match st
    case Enter(t) => s.(desk := d.(inflight := d.inflight + 1, reserves := d.reserves[t := Entered]))
    case RefuseLocally(t) => SetPc(s, t, Returning)
    case Begin(t, draft, at) => Began(s, t, draft, at)
    case Write(t, ok) => SetPc(s, t, if ok then Recorded(d.reserves[t].id) else Unrecorded(d.reserves[t].id))
    case Forget(t) => Ends(SetPc(s, t, Returning), d.reserves[t].id)
    case SendReserve(t) =>
      var id := d.reserves[t].id;
      Sends(SetPc(s, t, Awaiting(id)), ReserveNow(id, s.requests[id].connector))
    case HearReserve(t) =>
      var id := d.reserves[t].id;
      SetPc(s, t, if s.line.reserveAns[id] then Accepted(id) else Refused(id))
    case FailReserve(t) => SetPc(s, t, Pc.Failed(d.reserves[t].id))
    case ActivateIt(t) =>
      var id := d.reserves[t].id;
      if HasStatus(s.core, id, Pending) then SetPc(s, t, Saving).(core := Activate(s.core, id))
      else SetPc(s, t, Vanished)
    case EndRefused(t) => Ends(SetPc(s, t, Saving), d.reserves[t].id)
    case OrphanIt(t) =>
      var id := d.reserves[t].id;
      var u := SetPc(s, t, Orphaned(id));
      if HasStatus(s.core, id, Pending) then u.(core := Orphan(s.core, id)) else u
    case Spawn(t) =>
      var id := d.reserves[t].id;
      s.(desk := d.(inflight := d.inflight + 1,
                    reserves := d.reserves[t := Returning],
                    cancels := d.cancels[id := Asking]))
    case Saved(t) => SetPc(s, t, Returning)
    case Return(t) => s.(desk := d.(inflight := d.inflight - 1, reserves := d.reserves - {t}))
    case SendCancel(id) => Sends(SetBg(s, id, AwaitingCancel), OrphanCancel(id))
    case HearCancel(id) => SetBg(s, id, Answered)
    case FailCancel(id) => SetBg(s, id, Answered).(lost := s.lost + {id})
    case EndOrphan(id) => Ends(SetBg(s, id, BgReturning), id)
    case BgReturn(id) => s.(desk := d.(inflight := d.inflight - 1, cancels := d.cancels - {id}))
    case Pick(id) => s.(desk := d.(users := d.users[d.nextUser := Picked(id)], nextUser := d.nextUser + 1))
    case SendRelease(u) => Sends(SetUser(s, u, AwaitingRelease(d.users[u].id)), UserCancel(u, d.users[u].id))
    case HearRelease(u) => SetUser(s, u, Released(d.users[u].id))
    case FailRelease(u) => s.(desk := d.(users := d.users - {u}))
    case EndReleased(u) => Ends(s.(desk := d.(users := d.users - {u})), d.users[u].id)
    case StationHandles(scenario) => s.(line := Handled(s.line, scenario))
    case StationChanges(plugs) => s.(line := s.line.(plugs := plugs))
    case DropLine(kept) => s.(line := s.line.(open := false, wire := s.line.wire[..kept]))
    case Tick(n) => s.(now := s.now + n)
    case Fire(id, _) => Ends(s, id)
    case Session(cp, start, at) => SessionStarted(s, cp, start, at)
    case CloseBegins => s.(desk := d.(closed := true))
    case CloseReturns => s.(desk := d.(closeReturned := true))
  }

  /** A run begins with whatever core loaded, all of it active, and a station that
      holds nothing core does not know of. */
  ghost predicate Init(s: State) {
    && ValidConfig(s.cfg)
    && Valid(s.core, s.cfg)
    && (forall id :: id in s.core.reservations ==> HasStatus(s.core, id, Active))
    && s.desk == Desk(false, false, 0, map[], map[], map[], 0)
    && s.line == Line(s.line.open, [], map[], map[], map[], s.line.plugs)
    && s.requests.Keys == s.core.reservations.Keys
    && (forall id :: id in s.requests && id in s.core.reservations ==>
          var r := s.core.reservations[id].res;
          s.requests[id] == Request(r.evse, r.connector, r.expiresAt.at, None))
    && (forall c :: c in s.line.plugs && s.line.plugs[c].reservationId != 0 ==>
          s.line.plugs[c].reservationId in s.requests && s.requests[s.line.plugs[c].reservationId].connector == c)
    && s.lost == {} && s.bySession == {}
  }

  ghost predicate Run(b: seq<State>, ss: seq<Step>) {
    |b| == |ss| + 1 && Init(b[0]) &&
    forall k :: 0 <= k < |ss| ==> Enabled(b[k], ss[k]) && b[k + 1] == Apply(b[k], ss[k])
  }

  // ----- who owns which record -----------------------------------------------------------

  type Requests = map<int, Request>

  /** The Reserve call is still the one to decide about its pending record. */
  predicate Deciding(pc: Pc) {
    pc.Recording? || pc.Unrecorded? || pc.Recorded? || pc.Awaiting? || pc.Accepted? || pc.Refused? || pc.Failed?
  }

  predicate OwnedBy(rq: Requests, id: int, t: nat) {
    id in rq && rq[id].call == Some(t)
  }

  predicate BgLive(cancels: map<int, Bg>, id: int) {
    id in cancels && !cancels[id].BgReturning?
  }

  predicate Settled(c: Core, id: int) {
    !HasStatus(c, id, Pending) && !HasStatus(c, id, Cancelling)
  }

  /** A deciding call has its own pending record and nobody else's; the same for
      the call about to start the background cancel, that cancel, and Cancel. */
  ghost predicate CallsOwn(c: Core, d: Desk, rq: Requests) {
    && (forall t :: t in d.reserves && Deciding(d.reserves[t]) ==>
          HasStatus(c, d.reserves[t].id, Pending) && OwnedBy(rq, d.reserves[t].id, t))
    && (forall t :: t in d.reserves && d.reserves[t].Orphaned? ==>
          HasStatus(c, d.reserves[t].id, Cancelling) && OwnedBy(rq, d.reserves[t].id, t)
          && d.reserves[t].id !in d.cancels)
    && (forall t :: t in d.reserves ==> d.reserves[t] != Vanished)
    && (forall id :: id in d.cancels ==> id in rq && !HasStatus(c, id, Pending))
    && (forall id :: BgLive(d.cancels, id) ==> HasStatus(c, id, Cancelling))
    && (forall u :: u in d.users ==> d.users[u].id in rq && Settled(c, d.users[u].id))
  }

  /** The Reserve call that made the record is deciding about it. */
  predicate Decided(d: Desk, rq: Requests, id: int) {
    id in rq && rq[id].call.Some? && rq[id].call.value in d.reserves
    && Deciding(d.reserves[rq[id].call.value]) && d.reserves[rq[id].call.value].id == id
  }

  predicate AboutToCancel(d: Desk, rq: Requests, id: int) {
    id in rq && rq[id].call.Some? && rq[id].call.value in d.reserves
    && d.reserves[rq[id].call.value] == Orphaned(id)
  }

  /** So every pending or cancelling record is covered by a call of its own. */
  ghost predicate RecordsOwned(c: Core, d: Desk, rq: Requests) {
    && (forall id :: HasStatus(c, id, Pending) ==> Decided(d, rq, id))
    && (forall id :: HasStatus(c, id, Cancelling) ==> BgLive(d.cancels, id) || AboutToCancel(d, rq, id))
  }

  ghost predicate RequestsMatch(c: Core, rq: Requests) {
    && (forall id :: id in rq ==> 1 <= id < c.nextReservation)
    && (forall id :: id in c.reservations ==>
          var r := c.reservations[id].res;
          id in rq && rq[id].evse == r.evse && rq[id].connector == r.connector && rq[id].expiresAt == r.expiresAt.at)
  }

  ghost predicate Own(c: Core, d: Desk, rq: Requests) {
    CallsOwn(c, d, rq) && RecordsOwned(c, d, rq)
  }

  /** A call moves on without touching its record, which stays its own. */
  lemma MovesKeeps(c: Core, d: Desk, rq: Requests, t: nat, pc: Pc)
    requires Own(c, d, rq) && t in d.reserves && Deciding(d.reserves[t])
    requires Deciding(pc) && pc.id == d.reserves[t].id
    ensures Own(c, d.(reserves := d.reserves[t := pc]), rq)
  {
  }

  predicate Idle(pc: Pc) {
    pc.Entered? || pc.Saving? || pc.Returning?
  }

  lemma IdleKeeps(c: Core, d: Desk, rq: Requests, t: nat, pc: Pc)
    requires Own(c, d, rq) && (t in d.reserves ==> Idle(d.reserves[t])) && Idle(pc)
    ensures Own(c, d.(reserves := d.reserves[t := pc]), rq)
  {
  }

  lemma LeavingKeeps(c: Core, d: Desk, rq: Requests, t: nat)
    requires Own(c, d, rq) && t in d.reserves && Idle(d.reserves[t])
    ensures Own(c, d.(reserves := d.reserves - {t}), rq)
  {
  }

  /** c and e agree on the status of every record but id's. */
  ghost predicate SameBut(c: Core, e: Core, id: int) {
    forall j, st :: j != id ==> (HasStatus(e, j, st) <==> HasStatus(c, j, st))
  }

  lemma BeganKeeps(c: Core, e: Core, d: Desk, rq: Requests, t: nat, id: int, q: Request)
    requires Own(c, d, rq) && t in d.reserves && Idle(d.reserves[t])
    requires id !in rq && q.call == Some(t) && SameBut(c, e, id) && HasStatus(e, id, Pending)
    ensures Own(e, d.(reserves := d.reserves[t := Recording(id)]), rq[id := q])
  {
  }

  /** The deciding call removes or activates its record and is done with it. */
  lemma DecidesKeeps(c: Core, e: Core, d: Desk, rq: Requests, t: nat, pc: Pc)
    requires Own(c, d, rq) && t in d.reserves && Deciding(d.reserves[t]) && Idle(pc)
    requires SameBut(c, e, d.reserves[t].id) && Settled(e, d.reserves[t].id)
    ensures Own(e, d.(reserves := d.reserves[t := pc]), rq)
  {
  }

  lemma OrphansKeeps(c: Core, e: Core, d: Desk, rq: Requests, t: nat)
    requires Own(c, d, rq) && t in d.reserves && Deciding(d.reserves[t])
    requires SameBut(c, e, d.reserves[t].id) && HasStatus(e, d.reserves[t].id, Cancelling)
    ensures Own(e, d.(reserves := d.reserves[t := Orphaned(d.reserves[t].id)]), rq)
  {
    var id := d.reserves[t].id;
    assert HasStatus(c, id, Pending);
    assert !HasStatus(e, id, Pending);
  }

  lemma SpawnsKeeps(c: Core, d: Desk, rq: Requests, t: nat)
    requires Own(c, d, rq) && t in d.reserves && d.reserves[t].Orphaned?
    ensures Own(c, d.(reserves := d.reserves[t := Returning], cancels := d.cancels[d.reserves[t].id := Asking]), rq)
  {
  }

  lemma BgMovesKeeps(c: Core, d: Desk, rq: Requests, id: int, bg: Bg)
    requires Own(c, d, rq) && BgLive(d.cancels, id) && !bg.BgReturning?
    ensures Own(c, d.(cancels := d.cancels[id := bg]), rq)
  {
  }

  lemma BgEndsKeeps(c: Core, e: Core, d: Desk, rq: Requests, id: int)
    requires Own(c, d, rq) && BgLive(d.cancels, id) && SameBut(c, e, id) && id !in e.reservations
    ensures Own(e, d.(cancels := d.cancels[id := BgReturning]), rq)
  {
  }

  lemma BgLeavesKeeps(c: Core, d: Desk, rq: Requests, id: int)
    requires Own(c, d, rq) && id in d.cancels && d.cancels[id].BgReturning?
    ensures Own(c, d.(cancels := d.cancels - {id}), rq)
  {
  }

  lemma UsersKeeps(c: Core, d: Desk, rq: Requests, users: map<nat, User>, next: nat)
    requires Own(c, d, rq)
    requires forall u :: u in users ==> users[u].id in rq && Settled(c, users[u].id)
    ensures Own(c, d.(users := users, nextUser := next), rq)
  {
  }

  /** An active record can go at any time: no deciding call and no background
      cancel is attached to it. */
  lemma ActiveEndsKeeps(c: Core, e: Core, d: Desk, rq: Requests, id: int)
    requires Own(c, d, rq) && Settled(c, id) && SameBut(c, e, id) && Settled(e, id)
    ensures Own(e, d, rq)
  {
  }

  ghost predicate OwnInv(s: State) {
    && ValidConfig(s.cfg)
    && Valid(s.core, s.cfg)
    && RequestsMatch(s.core, s.requests)
    && (forall id :: id in s.requests ==>
          ConnectorOf(s.cfg.evses, s.requests[id].evse) == Some(s.requests[id].connector))
    && Own(s.core, s.desk, s.requests)
  }

  lemma RemovingActive(s: State, id: int)
    requires OwnInv(s) && HasStatus(s.core, id, Active)
    ensures Own(Without(s.core, id), s.desk, s.requests)
  {
    ActiveEndsKeeps(s.core, Without(s.core, id), s.desk, s.requests, id);
  }

  lemma SessionOwn(s: State, cp: string, start: Start, at: Stamp)
    requires OwnInv(s)
    ensures Own(SessionStarted(s, cp, start, at).core, s.desk, s.requests)
    ensures RequestsMatch(SessionStarted(s, cp, start, at).core, s.requests)
  {
    var r := StartSession(s.core, s.cfg, cp, start, at);
    SessionEndsOneActive(s.core, s.cfg, cp, start, at);
    if r.ended.Some? {
      ActiveEndsKeeps(s.core, r.core, s.desk, s.requests, r.ended.value.id);
    }
  }

  lemma BeginOwn(s: State, t: nat, draft: Reservation, at: Stamp)
    requires OwnInv(s) && PcIs(s, t, Entered)
    ensures var u := Began(s, t, draft, at);
            Own(u.core, u.desk, u.requests) && RequestsMatch(u.core, u.requests)
            && (forall id :: id in u.requests ==>
                  ConnectorOf(s.cfg.evses, u.requests[id].evse) == Some(u.requests[id].connector))
  {
    var b := BeginReservation(s.core, s.cfg, draft, at);
    match b.res
    case Err(_) => IdleKeeps(s.core, s.desk, s.requests, t, Returning);
    case Ok(r) =>
      BeganKeeps(s.core, b.core, s.desk, s.requests, t, r.id, Request(r.evse, r.connector, r.expiresAt.at, Some(t)));
  }

  /** The steps of a Reserve call. */
  predicate ReserveStep(st: Step) {
    st.Enter? || st.RefuseLocally? || st.Write? || st.Forget? || st.SendReserve? || st.HearReserve?
    || st.FailReserve? || st.ActivateIt? || st.EndRefused? || st.OrphanIt? || st.Spawn? || st.Saved? || st.Return?
  }

  /** The steps of a Reserve call that leave core's table alone, and before it has
      decided. */
  predicate TalkStep(st: Step) {
    st.Enter? || st.RefuseLocally? || st.Write? || st.SendReserve? || st.HearReserve? || st.FailReserve?
  }

  lemma TalkOwn(s: State, st: Step)
    requires Enabled(s, st) && OwnInv(s) && TalkStep(st)
    ensures var u := Apply(s, st); Own(u.core, u.desk, u.requests)
  {
    var c, d, rq := s.core, s.desk, s.requests;
    var t := st.t;
    match st
    case Enter(_) => IdleKeeps(c, d, rq, t, Entered);
    case RefuseLocally(_) => IdleKeeps(c, d, rq, t, Returning);
    case Write(_, ok) =>
      MovesKeeps(c, d, rq, t, if ok then Recorded(d.reserves[t].id) else Unrecorded(d.reserves[t].id));
    case SendReserve(_) => MovesKeeps(c, d, rq, t, Awaiting(d.reserves[t].id));
    case HearReserve(_) =>
      var id := d.reserves[t].id;
      MovesKeeps(c, d, rq, t, if s.line.reserveAns[id] then Accepted(id) else Refused(id));
    case FailReserve(_) => MovesKeeps(c, d, rq, t, Pc.Failed(d.reserves[t].id));
  }

  lemma ReserveOwn(s: State, st: Step)
    requires Enabled(s, st) && OwnInv(s) && ReserveStep(st)
    ensures var u := Apply(s, st); Own(u.core, u.desk, u.requests)
  {
    var c, d, rq := s.core, s.desk, s.requests;
    var t := st.t;
    if TalkStep(st) {
      TalkOwn(s, st);
    } else {
      match st
      case Forget(_) => DecidesKeeps(c, Without(c, d.reserves[t].id), d, rq, t, Returning);
      case ActivateIt(_) =>
        assert HasStatus(c, d.reserves[t].id, Pending);
        DecidesKeeps(c, Activate(c, d.reserves[t].id), d, rq, t, Saving);
      case EndRefused(_) => DecidesKeeps(c, Without(c, d.reserves[t].id), d, rq, t, Saving);
      case OrphanIt(_) =>
        assert HasStatus(c, d.reserves[t].id, Pending);
        OrphansKeeps(c, Orphan(c, d.reserves[t].id), d, rq, t);
      case Spawn(_) => SpawnsKeeps(c, d, rq, t);
      case Saved(_) => IdleKeeps(c, d, rq, t, Returning);
      case Return(_) => LeavingKeeps(c, d, rq, t);
    }
  }

  predicate CancelStep(st: Step) {
    st.SendCancel? || st.HearCancel? || st.FailCancel? || st.EndOrphan? || st.BgReturn?
  }

  predicate UserStep(st: Step) {
    st.Pick? || st.SendRelease? || st.HearRelease? || st.FailRelease? || st.EndReleased?
  }

  lemma CancelOwn(s: State, st: Step)
    requires Enabled(s, st) && OwnInv(s) && CancelStep(st)
    ensures var u := Apply(s, st); Own(u.core, u.desk, u.requests)
  {
    var c, d, rq, id := s.core, s.desk, s.requests, st.id;
    match st
    case SendCancel(_) => BgMovesKeeps(c, d, rq, id, AwaitingCancel);
    case HearCancel(_) => BgMovesKeeps(c, d, rq, id, Answered);
    case FailCancel(_) => BgMovesKeeps(c, d, rq, id, Answered);
    case EndOrphan(_) => BgEndsKeeps(c, Without(c, id), d, rq, id);
    case BgReturn(_) => BgLeavesKeeps(c, d, rq, id);
  }

  lemma UserOwn(s: State, st: Step)
    requires Enabled(s, st) && OwnInv(s) && UserStep(st)
    ensures var u := Apply(s, st); Own(u.core, u.desk, u.requests)
  {
    var c, d, rq := s.core, s.desk, s.requests;
    match st
    case Pick(id) => UsersKeeps(c, d, rq, d.users[d.nextUser := Picked(id)], d.nextUser + 1);
    case SendRelease(u) => UsersKeeps(c, d, rq, d.users[u := AwaitingRelease(d.users[u].id)], d.nextUser);
    case HearRelease(u) => UsersKeeps(c, d, rq, d.users[u := Released(d.users[u].id)], d.nextUser);
    case FailRelease(u) => UsersKeeps(c, d, rq, d.users - {u}, d.nextUser);
    case EndReleased(u) =>
      UsersKeeps(c, d, rq, d.users - {u}, d.nextUser);
      ActiveEndsKeeps(c, Without(c, d.users[u].id), d.(users := d.users - {u}), rq, d.users[u].id);
  }

  lemma OtherOwn(s: State, st: Step)
    requires Enabled(s, st) && OwnInv(s) && !ReserveStep(st) && !st.Begin?
    ensures var u := Apply(s, st); Own(u.core, u.desk, u.requests)
  {
    if CancelStep(st) {
      CancelOwn(s, st);
    } else if UserStep(st) {
      UserOwn(s, st);
    } else if st.Fire? {
      RemovingActive(s, st.id);
    } else if st.Session? {
      SessionOwn(s, st.cp, st.start, st.at);
    }
  }

  lemma Removing(s: State, id: int)
    requires OwnInv(s)
    ensures var e := Without(s.core, id); Valid(e, s.cfg) && RequestsMatch(e, s.requests)
  {
    WithoutKeeps(s.core, s.cfg, id);
  }

  lemma StatusMatches(s: State, id: int)
    requires OwnInv(s) && HasStatus(s.core, id, Pending)
    ensures var e := Activate(s.core, id); Valid(e, s.cfg) && RequestsMatch(e, s.requests)
    ensures var e := Orphan(s.core, id); Valid(e, s.cfg) && RequestsMatch(e, s.requests)
  {
    StatusKeeps(s.core, s.cfg, id);
  }

  /** The record a step takes out of the table, other than by a session. */
  function Removed(s: State, st: Step): Option<int>
    requires Enabled(s, st)
  {
    match st
    case Forget(t) => Some(s.desk.reserves[t].id)
    case EndRefused(t) => Some(s.desk.reserves[t].id)
    case EndOrphan(id) => Some(id)
    case EndReleased(u) => Some(s.desk.users[u].id)
    case Fire(id, _) => Some(id)
    case _ => None
  }

  lemma RemovalPreserves(s: State, st: Step)
    requires Enabled(s, st) && OwnInv(s) && Removed(s, st).Some?
    ensures Valid(Apply(s, st).core, s.cfg) && RequestsMatch(Apply(s, st).core, Apply(s, st).requests)
  {
    Removing(s, Removed(s, st).value);
  }

  lemma TablePreserved(s: State, st: Step)
    requires Enabled(s, st) && OwnInv(s)
    ensures Valid(Apply(s, st).core, s.cfg) && RequestsMatch(Apply(s, st).core, Apply(s, st).requests)
  {
    if Removed(s, st).Some? {
      RemovalPreserves(s, st);
    } else if st.Begin? {
      BeginKeeps(s.core, s.cfg, st.draft, st.at);
      BeginOwn(s, st.t, st.draft, st.at);
    } else if st.ActivateIt? || st.OrphanIt? {
      assert HasStatus(s.core, s.desk.reserves[st.t].id, Pending);
      StatusMatches(s, s.desk.reserves[st.t].id);
    } else if st.Session? {
      StartSessionKeeps(s.core, s.cfg, st.cp, st.start, st.at);
      SessionOwn(s, st.cp, st.start, st.at);
    }
  }

  lemma OwnPreserved(s: State, st: Step)
    requires Enabled(s, st) && OwnInv(s)
    ensures OwnInv(Apply(s, st))
  {
    TablePreserved(s, st);
    if st.Begin? {
      BeginOwn(s, st.t, st.draft, st.at);
    } else if ReserveStep(st) {
      ReserveOwn(s, st);
    } else {
      OtherOwn(s, st);
    }
  }

  // ----- the in-flight counter ---------------------------------------------------------

  ghost predicate CounterInv(d: Desk) {
    && d.inflight == |d.reserves| + |d.cancels|
    && (d.closeReturned ==> d.closed && d.inflight == 0)
  }

  lemma NotEmpty<K, V>(m: map<K, V>, k: K)
    requires k in m
    ensures |m| > 0
  {
    RemoveOne(m, k);
  }

  lemma SpawnCounts(d: Desk, id: int, t: nat)
    requires CounterInv(d) && t in d.reserves && id !in d.cancels
    ensures d.inflight > 0
    ensures CounterInv(d.(inflight := d.inflight + 1, reserves := d.reserves[t := Returning],
                          cancels := d.cancels[id := Asking]))
  {
    NotEmpty(d.reserves, t);
  }

  lemma LeavingCounts(d: Desk, t: nat)
    requires CounterInv(d) && t in d.reserves
    ensures CounterInv(d.(inflight := d.inflight - 1, reserves := d.reserves - {t}))
  {
    RemoveOne(d.reserves, t);
  }

  lemma BgLeavingCounts(d: Desk, id: int)
    requires CounterInv(d) && id in d.cancels
    ensures CounterInv(d.(inflight := d.inflight - 1, cancels := d.cancels - {id}))
  {
    RemoveOne(d.cancels, id);
  }

  lemma SetPcCounts(s: State, t: nat, pc: Pc)
    requires CounterInv(s.desk) && t in s.desk.reserves
    ensures CounterInv(SetPc(s, t, pc).desk)
  {
  }

  lemma SetBgCounts(s: State, id: int, bg: Bg)
    requires CounterInv(s.desk) && id in s.desk.cancels
    ensures CounterInv(SetBg(s, id, bg).desk)
  {
  }

  lemma ReserveCounts(s: State, st: Step)
    requires Enabled(s, st) && CounterInv(s.desk) && OwnInv(s) && ReserveStep(st)
    ensures CounterInv(Apply(s, st).desk)
  {
    var t := st.t;
    if st.Spawn? {
      SpawnCounts(s.desk, s.desk.reserves[t].id, t);
    } else if st.Return? {
      LeavingCounts(s.desk, t);
    } else if !st.Enter? {
      SetPcCounts(s, t, Apply(s, st).desk.reserves[t]);
    }
  }

  lemma CounterPreserved(s: State, st: Step)
    requires Enabled(s, st) && CounterInv(s.desk) && OwnInv(s)
    ensures CounterInv(Apply(s, st).desk)
  {
    if ReserveStep(st) {
      ReserveCounts(s, st);
    } else {
      match st
      case Begin(t, _, _) => SetPcCounts(s, t, Apply(s, st).desk.reserves[t]);
      case SendCancel(id) => SetBgCounts(s, id, AwaitingCancel);
      case HearCancel(id) => SetBgCounts(s, id, Answered);
      case FailCancel(id) => SetBgCounts(s, id, Answered);
      case EndOrphan(id) => SetBgCounts(s, id, BgReturning);
      case BgReturn(id) => BgLeavingCounts(s.desk, id);
      case _ =>
    }
  }
}
