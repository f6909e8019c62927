/** The core Service (internal/core/service.go, reservations.go, transactions.go,
    persist.go), on the manual clock and the store. Its reservations are kept by a
    Table and its charge points by Stations; every operation is a critical section
    on those, followed by a write where the operation makes one. Model() is the
    value of core.dfy that the fields stand for, and the operations are proved to do
    to it what the machines of persistence.dfy and control.dfy take a section to do. */
module CoreService {
  import opened Common
  import opened Core
  import Sections = Core
  import opened Reservations
  import ChargePoints
  import Durable
  import EvseStatus
  import ManualClock
  import Contents

  // ----- parts and wholes -----------------------------------------------------------

  /** p is c as far as reservations are concerned. */
  predicate SameTable(c: Core, p: Core) {
    c.reservations == p.reservations && c.nextReservation == p.nextReservation
  }

  lemma BeginOnTable(c: Core, p: Core, cfg: Config, draft: Reservation, now: Stamp)
    requires SameTable(c, p)
    ensures var b, q := BeginReservation(c, cfg, draft, now), BeginReservation(p, cfg, draft, now);
            b.res == q.res && SameTable(b.core, q.core)
            && b.core == c.(reservations := b.core.reservations, nextReservation := b.core.nextReservation)
  {
    assert Occupied(c, draft.evse) <==> Occupied(p, draft.evse);
  }

  lemma SessionOnTable(c: Core, p: Core, cp: string, evse: string, t: Start)
    requires SameTable(c, p) && OnePerEvse(c)
    ensures SessionEnds(c, cp, evse, t) == SessionEnds(p, cp, evse, t)
  {
    assert forall id :: TagMatches(c, id, cp, evse, t.tag) <==> TagMatches(p, id, cp, evse, t.tag);
    assert forall id :: ActiveOn(c, id, cp, evse) <==> ActiveOn(p, id, cp, evse);
    if t.reservationId != 0 && ActiveAt(c, t.reservationId, cp) {
    } else if exists id :: TagMatches(c, id, cp, evse, t.tag) {
      var id :| TagMatches(c, id, cp, evse, t.tag);
      TheOneWithTag(c, cp, evse, t, id);
      TheOneWithTag(p, cp, evse, t, id);
    } else if exists id :: ActiveOn(c, id, cp, evse) {
      var id :| ActiveOn(c, id, cp, evse);
      TheOneThere(c, cp, evse, id);
      TheOneThere(p, cp, evse, id);
    }
  }

  lemma {:induction false} LoadOnTable(c: Core, p: Core, cfg: Config, now: Stamp, rs: seq<Contents.Reservation>)
    requires SameTable(c, p)
    ensures var r, q := Durable.LoadReservations(c, cfg, now, rs), Durable.LoadReservations(p, cfg, now, rs);
            r == c.(reservations := q.reservations, nextReservation := q.nextReservation)
  {
    if rs != [] {
      LoadOnTable(c, p, cfg, now, rs[..|rs| - 1]);
    }
  }

  lemma {:induction false} LoadOnStations(c: Core, p: Core, ts: seq<Contents.Transaction>)
    requires c.txs == p.txs && c.txSeq == p.txSeq && c.nextTransaction == p.nextTransaction
    ensures var r, q := Durable.LoadTxs(c, ts), Durable.LoadTxs(p, ts);
            r == c.(txs := q.txs, txSeq := q.txSeq, nextTransaction := q.nextTransaction)
  {
    if ts != [] {
      LoadOnStations(c, p, ts[..|ts| - 1]);
    }
  }

  /** The transaction a starting session records. */
  function Opened(txSeq: nat, evse: string, t: Start, ended: Option<Ended>, now: Stamp): Transaction {
    Transaction(t.id, evse, t.connector, t.tag, t.meterStart,
                if t.at.Some? then t.at.value else now,
                if ended.Some? && ended.value.reason == Consumed then ended.value.id else t.reservationId,
                None, 0, "", txSeq + 1)
  }

  /** A starting session, one part after the other: c1 is what is left once a
      reservation has gone, c2 has the transaction as well. */
  ghost predicate Parted(c: Core, c1: Core, c2: Core, cp: string, evse: string, t: Start, now: Stamp,
                         ended: Option<Ended>, tx: Transaction) {
    && ended == SessionEnds(c, cp, evse, t)
    && c1 == (if ended.Some? then Without(c, ended.value.id) else c)
    && tx == Opened(c1.txSeq, evse, t, ended, now)
    && c2 == c1.(txs := Recorded(c1.txs, cp, tx), txSeq := tx.seqNo)
  }

  lemma StartInParts(c: Core, c1: Core, c2: Core, cfg: Config, cp: string, evse: string, t: Start, now: Stamp,
                     ended: Option<Ended>, tx: Transaction)
    requires evse == EvseUid(cfg, cp, t.connector) && Parted(c, c1, c2, cp, evse, t, now, ended, tx)
    ensures Started(c2, tx, ended) == StartSession(c, cfg, cp, t, now)
  {
  }

  // ----- the store ------------------------------------------------------------------

  /** What core asks of its store (the interface Store): a state in normal form, and
      edits that take place as a whole or not at all. stored.dfy shows that the store
      of state.dfy does this for the edit that persist makes. */
  class Store {
    var state: Contents.State

    ghost predicate Valid()
      reads this
    {
      Contents.Normal(state) == state
    }

    constructor (state: Contents.State)
      requires Contents.Normal(state) == state
      ensures Valid() && this.state == state
    {
      this.state := state;
    }

    /** works: the write commits. */
    method Update(edit: Contents.State -> Contents.State, works: bool) returns (ok: bool)
      modifies this
      ensures ok == works
      ensures state == if ok then Contents.Normal(edit(old(state))) else old(state)
    {
      if works {
        state := Contents.Normal(edit(state));
      }
      ok := works;
    }
  }

  method WriteDown(store: Store, d: Durable.Durable, works: bool) returns (ok: bool)
    requires store.Valid()
    modifies store
    ensures store.Valid() && ok == works
    ensures ok ==> Durable.Part(store.state) == Durable.Normal(d)
    ensures store.state.ocpi == old(store.state).ocpi
    ensures !ok ==> store.state == old(store.state)
  {
    Durable.OverlayKeepsRegistration(store.state, d);
    ok := store.Update(s => Durable.Overlay(s, d), works);
    Contents.NormalIdempotent(Durable.Overlay(old(store.state), d));
  }

  lemma WrittenIs(c: Core, d: Durable.Durable)
    requires d == Durable.Snapshot(c)
    ensures Durable.Normal(d) == Durable.Written(c)
  {
  }

  class Service {
    const cfg: Config
    const table: Table
    const stations: ChargePoints.Stations
    const store: Store
    var nextTransaction: int
    var nextRemoteStart: int

    ghost function Model(): Core
      reads this, table, table.reservations.Values, stations, stations.cps.Values
    {
      Core(table.Entries(), stations.Txs(), stations.txSeq, table.nextReservation, nextTransaction, nextRemoteStart)
    }

    /** What holds whenever the lock is free. */
    ghost predicate Ok()
      reads this, table, table.reservations.Values, table.clock, table.clock.all, stations, stations.cps.Values
      reads store
    {
      CoreOk() && store.Valid()
    }

    ghost predicate CoreOk()
      reads this, table, table.reservations.Values, table.clock, table.clock.all, stations, stations.cps.Values
    {
      && table.cfg == cfg && stations.cfg == cfg
      && table.Ok() && stations.Ok()
      && 1 <= nextTransaction && 1 <= nextRemoteStart
    }

    function Now(): Stamp
      reads table.clock
    {
      Stamp(table.clock.now, false)
    }

    constructor (table: Table, stations: ChargePoints.Stations, store: Store)
      requires table.Ok() && stations.Ok() && store.Valid() && table.cfg == stations.cfg
      requires table.Entries() == map[] && table.nextReservation == 1
      requires stations.Txs() == map[] && stations.txSeq == 0
      ensures this.table == table && this.stations == stations && this.store == store
      ensures Ok() && IsBlank() && cfg == table.cfg
    {
      this.cfg, this.table, this.stations, this.store := table.cfg, table, stations, store;
      nextTransaction, nextRemoteStart := 1, 1;
    }

    /** New, up to the point where it loads what the store holds. */
    static method New(cfg: Config, clock: ManualClock.Clock<Callback>, store: Store) returns (s: Service)
      requires clock.Valid() && clock.all == {} && store.Valid()
      ensures fresh(s) && s.cfg == cfg && s.store == store && s.table.clock == clock
      ensures s.Ok() && s.IsBlank()
    {
      var stations := ChargePoints.Stations.New(cfg);
      var table := new Table(cfg, clock);
      s := new Service(table, stations, store);
    }

    /** Nothing has happened yet. */
    ghost predicate IsBlank()
      reads this, table, table.reservations.Values, stations, stations.cps.Values
    {
      && table.Entries() == map[] && table.nextReservation == 1
      && stations.Txs() == map[] && stations.txSeq == 0
      && nextTransaction == 1 && nextRemoteStart == 1
    }

    /** The counters and lists that survive a restart. */
    method Persistable(ghost c: Core) returns (d: Durable.Durable)
      requires table.TimersOk() && stations.Ok() && c == Model()
      ensures d == Durable.Snapshot(c)
    {
      var rs := table.PersistableReservations(c.reservations);
      var ts := stations.PersistableTransactions(c.txs);
      d := Durable.Durable(table.nextReservation, nextTransaction, nextRemoteStart, rs, ts);
    }

    /** persist, for a process that lives to see its outcome. */
    method Persist(ghost c: Core, works: bool) returns (ok: bool)
      requires Ok() && c == Model()
      modifies store
      ensures Ok() && Model() == c && table.AllLater() == old(table.AllLater())
      ensures ok <==> works
      ensures ok ==> Durable.Part(store.state) == Durable.Written(c)
      ensures store.state.ocpi == old(store.state).ocpi
      ensures !ok ==> store.state == old(store.state)
    {
      var d := Persistable(c);
      ok := WriteDown(store, d, works);
      OnlyStore();
      WrittenIs(c, d);
    }

    method PersistOrLog(ghost c: Core, works: bool)
      requires Ok() && c == Model()
      modifies store
      ensures Ok() && Model() == c && table.AllLater() == old(table.AllLater())
      ensures works ==> Durable.Part(store.state) == Durable.Written(c)
    {
      var ok := Persist(c, works);
    }

    /** So does a change to the store. */
    twostate lemma OnlyStore()
      requires old(Ok()) && store.Valid()
      requires unchanged(this) && unchanged(table) && unchanged(table.clock) && unchanged(stations)
      requires forall r :: r in table.reservations.Values ==> unchanged(r)
      requires forall t :: t in table.clock.all ==> unchanged(t)
      requires forall cp :: cp in stations.cps.Values ==> unchanged(cp)
      ensures Ok() && Model() == old(Model()) && table.AllLater() == old(table.AllLater())
    {
      SameTableObject();
      SameStations();
    }

    twostate lemma SameTableObject()
      requires unchanged(table) && unchanged(table.clock)
      requires forall r :: r in table.reservations.Values ==> unchanged(r)
      requires forall t :: t in table.clock.all ==> unchanged(t)
      ensures table.Ok() == old(table.Ok()) && table.Entries() == old(table.Entries())
      ensures table.AllLater() == old(table.AllLater())
    {
    }

    twostate lemma SameStations()
      requires unchanged(stations)
      requires forall cp :: cp in stations.cps.Values ==> unchanged(cp)
      ensures stations.Ok() == old(stations.Ok()) && stations.Txs() == old(stations.Txs())
    {
    }

    // ----- reservations ---------------------------------------------------------------

    method BeginReservation(draft: Reservation, works: bool) returns (r: Result<Reservation, BeginError>)
      requires Ok()
      modifies table`reservations, table`nextReservation, store
      ensures Ok()
      ensures var b := Sections.BeginReservation(old(Model()), cfg, draft, old(Now()));
              && (b.res.Err? || works ==> r == b.res && Model() == b.core)
              && (b.res.Ok? && !works ==>
                    r == Err(NotRecorded) && Model() == Without(b.core, b.res.value.id))
      ensures r.Ok? ==> Durable.Part(store.state) == Durable.Written(Model())
      ensures r.Err? ==> store.state == old(store.state)
    {
      r := Begin(draft);
      if r.Ok? {
        var ok := RecordOrDrop(r.value.id, works);
        if !ok {
          r := Err(NotRecorded);
        }
      }
    }

    method RecordOrDrop(id: int, works: bool) returns (ok: bool)
      requires Ok()
      requires id in table.reservations && table.reservations[id].timer == null
      modifies table`reservations, store
      ensures Ok() && (ok <==> works)
      ensures ok ==> Model() == old(Model()) && Durable.Part(store.state) == Durable.Written(old(Model()))
      ensures !ok ==> Model() == Without(old(Model()), id) && store.state == old(store.state)
    {
      ok := Persist(Model(), works);
      if !ok {
        Drop(id);
      }
    }

    method Begin(draft: Reservation) returns (r: Result<Reservation, BeginError>)
      requires CoreOk()
      modifies table`reservations, table`nextReservation
      ensures CoreOk()
      ensures Begun(Model(), r) == Sections.BeginReservation(old(Model()), cfg, draft, old(Now()))
      ensures r.Ok? ==> r.value.id in table.reservations && table.reservations[r.value.id].timer == null
    {
      BeginOnTable(Model(), table.Part(), cfg, draft, Now());
      r := table.BeginSection(draft);
      OnlyTable();
    }

    method Drop(id: int)
      requires CoreOk() && (id in table.reservations ==> table.reservations[id].timer == null)
      modifies table`reservations
      ensures CoreOk() && Model() == Without(old(Model()), id)
    {
      table.Drop(id);
      OnlyTable();
    }

    /** The station has accepted: a failed write is only logged. */
    method ActivateReservation(id: int, works: bool) returns (r: Option<Reservation>)
      requires Ok()
      modifies table.reservations.Values, table.clock`timers, table.clock`all, store
      ensures Ok()
      ensures r.Some? <==> HasStatus(old(Model()), id, Pending)
      ensures r.Some? ==> r.value == Activated(old(Model()).reservations[id].res)
      ensures Model() == if r.Some? then Sections.Activate(old(Model()), id) else old(Model())
      ensures r.Some? && works ==> Durable.Part(store.state) == Durable.Written(Model())
    {
      r := Activate(id);
      if r.Some? {
        var ok := Persist(Model(), works);
      }
    }

    method Activate(id: int) returns (r: Option<Reservation>)
      requires CoreOk()
      modifies table.reservations.Values, table.clock`timers, table.clock`all
      ensures CoreOk()
      ensures r.Some? <==> HasStatus(old(Model()), id, Pending)
      ensures r.Some? ==> r.value == Activated(old(Model()).reservations[id].res)
      ensures Model() == if r.Some? then Sections.Activate(old(Model()), id) else old(Model())
    {
      r := table.ActivateSection(id);
      OnlyTable();
    }

    /** The second result says whether the end was reported, and written: a
        cancelling reservation has been reported before. */
    method EndReservation(id: int, works: bool) returns (r: Option<Reservation>, reported: bool)
      requires Ok()
      modifies table`reservations, table.reservations.Values`timer
      modifies table.clock.all`stopped, table.clock.all`cancelled, store
      ensures Ok()
      ensures r.Some? <==> id in old(Model()).reservations
      ensures r.Some? ==> r.value == old(Model()).reservations[id].res
      ensures reported <==> r.Some? && !HasStatus(old(Model()), id, Cancelling)
      ensures Model() == Without(old(Model()), id)
      ensures reported && works ==> Durable.Part(store.state) == Durable.Written(Model())
      ensures !reported ==> store.state == old(store.state)
    {
      r := End(id);
      reported := r.Some? && r.value.status != Cancelling;
      if reported {
        var ok := Persist(Model(), works);
      }
    }

    method End(id: int) returns (r: Option<Reservation>)
      requires CoreOk()
      modifies table`reservations, table.reservations.Values`timer
      modifies table.clock.all`stopped, table.clock.all`cancelled
      ensures CoreOk()
      ensures r.Some? <==> id in old(Model()).reservations
      ensures r.Some? ==> r.value == old(Model()).reservations[id].res
      ensures Model() == Without(old(Model()), id)
    {
      r := table.EndSection(id);
      OnlyTable();
    }

    method OrphanReservation(id: int) returns (r: Option<Reservation>)
      requires CoreOk()
      modifies table.reservations.Values
      ensures CoreOk()
      ensures r.Some? <==> HasStatus(old(Model()), id, Pending)
      ensures r.Some? ==> r.value == old(Model()).reservations[id].res.(status := Cancelling)
      ensures Model() == if r.Some? then Orphan(old(Model()), id) else old(Model())
    {
      r := table.OrphanSection(id);
      OnlyTable();
    }

    /** A change to the table alone leaves the rest as it was. */
    twostate lemma OnlyTable()
      requires old(CoreOk()) && table.Ok()
      requires unchanged(this) && unchanged(stations)
      requires forall cp :: cp in stations.cps.Values ==> unchanged(cp)
      ensures CoreOk()
      ensures Model() == old(Model()).(reservations := table.Entries(), nextReservation := table.nextReservation)
    {
      SameStations();
    }

    // ----- time ---------------------------------------------------------------------------

    /** Advancing the clock ends the active reservations that are due by then, and
        only those. Each is written; a failed write is only logged. */
    method Advance(d: int, works: nat -> bool)
      requires Ok() && table.firing == {}
      modifies table`reservations, table`firing, table.reservations.Values`timer
      modifies table.clock`now, table.clock`timers, store
      modifies table.clock.all`stopped, table.clock.all`fired, table.clock.all`cancelled
      ensures Ok() && table.firing == {} && table.clock.now == old(table.clock.now) + d
      ensures Model() == Elapsed(old(Model()), table.clock.now)
    {
      ghost var c := Model();
      ghost var records, timers := table.reservations.Values, table.clock.all;
      var due := Collect(d);
      RunDue(c, due, works, records, timers);
    }

    method RunDue(ghost c: Core, due: seq<ManualClock.Timer<Callback>>, works: nat -> bool, ghost records: set<Record>,
                  ghost timers: set<ManualClock.Timer<Callback>>)
      requires Ok() && Distinct(due) && table.firing == Members(due) && table.AllLater()
      requires forall t :: t in due ==> t.at <= table.clock.now
      requires records == table.reservations.Values && timers == table.clock.all && c == Model()
      modifies table`reservations, table`firing, records`timer
      modifies timers`stopped, timers`cancelled, store
      ensures Ok() && table.firing == {}
      ensures Model() == Elapsed(c, table.clock.now)
    {
      ghost var m := FireAll(c, due, works, records, timers);
      NothingDue(c, m);
    }

    lemma NothingDue(c: Core, m: Core)
      requires Ok() && table.firing == {} && table.AllLater() && Model() == m && Swept(c, m, table.clock.now)
      ensures m == Elapsed(c, table.clock.now)
    {
      table.Settled();
      SweptAll(c, m, table.clock.now);
    }

    /** The loop over the callbacks. */
    method FireAll(ghost c: Core, due: seq<ManualClock.Timer<Callback>>, works: nat -> bool, ghost records: set<Record>,
                   ghost timers: set<ManualClock.Timer<Callback>>) returns (ghost m: Core)
      requires Ok() && Distinct(due) && table.firing == Members(due) && table.AllLater()
      requires forall t :: t in due ==> t.at <= table.clock.now
      requires records == table.reservations.Values && timers == table.clock.all
      requires c == Model()
      modifies table`reservations, table`firing, records`timer
      modifies timers`stopped, timers`cancelled, store
      ensures Ok() && table.firing == {} && table.AllLater()
      ensures Model() == m && Swept(c, m, table.clock.now)
    {
      m := c;
      for k := 0 to |due|
        invariant Ok() && table.firing == Members(due[k..]) && table.AllLater()
        invariant Model() == m && Swept(c, m, table.clock.now)
        invariant table.reservations.Values <= records && table.clock.all == timers
      {
        AllButFirst(due, k);
        m := FireNext(c, m, due[k], works(k));
      }
    }

    method Collect(d: int) returns (due: seq<ManualClock.Timer<Callback>>)
      requires Ok() && table.firing == {}
      modifies table`firing, table.clock`now, table.clock`timers, table.clock.all`stopped, table.clock.all`fired
      ensures Ok() && table.clock.now == old(table.clock.now) + d
      ensures Distinct(due) && table.firing == Members(due)
      ensures forall t :: t in due ==> t.at <= table.clock.now
      ensures table.AllLater()
      ensures Model() == old(Model()) && table.reservations.Values == old(table.reservations.Values)
    {
      due := table.Collect(d);
      OnlyTable();
    }

    method FireNext(ghost c: Core, ghost m: Core, t: ManualClock.Timer<Callback>, works: bool) returns (ghost m': Core)
      requires Ok() && t in table.firing && table.AllLater()
      requires Model() == m && Swept(c, m, table.clock.now) && t.at <= table.clock.now
      modifies table`reservations, table`firing, table.reservations.Values`timer
      modifies table.clock.all`stopped, table.clock.all`cancelled, store
      ensures Ok() && table.firing == old(table.firing) - {t}
      ensures table.reservations.Values <= old(table.reservations.Values)
      ensures table.AllLater() && Model() == m' && Swept(c, m', table.clock.now)
    {
      Fire(t, works);
      m' := Model();
      SweptOnce(c, m, m', table.clock.now, t);
    }

    /** One callback, with its write. */
    method Fire(t: ManualClock.Timer<Callback>, works: bool)
      requires Ok() && t in table.firing && table.AllLater()
      modifies table`reservations, table`firing, table.reservations.Values`timer
      modifies table.clock.all`stopped, table.clock.all`cancelled, store
      ensures Ok() && table.firing == old(table.firing) - {t}
      ensures table.reservations.Values <= old(table.reservations.Values)
      ensures table.AllLater() && t.fn.expiresAt.at == t.at
      ensures Model() == if ExpiryApplies(old(Model()), t.fn.id, t.fn.expiresAt) then Without(old(Model()), t.fn.id)
                         else old(Model())
    {
      var gone := Expire(t);
      if gone {
        PersistOrLog(Model(), works);
      }
    }

    lemma SweptOnce(c: Core, before: Core, after: Core, now: int, t: ManualClock.Timer<Callback>)
      requires Swept(c, before, now) && t.at <= now
      requires after == if ExpiryApplies(before, t.fn.id, t.fn.expiresAt) then Without(before, t.fn.id) else before
      requires t.at == t.fn.expiresAt.at
      ensures Swept(c, after, now)
    {
      if ExpiryApplies(before, t.fn.id, t.fn.expiresAt) {
        SweptOneMore(c, before, now, t.fn.id);
      }
    }

    /** expire. For a reservation that has been removed meanwhile, or replaced, it
        changes nothing. */
    method Expire(t: ManualClock.Timer<Callback>) returns (gone: bool)
      requires CoreOk() && t in table.firing && table.AllLater()
      modifies table`reservations, table`firing, table.reservations.Values`timer
      modifies table.clock.all`stopped, table.clock.all`cancelled
      ensures CoreOk() && table.firing == old(table.firing) - {t}
      ensures table.reservations.Values <= old(table.reservations.Values)
      ensures table.AllLater() && t.fn.expiresAt.at == t.at
      ensures gone <==> ExpiryApplies(old(Model()), t.fn.id, t.fn.expiresAt)
      ensures Model() == if gone then Without(old(Model()), t.fn.id) else old(Model())
    {
      gone := table.ExpireSection(t);
      OnlyTable();
    }

    // ----- counters -----------------------------------------------------------------------

    /** The id is handed out whether or not the counter could be written. */
    method NextTransactionID(works: bool) returns (id: int)
      requires Ok()
      modifies this`nextTransaction, store
      ensures Ok() && id == old(Model()).nextTransaction
      ensures Model() == old(Model()).(nextTransaction := id + 1)
      ensures works ==> Durable.Part(store.state) == Durable.Written(Model())
    {
      id := nextTransaction;
      nextTransaction := nextTransaction + 1;
      OnlyCounters();
      PersistOrLog(Model(), works);
    }

    /** The id is handed out only if the counter has been written. */
    method NextRemoteStartID(works: bool) returns (id: Option<int>)
      requires Ok()
      modifies this`nextRemoteStart, store
      ensures Ok() && id == if works then Some(old(Model()).nextRemoteStart) else None
      ensures Model() == old(Model()).(nextRemoteStart := old(Model()).nextRemoteStart + 1)
      ensures id.Some? ==> Durable.Part(store.state) == Durable.Written(Model())
    {
      var n := nextRemoteStart;
      nextRemoteStart := nextRemoteStart + 1;
      OnlyCounters();
      var ok := Persist(Model(), works);
      id := if ok then Some(n) else None;
    }

    /** A counter may only go up. */
    twostate lemma OnlyCounters()
      requires old(CoreOk()) && nextTransaction >= old(nextTransaction) && nextRemoteStart >= old(nextRemoteStart)
      requires unchanged(table) && unchanged(table.clock) && unchanged(stations)
      requires forall r :: r in table.reservations.Values ==> unchanged(r)
      requires forall t :: t in table.clock.all ==> unchanged(t)
      requires forall cp :: cp in stations.cps.Values ==> unchanged(cp)
      ensures CoreOk()
      ensures Model() == old(Model()).(nextTransaction := nextTransaction, nextRemoteStart := nextRemoteStart)
    {
      SameTableObject();
      SameStations();
    }

    // ----- transactions -------------------------------------------------------------------

    method StartTransaction(cp: string, t: Start, works: bool) returns (tx: Transaction, ended: Option<Ended>)
      requires Ok()
      modifies table`reservations, table.reservations.Values`timer
      modifies table.clock.all`stopped, table.clock.all`cancelled
      modifies stations, stations.Named(cp), store
      ensures Ok()
      ensures Started(Model(), tx, ended) == StartSession(old(Model()), cfg, cp, t, old(Now()))
      ensures forall uid :: Configured(cfg, cp, t.connector, uid) ==> tx.evse == uid
      ensures works ==> Durable.Part(store.state) == Durable.Written(Model())
    {
      tx, ended := Start(cp, t, Now());
      PersistOrLog(Model(), works);
    }

    /** The critical section of StartTransaction. */
    method Start(cp: string, t: Start, now: Stamp) returns (tx: Transaction, ended: Option<Ended>)
      requires Ok()
      modifies table`reservations, table.reservations.Values`timer
      modifies table.clock.all`stopped, table.clock.all`cancelled
      modifies stations, stations.Named(cp)
      ensures Ok()
      ensures Started(Model(), tx, ended) == StartSession(old(Model()), cfg, cp, t, now)
      ensures forall uid :: Configured(cfg, cp, t.connector, uid) ==> tx.evse == uid
    {
      ConfiguredConnector(cfg, cp, t.connector);
      var evse := EvseUid(cfg, cp, t.connector);
      ghost var c, c1 := Model(), Model();
      tx, ended, c1 := EndAndOpen(cp, evse, t, now);
      ghost var c2 := Model();
      assert Parted(c, c1, c2, cp, evse, t, now, ended, tx);
      StartInParts(c, c1, c2, cfg, cp, evse, t, now, ended, tx);
    }

    method EndAndOpen(cp: string, evse: string, t: Start, now: Stamp)
      returns (tx: Transaction, ended: Option<Ended>, ghost c1: Core)
      requires Ok()
      modifies table`reservations, table.reservations.Values`timer
      modifies table.clock.all`stopped, table.clock.all`cancelled
      modifies stations, stations.Named(cp)
      ensures Ok()
      ensures ended == SessionEnds(old(Model()), cp, evse, t)
      ensures c1 == if ended.Some? then Without(old(Model()), ended.value.id) else old(Model())
      ensures tx == Opened(c1.txSeq, evse, t, ended, now)
      ensures Model() == c1.(txs := Recorded(c1.txs, cp, tx), txSeq := tx.seqNo)
    {
      ended := EndForSession(cp, evse, t);
      c1 := Model();
      tx := Open(cp, Opened(stations.txSeq, evse, t, ended, now));
    }

    /** The reservation a session redeems or displaces goes. */
    method EndForSession(cp: string, evse: string, t: Start) returns (ended: Option<Ended>)
      requires Ok()
      modifies table`reservations, table.reservations.Values`timer
      modifies table.clock.all`stopped, table.clock.all`cancelled
      ensures Ok()
      ensures ended == SessionEnds(old(Model()), cp, evse, t)
      ensures Model() == if ended.Some? then Without(old(Model()), ended.value.id) else old(Model())
    {
      SessionOnTable(Model(), table.Part(), cp, evse, t);
      ended := EndOn(cp, evse, t);
    }

    method EndOn(cp: string, evse: string, t: Start) returns (ended: Option<Ended>)
      requires CoreOk()
      modifies table`reservations, table.reservations.Values`timer
      modifies table.clock.all`stopped, table.clock.all`cancelled
      ensures CoreOk()
      ensures ended == SessionEnds(old(table.Part()), cp, evse, t)
      ensures Model() == if ended.Some? then Without(old(Model()), ended.value.id) else old(Model())
    {
      ended := table.EndForSession(cp, evse, t);
      OnlyTable();
    }

    /** Records the new transaction. */
    method Open(cp: string, started: Transaction) returns (tx: Transaction)
      requires Ok() && started.seqNo == stations.txSeq + 1
      modifies stations, stations.Named(cp)
      ensures Ok() && tx == started
      ensures Model() == old(Model()).(txs := Recorded(old(Model()).txs, cp, tx), txSeq := tx.seqNo)
    {
      tx := started;
      stations.Book(cp, tx);
      OnlyStations();
    }

    method StopTransaction(cp: string, id: string, meterStop: int, reason: string, at: Option<Stamp>, works: bool)
      returns (out: Option<Transaction>)
      requires Ok()
      modifies stations, stations.Named(cp), store
      ensures Ok()
      ensures out.Some? <==> Running(old(Model()).txs, cp, id)
      ensures var when := if at.Some? then at.value else old(Now());
              Model() == if out.Some? then StopSession(old(Model()), cp, id, meterStop, reason, when) else old(Model())
      ensures out.Some? && works ==> Durable.Part(store.state) == Durable.Written(Model())
    {
      out := Stop(cp, id, meterStop, reason, if at.Some? then at.value else Now());
      if out.Some? {
        PersistOrLog(Model(), works);
      }
    }

    method Stop(cp: string, id: string, meterStop: int, reason: string, at: Stamp) returns (out: Option<Transaction>)
      requires CoreOk()
      modifies stations, stations.Named(cp)
      ensures CoreOk()
      ensures out.Some? <==> Running(old(Model()).txs, cp, id)
      ensures Model() == if out.Some? then StopSession(old(Model()), cp, id, meterStop, reason, at) else old(Model())
    {
      out := stations.Stop(cp, id, meterStop, reason, at);
      OnlyStations();
    }

    /** And a change to the charge points. */
    twostate lemma OnlyStations()
      requires old(CoreOk()) && stations.Ok()
      requires nextTransaction >= old(nextTransaction) && nextRemoteStart == old(nextRemoteStart)
      requires unchanged(table) && unchanged(table.clock)
      requires forall r :: r in table.reservations.Values ==> unchanged(r)
      requires forall t :: t in table.clock.all ==> unchanged(t)
      ensures CoreOk()
      ensures Model() == old(Model()).(txs := stations.Txs(), txSeq := stations.txSeq,
                                       nextTransaction := nextTransaction)
    {
      SameTableObject();
    }

    // ----- restart ------------------------------------------------------------------------

    /** load, in a service that has just been built. */
    method Load(works: bool) returns (dropped: bool)
      requires Ok() && IsBlank()
      requires Durable.WellFormed(Durable.Part(store.state))
      modifies this, table`reservations, table`nextReservation, table.clock`timers, table.clock`all
      modifies stations, stations.cps.Values, store
      ensures Ok()
      ensures Model() == Durable.Load(Durable.Part(old(store.state)), cfg, old(Now()))
      ensures dropped <==> Durable.Drops(Durable.Part(old(store.state)), cfg, old(Now()))
      ensures dropped && works ==> Durable.Part(store.state) == Durable.Written(Model())
      ensures !dropped ==> store.state == old(store.state)
    {
      dropped := LoadLocked(Durable.Part(store.state), Now());
      if dropped {
        PersistOrLog(Model(), works);
      }
    }

    method LoadLocked(d: Durable.Durable, now: Stamp) returns (dropped: bool)
      requires CoreOk() && Durable.WellFormed(d) && IsBlank()
      modifies this, table`reservations, table`nextReservation, table.clock`timers, table.clock`all
      modifies stations, stations.cps.Values
      ensures CoreOk() && Model() == Durable.Load(d, cfg, now)
      ensures dropped <==> Durable.Drops(d, cfg, now)
    {
      SetCounters(d);
      LoadTransactions(Durable.Blank(d), d.transactions, stations.cps.Values);
      dropped := LoadReservations(Durable.LoadTxs(Durable.Blank(d), d.transactions), d, now);
    }

    method SetCounters(d: Durable.Durable)
      requires CoreOk() && IsBlank()
      modifies this, table`nextReservation
      ensures CoreOk() && Model() == Durable.Blank(d)
    {
      assert table.reservations.Keys == table.Entries().Keys;
      table.StartFrom(Max(d.nextReservation, 1));
      OnlyTable();
      SetOwn(Max(d.nextTransaction, 1), Max(d.nextRemoteStart, 1));
    }

    method SetOwn(transaction: int, remoteStart: int)
      requires CoreOk() && transaction >= nextTransaction && remoteStart >= nextRemoteStart
      modifies this
      ensures CoreOk()
      ensures Model() == old(Model()).(nextTransaction := transaction, nextRemoteStart := remoteStart)
    {
      nextTransaction, nextRemoteStart := transaction, remoteStart;
      OnlyCounters();
    }

    method LoadTransactions(ghost c: Core, ts: seq<Contents.Transaction>, ghost known: set<EvseStatus.ChargePoint>)
      requires CoreOk() && Model() == c && known == stations.cps.Values
      modifies this`nextTransaction, stations, known
      ensures CoreOk() && Model() == Durable.LoadTxs(c, ts)
    {
      ghost var p := stations.Part(nextTransaction);
      LoadOnStations(c, p, ts);
      RestoreTransactions(ts, known);
    }

    method RestoreTransactions(ts: seq<Contents.Transaction>, ghost known: set<EvseStatus.ChargePoint>)
      requires CoreOk() && known == stations.cps.Values
      modifies this`nextTransaction, stations, known
      ensures CoreOk()
      ensures stations.Part(nextTransaction) == Durable.LoadTxs(old(stations.Part(nextTransaction)), ts)
      ensures Model() == old(Model()).(txs := stations.Txs(), txSeq := stations.txSeq,
                                       nextTransaction := nextTransaction)
    {
      var next := stations.Restore(ts, nextTransaction, known);
      label restored:
      nextTransaction := next;
      SameStations@restored();
      OnlyStations();
    }

    method LoadReservations(ghost c: Core, d: Durable.Durable, now: Stamp) returns (dropped: bool)
      requires CoreOk() && Model() == c && c.reservations == map[] && Durable.WellFormed(d)
      modifies table`reservations, table`nextReservation, table.clock`timers, table.clock`all
      ensures CoreOk() && Model() == Durable.LoadReservations(c, cfg, now, d.reservations)
      ensures dropped <==> Durable.Drops(d, cfg, now)
    {
      assert table.reservations.Keys == table.Entries().Keys;
      LoadOnTable(c, table.Part(), cfg, now, d.reservations);
      dropped := table.Restore(d.reservations, now);
      OnlyTable();
    }
  }
}
