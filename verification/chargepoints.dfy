/** The charge points core knows (internal/core/service.go) and their transactions
    (internal/core/transactions.go). */
module ChargePoints {
  import opened Common
  import opened Core
  import opened EvseStatus
  import opened Listing
  import Durable
  import Contents

  /** Charge points without transactions leave no trace in the model. */
  function NonEmpty(m: Transactions): Transactions {
    map cp | cp in m && m[cp] != map[] :: m[cp]
  }

  lemma OneMore(m: Transactions, id: string)
    requires id !in m
    ensures NonEmpty(m[id := map[]]) == NonEmpty(m)
  {
  }

  lemma RecordedAmong(m: Transactions, id: string, tx: Transaction)
    requires id in m
    ensures NonEmpty(m[id := m[id][tx.id := tx]]) == Recorded(NonEmpty(m), id, tx)
  {
    assert tx.id in m[id][tx.id := tx];
  }

  /** The counter stays above every numeric id. */
  function Raised(next: int, id: string): (n: int)
    ensures n >= next
  {
    match Atoi(id)
    case Some(v) => Max(next, v + 1)
    case None => next
  }

  lemma LoadTxIs(c: Core, t: Contents.Transaction)
    ensures Durable.LoadTx(c, t) ==
            c.(txs := Recorded(c.txs, t.cp, Durable.RestoredTx(t, c.txSeq + 1)),
               txSeq := c.txSeq + 1,
               nextTransaction := Raised(c.nextTransaction, t.id))
  {
  }

  lemma OneMoreLoaded(c: Core, p: Core, ts: seq<Contents.Transaction>, k: nat)
    requires k < |ts| && p == Durable.LoadTxs(c, ts[..k])
    ensures Durable.LoadTx(p, ts[k]) == Durable.LoadTxs(c, ts[..k + 1])
    ensures Durable.LoadTx(p, ts[k]) ==
            p.(txs := Recorded(p.txs, ts[k].cp, Durable.RestoredTx(ts[k], p.txSeq + 1)),
               txSeq := p.txSeq + 1,
               nextTransaction := Raised(p.nextTransaction, ts[k].id))
  {
    assert ts[..k + 1][..k] == ts[..k];
    LoadTxIs(p, ts[k]);
  }

  lemma OneMoreOk(before: Transactions, txSeq: nat, txs: Transactions, id: string, tx: Transaction)
    requires TxsOk(before, txSeq) && tx.seqNo == txSeq + 1 && txs == Recorded(before, id, tx)
    ensures TxsOk(txs, txSeq + 1)
  {
    RecordedKeeps(before, txSeq, id, tx);
  }

  lemma InTxs(m: Transactions, id: string, txId: string)
    requires id in m
    ensures HasTx(NonEmpty(m), id, txId) <==> txId in m[id]
    ensures HasTx(NonEmpty(m), id, txId) ==> NonEmpty(m)[id] == m[id]
  {
  }

  /** The events of service.go, without the fields that concern transactions and
      reservations. */
  datatype Event =
    | CameOnline(at: Stamp, cp: string)
    | WentOffline(at: Stamp, cp: string, reason: string)
    | StationChanged(at: Stamp, cp: string, was: EvseStatus.Status, now: EvseStatus.Status, errorCode: string)
    | EvseChanged(cp: string, change: Change)
    | MeterValues(at: Stamp, cp: string, evse: string, summary: string)

  function OfEvses(cp: string, changes: seq<Change>): (events: seq<Event>)
    ensures |events| == |changes|
    ensures forall i :: 0 <= i < |changes| ==> events[i] == EvseChanged(cp, changes[i])
  {
    seq(|changes|, i requires 0 <= i < |changes| => EvseChanged(cp, changes[i]))
  }

  class Stations {
    const cfg: Config
    var cps: map<string, ChargePoint>
    var txSeq: nat

    /** The configured station is known, and each of its configured EVSEs advertises
        the status that follows from what has been reported. */
    ghost predicate Ok()
      reads this, cps.Values
    {
      StatusOk() && TxsOk(Txs(), txSeq)
    }

    ghost predicate StatusOk()
      reads this`cps, cps.Values
    {
      && (forall id :: id in cps ==> cps[id].id == id && cps[id].Valid())
      && cfg.charger in cps
      && (forall e :: e in cfg.evses ==> cps[cfg.charger].UpToDate(e.uid))
    }

    ghost function AllTxs(): Transactions
      reads this`cps, cps.Values`transactions
    {
      map cp | cp in cps :: cps[cp].transactions
    }

    ghost function Txs(): Transactions
      reads this`cps, cps.Values`transactions
    {
      NonEmpty(AllTxs())
    }

    ghost function Named(id: string): set<ChargePoint>
      reads this`cps
    {
      if id in cps then {cps[id]} else {}
    }

    /** The status change events generated for a charge point so far. */
    ghost function Told(id: string): seq<Change>
      reads this`cps, Named(id)
    {
      if id in cps then cps[id].changes else []
    }

    constructor (cfg: Config, cp: ChargePoint)
      requires cp.id == cfg.charger && cp.Valid() && cp.transactions == map[]
      requires forall e :: e in cfg.evses ==> cp.UpToDate(e.uid)
      ensures this.cfg == cfg && cps == map[cfg.charger := cp]
      ensures Ok() && Txs() == map[] && txSeq == 0
    {
      this.cfg, cps, txSeq := cfg, map[cfg.charger := cp], 0;
    }

    /** The configured station with its EVSEs, all UNKNOWN. */
    static method New(cfg: Config) returns (s: Stations)
      ensures fresh(s) && s.cfg == cfg && s.Ok() && s.Txs() == map[] && s.txSeq == 0
      ensures fresh(s.cps.Values)
    {
      var cp := new ChargePoint(cfg.charger);
      cp.AddEvses(cfg.evses);
      s := new Stations(cfg, cp);
    }

    /** The status of a station as a whole; one not heard of yet counts as available. */
    function StationOf(id: string): EvseStatus.Status
      reads this`cps, Named(id)`station
    {
      if id in cps then cps[id].station else Available
    }

    /** What has been reported for its connectors, by EVSE. */
    function ReportsOf(id: string): map<string, EvseStatus.Status>
      reads this`cps, Named(id)`reported
    {
      if id in cps then cps[id].reported else map[]
    }

    method Ensure(id: string) returns (cp: ChargePoint)
      requires StatusOk()
      modifies this`cps
      ensures StatusOk() && id in cps && cps[id] == cp && cp.id == id
      ensures fresh(cps.Values - old(cps.Values))
      ensures cps == old(cps)[id := cp] && (if id in old(cps) then cps == old(cps) else fresh(cp))
      ensures id !in old(cps) ==> cp.transactions == map[] && cp.changes == [] && !cp.online && cp.station == Available
      ensures id !in old(cps) ==> cp.reported == map[]
    {
      if id in cps {
        return cps[id];
      }
      cp := new ChargePoint(id);
      cps := cps[id := cp];
    }

    /** ensure, seen from outside. */
    method Enlist(id: string) returns (cp: ChargePoint)
      requires StatusOk()
      modifies this`cps
      ensures StatusOk() && id in cps && cps[id] == cp && cp.id == id
      ensures Txs() == old(Txs()) && Told(id) == old(Told(id))
      ensures if id in old(cps) then cps == old(cps)
              else fresh(cp) && !cp.online && cp.station == Available && cp.reported == map[]
    {
      cp := Ensure(id);
      EnsureKeepsTxs(id);
    }

    twostate lemma SameTxs()
      requires cps == old(cps) && forall i :: i in cps ==> cps[i].transactions == old(cps[i].transactions)
      ensures Txs() == old(Txs())
    {
      assert AllTxs() == old(AllTxs());
    }

    twostate lemma EnsureKeepsTxs(id: string)
      requires id in cps && cps == if id in old(cps) then old(cps) else old(cps)[id := cps[id]]
      requires forall i :: i in old(cps) ==> cps[i].transactions == old(cps[i].transactions)
      requires id !in old(cps) ==> cps[id].transactions == map[]
      ensures Txs() == old(Txs())
    {
      if id in old(cps) {
        assert AllTxs() == old(AllTxs());
      } else {
        assert AllTxs() == old(AllTxs())[id := map[]];
        OneMore(old(AllTxs()), id);
      }
    }

    /** Connected: the events are published in this order. */
    method Connected(id: string, at: Stamp) returns (events: seq<Event>)
      requires Ok()
      modifies this`cps, Named(id)`online, Named(id)`effective, Named(id)`changes
      ensures Ok() && Txs() == old(Txs()) && id in cps && cps[id].online && cps[id].Advertises()
      ensures old(Told(id)) <= Told(id)
      ensures events == [CameOnline(at, id)] + OfEvses(id, Told(id)[|old(Told(id))|..])
    {
      var changes := Switch(id, true, at);
      events := [CameOnline(at, id)] + OfEvses(id, changes);
    }

    /** If the charge point was not connected there is no event at all. */
    method Disconnected(id: string, reason: string, at: Stamp) returns (events: seq<Event>)
      requires Ok()
      modifies this`cps, Named(id)`online, Named(id)`effective, Named(id)`changes
      ensures Ok() && Txs() == old(Txs()) && id in cps && !cps[id].online
      ensures old(id in cps && cps[id].online) ==>
                forall uid :: uid in cps[id].effective ==> cps[id].effective[uid] == EvseStatus.Unknown
      ensures old(Told(id)) <= Told(id)
      ensures events == if old(id in cps && cps[id].online)
                        then [WentOffline(at, id, reason)] + OfEvses(id, Told(id)[|old(Told(id))|..]) else []
      ensures !old(id in cps && cps[id].online) ==> Told(id) == old(Told(id))
    {
      if id in cps && cps[id].online {
        var changes := Switch(id, false, at);
        events := [WentOffline(at, id, reason)] + OfEvses(id, changes);
      } else {
        var cp := Enlist(id);
        events := [];
      }
    }

    method Switch(id: string, up: bool, at: Stamp) returns (changes: seq<Change>)
      requires StatusOk()
      modifies this`cps, Named(id)`online, Named(id)`effective, Named(id)`changes
      ensures StatusOk() && Txs() == old(Txs()) && id in cps && cps[id].online == up && cps[id].Advertises()
      ensures Told(id) == old(Told(id)) + changes
    {
      var cp := Enlist(id);
      changes := SwitchAt(cp, up, at);
    }

    method SwitchAt(cp: ChargePoint, up: bool, at: Stamp) returns (changes: seq<Change>)
      requires StatusOk() && cp.id in cps && cps[cp.id] == cp
      modifies cp`online, cp`effective, cp`changes
      ensures StatusOk() && Txs() == old(Txs()) && cp.online == up && cp.Advertises()
      ensures cp.changes == old(cp.changes) + changes
    {
      changes := cp.SetOnline(up, at);
      SameTxs();
    }

    /** Connector 0 stands for the station as a whole; its event comes first, and only
        if the status is another one. */
    method SetConnectorStatus(id: string, connector: int, status: EvseStatus.Status, code: string, at: Stamp)
      returns (events: seq<Event>)
      requires Ok()
      modifies this`cps, Named(id)`station, Named(id)`order, Named(id)`connectorIds, Named(id)`reported
      modifies Named(id)`errorCode, Named(id)`effective, Named(id)`changes
      ensures Ok() && Txs() == old(Txs()) && id in cps && cps[id].Advertises()
      ensures connector == 0 ==> StationOf(id) == status && ReportsOf(id) == old(ReportsOf(id))
      ensures connector != 0 ==>
                var uid := EvseUid(cfg, id, connector);
                && uid in cps[id].effective && StationOf(id) == old(StationOf(id))
                && ReportsOf(id) == old(ReportsOf(id))[uid := status]
      ensures forall uid :: Configured(cfg, id, connector, uid) ==>
                ReportsOf(id) == old(ReportsOf(id))[uid := status]
      ensures old(Told(id)) <= Told(id)
      ensures events == (if connector == 0 && old(StationOf(id)) != status
                         then [StationChanged(at, id, old(StationOf(id)), status, code)] else [])
                        + OfEvses(id, Told(id)[|old(Told(id))|..])
    {
      ConfiguredConnector(cfg, id, connector);
      var was := StationOf(id);
      var changes := SetStatusOf(id, EvseUid(cfg, id, connector), connector, status, code, at);
      events := if connector == 0 && was != status then [StationChanged(at, id, was, status, code)] else [];
      events := events + OfEvses(id, changes);
    }

    method SetStatusOf(id: string, uid: string, connector: int, status: EvseStatus.Status, code: string, at: Stamp)
      returns (changes: seq<Change>)
      requires StatusOk()
      modifies this`cps, Named(id)`station, Named(id)`order, Named(id)`connectorIds, Named(id)`reported
      modifies Named(id)`errorCode, Named(id)`effective, Named(id)`changes
      ensures StatusOk() && Txs() == old(Txs()) && id in cps && cps[id].Advertises()
      ensures connector == 0 ==> StationOf(id) == status && ReportsOf(id) == old(ReportsOf(id))
      ensures connector != 0 ==>
                uid in cps[id].effective && StationOf(id) == old(StationOf(id))
                && ReportsOf(id) == old(ReportsOf(id))[uid := status]
      ensures Told(id) == old(Told(id)) + changes
    {
      var cp := Enlist(id);
      changes := SetStatusAt(cp, uid, connector, status, code, at);
    }

    method SetStatusAt(cp: ChargePoint, uid: string, connector: int, status: EvseStatus.Status, code: string, at: Stamp)
      returns (changes: seq<Change>)
      requires StatusOk() && cp.id in cps && cps[cp.id] == cp
      modifies cp`station, cp`order, cp`connectorIds, cp`reported, cp`errorCode, cp`effective, cp`changes
      ensures StatusOk() && Txs() == old(Txs()) && cp.Advertises()
      ensures connector == 0 ==> cp.station == status && cp.reported == old(cp.reported)
      ensures connector != 0 ==>
                uid in cp.effective && cp.station == old(cp.station)
                && cp.reported == old(cp.reported)[uid := status]
      ensures cp.changes == old(cp.changes) + changes
    {
      changes := cp.SetStatus(uid, connector, status, code, at);
      SameTxs();
    }

    /** The EVSE becomes known, if it was not; configured ones are not touched. */
    method RecordMeterValues(id: string, connector: int, summary: string, at: Stamp) returns (event: Event)
      requires Ok()
      modifies this`cps, Named(id)`order, Named(id)`connectorIds, Named(id)`effective
      ensures Ok() && Txs() == old(Txs()) && id in cps && EvseUid(cfg, id, connector) in cps[id].effective
      ensures Told(id) == old(Told(id)) && event == MeterValues(at, id, EvseUid(cfg, id, connector), summary)
      ensures forall uid :: Configured(cfg, id, connector, uid) ==> event.evse == uid
    {
      ConfiguredConnector(cfg, id, connector);
      var uid := EvseUid(cfg, id, connector);
      Know(id, uid, connector);
      event := MeterValues(at, id, uid, summary);
    }

    method Know(id: string, uid: string, connector: int)
      requires StatusOk()
      modifies this`cps, Named(id)`order, Named(id)`connectorIds, Named(id)`effective
      ensures StatusOk() && Txs() == old(Txs()) && id in cps && uid in cps[id].effective
      ensures Told(id) == old(Told(id))
    {
      var cp := Enlist(id);
      Learn(cp, uid, connector);
    }

    method Learn(cp: ChargePoint, uid: string, connector: int)
      requires StatusOk() && cp.id in cps && cps[cp.id] == cp
      modifies cp`order, cp`connectorIds, cp`effective
      ensures StatusOk() && Txs() == old(Txs()) && uid in cp.effective
    {
      assert forall i :: i in cps ==> cps[i].id == i;
      cp.AddEvse(uid, connector);
      SameTxs();
    }

    /** Records a new transaction of a charge point. */
    method Book(id: string, tx: Transaction)
      requires Ok() && tx.seqNo == txSeq + 1
      modifies this`cps, this`txSeq
      modifies Named(id)`order, Named(id)`connectorIds, Named(id)`effective, Named(id)`transactions
      ensures Ok() && txSeq == tx.seqNo && fresh(cps.Values - old(cps.Values))
      ensures Txs() == Recorded(old(Txs()), id, tx)
    {
      ghost var before := Txs();
      Enter(id, tx);
      Count(before, id, tx);
    }

    method Count(ghost before: Transactions, id: string, tx: Transaction)
      requires StatusOk() && TxsOk(before, txSeq) && Txs() == Recorded(before, id, tx) && tx.seqNo == txSeq + 1
      modifies this`txSeq
      ensures Ok() && txSeq == tx.seqNo && Txs() == Recorded(before, id, tx)
    {
      ghost var txs := Txs();
      OneMoreOk(before, txSeq, txs, id, tx);
      txSeq := txSeq + 1;
      assert Txs() == txs;
    }

    method Enter(id: string, tx: Transaction)
      requires StatusOk()
      modifies this`cps, Named(id)`order, Named(id)`connectorIds, Named(id)`effective, Named(id)`transactions
      ensures StatusOk() && fresh(cps.Values - old(cps.Values))
      ensures Txs() == Recorded(old(Txs()), id, tx)
    {
      var cp := Ensure(id);
      EnsureKeepsTxs(id);
      ghost var all := AllTxs();
      Add(cp, tx);
      RecordedAmong(all, id, tx);
    }

    method Add(cp: ChargePoint, tx: Transaction)
      requires StatusOk() && cp.id in cps && cps[cp.id] == cp
      modifies cp`order, cp`connectorIds, cp`effective, cp`transactions
      ensures StatusOk()
      ensures AllTxs() == old(AllTxs())[cp.id := old(cp.transactions)[tx.id := tx]]
    {
      assert forall i :: i in cps ==> cps[i].id == i;
      cp.AddTransaction(tx);
      OnlyIts(cp);
    }

    twostate lemma OnlyIts(cp: ChargePoint)
      requires cps == old(cps) && cp.id in cps && cps[cp.id] == cp
      requires forall i :: i in cps && i != cp.id ==> cps[i].transactions == old(cps[i].transactions)
      ensures AllTxs() == old(AllTxs())[cp.id := cp.transactions]
    {
    }

    /** The section of StopTransaction. */
    method Stop(id: string, txId: string, meterStop: int, reason: string, at: Stamp)
      returns (out: Option<Transaction>)
      requires Ok()
      modifies this`cps, Named(id)`transactions
      ensures Ok()
      ensures out.Some? <==> Running(old(Txs()), id, txId)
      ensures out.Some? ==>
                out.value == old(Txs())[id][txId].(stoppedAt := Some(at), meterStop := meterStop, reason := reason)
      ensures Txs() == if out.Some? then Recorded(old(Txs()), id, out.value) else old(Txs())
    {
      var cp := Ensure(id);
      EnsureKeepsTxs(id);
      ghost var all := AllTxs();
      InTxs(all, id, txId);
      if txId !in cp.transactions || cp.transactions[txId].stoppedAt != None {
        return None;
      }
      assert HasTx(Txs(), id, txId);
      var tx := cp.transactions[txId].(stoppedAt := Some(at), meterStop := meterStop, reason := reason);
      Put(cp, tx);
      RecordedAmong(all, id, tx);
      RecordedKeeps(old(Txs()), txSeq, id, tx);
      out := Some(tx);
    }

    method Put(cp: ChargePoint, tx: Transaction)
      requires StatusOk() && cp.id in cps && cps[cp.id] == cp
      modifies cp`transactions
      ensures StatusOk()
      ensures AllTxs() == old(AllTxs())[cp.id := old(cp.transactions)[tx.id := tx]]
    {
      assert forall i :: i in cps ==> cps[i].id == i;
      cp.transactions := cp.transactions[tx.id := tx];
      OnlyIts(cp);
    }

    // ----- restart ----------------------------------------------------------------------

    /** A core with these transactions and nothing else. */
    ghost function Part(nextTransaction: int): Core
      reads this`cps, this`txSeq, cps.Values`transactions
    {
      Core(map[], Txs(), txSeq, 1, nextTransaction, 1)
    }

    /** The loop of loadLocked over the stored transactions. */
    method Restore(ts: seq<Contents.Transaction>, next: int, ghost known: set<ChargePoint>)
      returns (nextTransaction: int)
      requires Ok() && known == cps.Values
      modifies this, known
      ensures Ok() && fresh(cps.Values - known) && nextTransaction >= next
      ensures Part(nextTransaction) == Durable.LoadTxs(old(Part(next)), ts)
    {
      nextTransaction := next;
      ghost var c := Part(next);
      for k := 0 to |ts|
        invariant Ok() && fresh(cps.Values - known) && nextTransaction >= next
        invariant Part(nextTransaction) == Durable.LoadTxs(c, ts[..k])
      {
        nextTransaction := RestoreNext(ts, k, nextTransaction, c, cps.Values);
      }
      assert ts[..|ts|] == ts;
    }

    method RestoreNext(ts: seq<Contents.Transaction>, k: nat, next: int, ghost c: Core, ghost known: set<ChargePoint>)
      returns (nextTransaction: int)
      requires Ok() && known == cps.Values && k < |ts| && Part(next) == Durable.LoadTxs(c, ts[..k])
      modifies this, known
      ensures Ok() && fresh(cps.Values - known) && nextTransaction >= next
      ensures Part(nextTransaction) == Durable.LoadTxs(c, ts[..k + 1])
    {
      OneMoreLoaded(c, Part(next), ts, k);
      RestoreOne(ts[k], Txs(), cps.Values);
      nextTransaction := Raised(next, ts[k].id);
    }

    method RestoreOne(t: Contents.Transaction, ghost txs: Transactions, ghost known: set<ChargePoint>)
      requires Ok() && known == cps.Values && txs == Txs()
      modifies this, known
      ensures Ok() && fresh(cps.Values - known) && txSeq == old(txSeq) + 1
      ensures Txs() == Recorded(txs, t.cp, Durable.RestoredTx(t, txSeq))
    {
      Book(t.cp, Durable.RestoredTx(t, txSeq + 1));
    }

    // ----- what is written ------------------------------------------------------------

    /** The second half of persistableLocked. */
    method PersistableTransactions(ghost txs: Transactions) returns (out: seq<Contents.Transaction>)
      requires Ok() && txs == Txs()
      ensures out == Ascending(Durable.RunningBySeq(txs))
    {
      var active: seq<Session> := [];
      var rest := cps.Keys;
      while rest != {}
        invariant rest <= cps.Keys
        invariant Visited(active, rest, txs)
      {
        assert (forall i :: i !in rest) ==> rest == {};
        var cp :| cp in rest;
        assert cps[cp].transactions != map[] ==> cp in txs && txs[cp] == cps[cp].transactions;
        assert forall id :: HasTx(txs, cp, id) <==> id in cps[cp].transactions;
        var more := SessionsOf(cp, cps[cp].transactions, txs, txSeq);
        Visit(active, more, rest, cp, txs, txSeq);
        active := active + more;
        rest := rest - {cp};
      }
      RunningInOrder(active, txs, txSeq);
      out := StoredSessions(SortBy(active, SeqOf));
    }
  }

  ghost predicate IsSession(txs: Transactions, x: Session) {
    Running(txs, x.cp, x.tx.id) && x.tx == txs[x.cp][x.tx.id]
  }

  /** The sessions found once all charge points but the rest have been visited. */
  ghost predicate Visited(found: seq<Session>, rest: set<string>, txs: Transactions) {
    ApartBy(found, SeqOf) && forall x :: x in found <==> x.cp !in rest && IsSession(txs, x)
  }

  lemma Visit(found: seq<Session>, more: seq<Session>, rest: set<string>, cp: string, txs: Transactions, txSeq: nat)
    requires TxsOk(txs, txSeq) && Visited(found, rest, txs) && cp in rest
    requires ApartBy(more, SeqOf) && forall x :: x in more <==> x.cp == cp && IsSession(txs, x)
    ensures Visited(found + more, rest - {cp}, txs)
  {
    Apart(found, more, txs, txSeq);
  }

  lemma Apart(a: seq<Session>, b: seq<Session>, txs: Transactions, txSeq: nat)
    requires TxsOk(txs, txSeq) && ApartBy(a, SeqOf) && ApartBy(b, SeqOf)
    requires forall x :: x in a ==> IsSession(txs, x)
    requires forall x :: x in b ==> IsSession(txs, x)
    requires forall x, y :: x in a && y in b ==> x.cp != y.cp || x.tx.id != y.tx.id
    ensures ApartBy(a + b, SeqOf)
  {
    var c := a + b;
    forall i, j | 0 <= i < j < |c|
      ensures SeqOf(c[i]) != SeqOf(c[j])
    {
      if i < |a| && j >= |a| {
        assert c[i] in a && c[j] in b;
        assert HasTx(txs, c[i].cp, c[i].tx.id) && HasTx(txs, c[j].cp, c[j].tx.id);
      }
    }
  }

  /** The running transactions of one charge point. */
  method SessionsOf(cp: string, m: map<string, Transaction>, ghost txs: Transactions, ghost txSeq: nat)
    returns (out: seq<Session>)
    requires TxsOk(txs, txSeq) && (forall id :: HasTx(txs, cp, id) <==> id in m)
    requires forall id :: HasTx(txs, cp, id) ==> txs[cp][id] == m[id]
    ensures ApartBy(out, SeqOf)
    ensures forall x :: x in out <==> x.cp == cp && IsSession(txs, x)
  {
    out := [];
    var rest := m.Keys;
    while rest != {}
      invariant rest <= m.Keys
      invariant ApartBy(out, SeqOf)
      invariant forall x :: x in out <==> x.cp == cp && x.tx.id !in rest && IsSession(txs, x)
    {
      assert (forall i :: i !in rest) ==> rest == {};
      var id :| id in rest;
      assert HasTx(txs, cp, id);
      if m[id].stoppedAt == None {
        var x := Session(cp, m[id]);
        assert IsSession(txs, x);
        Apart(out, [x], txs, txSeq);
        out := out + [x];
      }
      rest := rest - {id};
    }
  }
}
