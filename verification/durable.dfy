/** What core writes to the state file and what it makes of it at the next start
    (internal/core/persist.go). */
module Durable {
  import opened Common
  import opened Core
  import Contents

  function Stored(r: Reservation): Contents.Reservation {
    Contents.Reservation(r.id, r.ocpiId, r.cp, r.evse, r.tag, r.expiresAt, r.createdAt, r.source, r.responseUrl)
  }

  function StoredTx(cp: string, t: Transaction): Contents.Transaction {
    Contents.Transaction(t.id, cp, t.evse, t.connector, t.tag, t.meterStart, t.startedAt, t.reservationId)
  }

  function ActiveStored(rs: map<int, Entry>): map<int, Contents.Reservation> {
    map id | id in rs && rs[id].res.status == Active :: Stored(rs[id].res)
  }

  function RunningSeqs(txs: Transactions): set<int> {
    set cp, id | cp in txs && id in txs[cp] && txs[cp][id].stoppedAt == None :: txs[cp][id].seqNo
  }

  ghost predicate RunsAs(txs: Transactions, q: int, cp: string, id: string) {
    Running(txs, cp, id) && txs[cp][id].seqNo == q
  }

  lemma SomeRunsAs(txs: Transactions, q: int)
    requires q in RunningSeqs(txs)
    ensures exists cp, id :: RunsAs(txs, q, cp, id)
  {
    var cp, id :| cp in txs && id in txs[cp] && txs[cp][id].stoppedAt == None && txs[cp][id].seqNo == q;
    assert RunsAs(txs, q, cp, id);
  }

  ghost function RunningAt(txs: Transactions, q: int): Contents.Transaction
    requires q in RunningSeqs(txs)
  {
    SomeRunsAs(txs, q);
    var cp, id :| RunsAs(txs, q, cp, id);
    StoredTx(cp, txs[cp][id])
  }

  ghost function RunningBySeq(txs: Transactions): map<int, Contents.Transaction> {
    map q | q in RunningSeqs(txs) :: RunningAt(txs, q)
  }

  /** The parts of the state file that core owns. */
  datatype Durable = Durable(
    nextReservation: int,
    nextTransaction: int,
    nextRemoteStart: int,
    reservations: seq<Contents.Reservation>,
    transactions: seq<Contents.Transaction>)

  /** What persist reads under the lock: the counters, the active reservations by
      id and the running transactions in the order they began. */
  ghost function Snapshot(c: Core): Durable {
    Durable(c.nextReservation, c.nextTransaction, c.nextRemoteStart,
            Ascending(ActiveStored(c.reservations)), Ascending(RunningBySeq(c.txs)))
  }

  /** The edit persist makes to the stored state. */
  function Overlay(s: Contents.State, d: Durable): Contents.State {
    s.(nextReservation := d.nextReservation, nextTransaction := d.nextTransaction,
       nextRemoteStart := d.nextRemoteStart, reservations := d.reservations, transactions := d.transactions)
  }

  function Part(s: Contents.State): Durable {
    Durable(s.nextReservation, s.nextTransaction, s.nextRemoteStart, s.reservations, s.transactions)
  }

  function Normal(d: Durable): Durable {
    d.(reservations := Contents.UtcReservations(d.reservations),
       transactions := Contents.UtcTransactions(d.transactions))
  }

  /** Writing core's part leaves the OCPI registration as it is, and what a later
      start reads back is core's part in normal form. */
  lemma OverlayKeepsRegistration(s: Contents.State, d: Durable)
    requires Contents.Normal(s) == s
    ensures Contents.Normal(Overlay(s, d)).ocpi == s.ocpi
    ensures Contents.Normal(Overlay(s, d)).version == s.version
    ensures Part(Contents.Normal(Overlay(s, d))) == Normal(d)
  {
  }

  // ----- loading -------------------------------------------------------------

  function RestoredTx(t: Contents.Transaction, seqNo: nat): Transaction {
    Transaction(t.id, t.evse, t.connector, t.tag, t.meterStart, t.startedAt, t.reservationId, None, 0, "", seqNo)
  }

  function LoadTx(c: Core, t: Contents.Transaction): Core {
    c.(txs := Recorded(c.txs, t.cp, RestoredTx(t, c.txSeq + 1)),
       txSeq := c.txSeq + 1,
       nextTransaction := match Atoi(t.id)
                          case Some(n) => Max(c.nextTransaction, n + 1)
                          case None => c.nextTransaction)
  }

  /** The loop over the stored transactions, up to the end of the list. */
  function LoadTxs(c: Core, ts: seq<Contents.Transaction>): Core {
    if ts == [] then c else LoadTx(LoadTxs(c, ts[..|ts| - 1]), ts[|ts| - 1])
  }

  /** A stored reservation is taken back if it has not expired and its EVSE is
      still configured. */
  predicate Keeps(cfg: Config, now: Stamp, r: Contents.Reservation) {
    r.expiresAt.at > now.at && ConnectorOf(cfg.evses, r.evse).Some?
  }

  function Restored(cfg: Config, r: Contents.Reservation): Reservation
    requires ConnectorOf(cfg.evses, r.evse).Some?
  {
    Reservation(r.id, r.ocpiId, r.cp, r.evse, ConnectorOf(cfg.evses, r.evse).value, r.tag,
                r.expiresAt, r.createdAt, r.source, r.responseUrl, Active)
  }

  function LoadReservation(c: Core, cfg: Config, now: Stamp, r: Contents.Reservation): Core {
    if Keeps(cfg, now, r) then
      c.(reservations := c.reservations[r.id := Entry(Restored(cfg, r), true)],
         nextReservation := Max(c.nextReservation, r.id + 1))
    else c
  }

  function LoadReservations(c: Core, cfg: Config, now: Stamp, rs: seq<Contents.Reservation>): Core {
    if rs == [] then c
    else LoadReservation(LoadReservations(c, cfg, now, rs[..|rs| - 1]), cfg, now, rs[|rs| - 1])
  }

  function Blank(d: Durable): Core {
    Core(map[], map[], 0, Max(d.nextReservation, 1), Max(d.nextTransaction, 1), Max(d.nextRemoteStart, 1))
  }

  /** loadLocked. */
  function Load(d: Durable, cfg: Config, now: Stamp): Core {
    LoadReservations(LoadTxs(Blank(d), d.transactions), cfg, now, d.reservations)
  }

  predicate Drops(d: Durable, cfg: Config, now: Stamp) {
    exists r :: r in d.reservations && !Keeps(cfg, now, r)
  }

  // ----- lists as core writes them ---------------------------------------------

  ghost predicate DistinctIds(rs: seq<Contents.Reservation>) {
    forall i, j :: 0 <= i < j < |rs| ==> rs[i].id != rs[j].id && rs[i].evse != rs[j].evse
  }

  ghost predicate DistinctTxs(ts: seq<Contents.Transaction>) {
    forall i, j :: 0 <= i < j < |ts| ==> ts[i].cp != ts[j].cp || ts[i].id != ts[j].id
  }

  /** What a file written by core looks like. */
  ghost predicate WellFormed(d: Durable) {
    && DistinctIds(d.reservations)
    && DistinctTxs(d.transactions)
    && (forall i :: 0 <= i < |d.reservations| ==> 1 <= d.reservations[i].id < d.nextReservation)
  }

  ghost predicate IncreasingIds(rs: seq<Contents.Reservation>) {
    forall i, j :: 0 <= i < j < |rs| ==> rs[i].id < rs[j].id
  }

  /** A well-formed file in the form persist and the store give it. */
  ghost predicate FileOk(d: Durable) {
    WellFormed(d) && IncreasingIds(d.reservations) && Normal(d) == d
  }

  lemma RunningFound(txs: Transactions, txSeq: nat, q: int)
    requires TxsOk(txs, txSeq) && q in RunningSeqs(txs)
    ensures exists cp, id :: RunsAs(txs, q, cp, id) && RunningAt(txs, q) == StoredTx(cp, txs[cp][id])
  {
    SomeRunsAs(txs, q);
  }

  lemma RunningIs(txs: Transactions, txSeq: nat, cp: string, id: string)
    requires TxsOk(txs, txSeq) && Running(txs, cp, id)
    ensures txs[cp][id].seqNo in RunningSeqs(txs)
    ensures RunningBySeq(txs)[txs[cp][id].seqNo] == StoredTx(cp, txs[cp][id])
  {
    var q := txs[cp][id].seqNo;
    assert RunsAs(txs, q, cp, id);
    RunningFound(txs, txSeq, q);
    var p, i :| RunsAs(txs, q, p, i) && RunningAt(txs, q) == StoredTx(p, txs[p][i]);
    assert HasTx(txs, p, i) && HasTx(txs, cp, id);
  }

  lemma SnapshotWellFormed(c: Core, cfg: Config)
    requires Valid(c, cfg)
    ensures WellFormed(Snapshot(c))
  {
    var rs := Ascending(ActiveStored(c.reservations));
    var ids := Sorted(ActiveStored(c.reservations).Keys);
    forall i | 0 <= i < |rs|
      ensures ids[i] in c.reservations && rs[i] == Stored(c.reservations[ids[i]].res)
    {
    }
    assert forall i :: 0 <= i < |rs| ==> rs[i].id == ids[i] && rs[i].evse == c.reservations[ids[i]].res.evse;
    DistinctSnapshotTxs(c.txs, c.txSeq);
  }

  lemma RunningCount(txs: Transactions)
    ensures |Ascending(RunningBySeq(txs))| == |RunningSeqs(txs)|
  {
    assert RunningBySeq(txs).Keys == RunningSeqs(txs);
    SortedSize(RunningSeqs(txs));
  }

  /** The i-th transaction written is the one with the i-th smallest number. */
  lemma RunningListed(txs: Transactions, txSeq: nat, i: int)
    requires TxsOk(txs, txSeq) && 0 <= i < |Ascending(RunningBySeq(txs))|
    ensures |Sorted(RunningSeqs(txs))| == |Ascending(RunningBySeq(txs))|
    ensures exists cp, id :: RunsAs(txs, Sorted(RunningSeqs(txs))[i], cp, id)
              && Ascending(RunningBySeq(txs))[i] == StoredTx(cp, txs[cp][id])
  {
    var m := RunningBySeq(txs);
    assert m.Keys == RunningSeqs(txs);
    var q := Sorted(RunningSeqs(txs))[i];
    assert q in m && Ascending(m)[i] == m[q];
    RunningFound(txs, txSeq, q);
  }

  lemma DistinctSnapshotTxs(txs: Transactions, txSeq: nat)
    requires TxsOk(txs, txSeq)
    ensures DistinctTxs(Ascending(RunningBySeq(txs)))
  {
    var ts := Ascending(RunningBySeq(txs));
    forall i, j | 0 <= i < j < |ts|
      ensures ts[i].cp != ts[j].cp || ts[i].id != ts[j].id
    {
      RunningListed(txs, txSeq, i);
      RunningListed(txs, txSeq, j);
      var qs := Sorted(RunningSeqs(txs));
      assert qs[i] < qs[j];
      var cp, id :| RunsAs(txs, qs[i], cp, id) && ts[i] == StoredTx(cp, txs[cp][id]);
      var cp', id' :| RunsAs(txs, qs[j], cp', id') && ts[j] == StoredTx(cp', txs[cp'][id']);
    }
  }

  // ----- what loading restores ---------------------------------------------------

  ghost predicate HasIndex(ts: seq<Contents.Transaction>, cp: string, id: string) {
    exists k :: 0 <= k < |ts| && ts[k].cp == cp && ts[k].id == id
  }

  lemma {:induction false} LoadTxsExact(c: Core, ts: seq<Contents.Transaction>)
    requires c.txs == map[] && DistinctTxs(ts)
    ensures var r := LoadTxs(c, ts);
            && r.txSeq == c.txSeq + |ts|
            && (forall k :: 0 <= k < |ts| ==>
                  HasTx(r.txs, ts[k].cp, ts[k].id)
                  && r.txs[ts[k].cp][ts[k].id] == RestoredTx(ts[k], c.txSeq + k + 1))
            && (forall cp, id :: HasTx(r.txs, cp, id) ==> HasIndex(ts, cp, id))
  {
    if ts != [] {
      var init, t := ts[..|ts| - 1], ts[|ts| - 1];
      LoadTxsExact(c, init);
      var p, r := LoadTxs(c, init), LoadTxs(c, ts);
      assert DistinctTxs(init);
      forall cp, id | HasTx(r.txs, cp, id)
        ensures HasIndex(ts, cp, id)
      {
        if cp == t.cp && id == t.id {
          assert ts[|ts| - 1] == t;
        } else {
          assert HasTx(p.txs, cp, id);
          var k :| 0 <= k < |init| && init[k].cp == cp && init[k].id == id;
          assert ts[k] == init[k];
        }
      }
      forall k | 0 <= k < |ts|
        ensures HasTx(r.txs, ts[k].cp, ts[k].id)
        ensures r.txs[ts[k].cp][ts[k].id] == RestoredTx(ts[k], c.txSeq + k + 1)
      {
        if k < |init| {
          assert init[k] == ts[k];
        }
      }
    }
  }

  lemma {:induction false} LoadTxsRest(c: Core, ts: seq<Contents.Transaction>)
    requires TxsOk(c.txs, c.txSeq)
    ensures var r := LoadTxs(c, ts);
            && TxsOk(r.txs, r.txSeq)
            && r.reservations == c.reservations
            && r.nextReservation == c.nextReservation && r.nextRemoteStart == c.nextRemoteStart
            && r.nextTransaction >= c.nextTransaction
            && forall k :: 0 <= k < |ts| ==>
                 match Atoi(ts[k].id) case Some(n) => n < r.nextTransaction case None => true
  {
    if ts != [] {
      var init, t := ts[..|ts| - 1], ts[|ts| - 1];
      LoadTxsRest(c, init);
      var p := LoadTxs(c, init);
      RecordedKeeps(p.txs, p.txSeq, t.cp, RestoredTx(t, p.txSeq + 1));
      assert forall k :: 0 <= k < |init| ==> ts[k] == init[k];
    }
  }

  ghost predicate KeptAs(rs: seq<Contents.Reservation>, cfg: Config, now: Stamp, id: int) {
    exists k :: 0 <= k < |rs| && rs[k].id == id && Keeps(cfg, now, rs[k])
  }

  lemma {:induction false} LoadReservationsExact(c: Core, cfg: Config, now: Stamp, rs: seq<Contents.Reservation>)
    requires c.reservations == map[] && DistinctIds(rs)
    ensures var r := LoadReservations(c, cfg, now, rs);
            && (forall k :: 0 <= k < |rs| && Keeps(cfg, now, rs[k]) ==>
                  rs[k].id in r.reservations && r.reservations[rs[k].id] == Entry(Restored(cfg, rs[k]), true)
                  && rs[k].id < r.nextReservation)
            && (forall id :: id in r.reservations ==> KeptAs(rs, cfg, now, id))
            && r.nextReservation >= c.nextReservation
            && r == c.(reservations := r.reservations, nextReservation := r.nextReservation)
  {
    if rs != [] {
      var init, x := rs[..|rs| - 1], rs[|rs| - 1];
      LoadReservationsExact(c, cfg, now, init);
      var p, r := LoadReservations(c, cfg, now, init), LoadReservations(c, cfg, now, rs);
      assert forall k :: 0 <= k < |init| ==> rs[k] == init[k];
      forall id | id in r.reservations
        ensures KeptAs(rs, cfg, now, id)
      {
        if id in p.reservations {
          var k :| 0 <= k < |init| && init[k].id == id && Keeps(cfg, now, init[k]);
          assert rs[k].id == id;
        } else {
          assert rs[|rs| - 1].id == id;
        }
      }
    }
  }

  /** Loading a file core wrote gives a state in which everything core relies on
      holds again, whatever the new configuration. */
  lemma LoadValid(d: Durable, cfg: Config, now: Stamp)
    requires WellFormed(d)
    ensures Valid(Load(d, cfg, now), cfg)
  {
    var t := LoadTxs(Blank(d), d.transactions);
    LoadTxsRest(Blank(d), d.transactions);
    LoadedReservationsValid(t, cfg, now, d.reservations);
    LoadReservationsExact(t, cfg, now, d.reservations);
  }

  lemma LoadedReservationsValid(c: Core, cfg: Config, now: Stamp, rs: seq<Contents.Reservation>)
    requires Valid(c, cfg) && c.reservations == map[] && DistinctIds(rs)
    requires forall i :: 0 <= i < |rs| ==> 1 <= rs[i].id
    ensures Valid(LoadReservations(c, cfg, now, rs), cfg)
  {
    LoadReservationsExact(c, cfg, now, rs);
    var r := LoadReservations(c, cfg, now, rs);
    forall id | id in r.reservations
      ensures exists k :: 0 <= k < |rs| && rs[k].id == id && r.reservations[id] == Entry(Restored(cfg, rs[k]), true)
    {
      assert KeptAs(rs, cfg, now, id);
    }
  }

  lemma LoadActive(d: Durable, cfg: Config, now: Stamp)
    requires WellFormed(d)
    ensures var r := Load(d, cfg, now); forall id :: id in r.reservations ==> HasStatus(r, id, Active)
  {
    LoadTxsRest(Blank(d), d.transactions);
    var b := LoadTxs(Blank(d), d.transactions);
    LoadReservationsExact(b, cfg, now, d.reservations);
    var r := Load(d, cfg, now);
    forall id | id in r.reservations
      ensures HasStatus(r, id, Active)
    {
      assert KeptAs(d.reservations, cfg, now, id);
    }
  }

  /** Counters never fall behind the file, nor behind an id found in it. */
  lemma LoadCounters(d: Durable, cfg: Config, now: Stamp)
    requires WellFormed(d)
    ensures var r := Load(d, cfg, now);
            && d.nextReservation <= r.nextReservation
            && d.nextTransaction <= r.nextTransaction
            && d.nextRemoteStart <= r.nextRemoteStart
            && (forall id :: id in r.reservations ==> id < r.nextReservation)
            && (forall k :: 0 <= k < |d.transactions| ==>
                  match Atoi(d.transactions[k].id) case Some(n) => n < r.nextTransaction case None => true)
  {
    LoadValid(d, cfg, now);
    LoadTxsRest(Blank(d), d.transactions);
    LoadReservationsExact(LoadTxs(Blank(d), d.transactions), cfg, now, d.reservations);
  }

  // ----- restart round trip -----------------------------------------------------

  function UtcResult(r: Reservation): Reservation {
    r.(expiresAt := Utc(r.expiresAt), createdAt := Utc(r.createdAt))
  }

  /** A reservation survives a restart if it is active, not yet expired and its
      EVSE still configured. */
  predicate Survives(c: Core, cfg: Config, now: Stamp, id: int) {
    HasStatus(c, id, Active) && c.reservations[id].res.expiresAt.at > now.at
    && ConnectorOf(cfg.evses, c.reservations[id].res.evse).Some?
  }

  lemma StoredAt(c: Core, i: int)
    requires 0 <= i < |Snapshot(c).reservations|
    ensures var id := Sorted(ActiveStored(c.reservations).Keys)[i];
            HasStatus(c, id, Active)
            && Normal(Snapshot(c)).reservations[i] == Contents.UtcReservation(Stored(c.reservations[id].res))
  {
    assert Sorted(ActiveStored(c.reservations).Keys)[i] in ActiveStored(c.reservations);
  }

  lemma StoredSomewhere(c: Core, id: int)
    requires HasStatus(c, id, Active)
    ensures exists i :: 0 <= i < |Snapshot(c).reservations| && Sorted(ActiveStored(c.reservations).Keys)[i] == id
  {
    assert id in ActiveStored(c.reservations).Keys;
    assert id in Sorted(ActiveStored(c.reservations).Keys);
  }

  /** The file as it is on disk after a write of c has committed. */
  ghost function Written(c: Core): Durable {
    Normal(Snapshot(c))
  }

  lemma WrittenWellFormed(c: Core, cfg: Config)
    requires Valid(c, cfg)
    ensures WellFormed(Written(c))
  {
    SnapshotWellFormed(c, cfg);
    var d := Snapshot(c);
    forall i | 0 <= i < |d.reservations|
      ensures 1 <= d.reservations[i].id < d.nextReservation
    {
      assert Sorted(ActiveStored(c.reservations).Keys)[i] in ActiveStored(c.reservations);
    }
  }

  lemma WrittenFileOk(c: Core, cfg: Config)
    requires Valid(c, cfg)
    ensures FileOk(Written(c))
  {
    WrittenWellFormed(c, cfg);
    var d := Written(c);
    WrittenLists(c);
    var ids := Sorted(ActiveStored(c.reservations).Keys);
    assert forall i :: 0 <= i < |ids| ==> d.reservations[i].id == ids[i];
    assert Normal(d).reservations == d.reservations;
    assert Normal(d).transactions == d.transactions;
  }

  /** ids lists the active reservations of c in the order rs stores them. */
  ghost predicate Lists(c: Core, ids: seq<int>, rs: seq<Contents.Reservation>) {
    && |ids| == |rs|
    && (forall i :: 0 <= i < |ids| ==>
          HasStatus(c, ids[i], Active) && rs[i] == Contents.UtcReservation(Stored(c.reservations[ids[i]].res)))
    && (forall id :: HasStatus(c, id, Active) ==> id in ids)
  }

  lemma WrittenLists(c: Core)
    ensures Lists(c, Sorted(ActiveStored(c.reservations).Keys), Written(c).reservations)
  {
    var ids := Sorted(ActiveStored(c.reservations).Keys);
    forall i | 0 <= i < |ids|
      ensures HasStatus(c, ids[i], Active)
      ensures Written(c).reservations[i] == Contents.UtcReservation(Stored(c.reservations[ids[i]].res))
    {
      StoredAt(c, i);
    }
    forall id | HasStatus(c, id, Active)
      ensures id in ids
    {
      StoredSomewhere(c, id);
    }
  }

  /** Exactly the surviving reservations come back, each with its timer armed and
      every field but the connector (taken from the new configuration) as it was. */
  lemma RestartRestoresReservations(c: Core, cfg: Config, cfg': Config, now: Stamp)
    requires Valid(c, cfg)
    ensures var r := Load(Written(c), cfg', now);
            forall id :: id in r.reservations <==> Survives(c, cfg', now, id)
    ensures var r := Load(Written(c), cfg', now);
            forall id :: id in r.reservations && Survives(c, cfg', now, id) ==>
              var was := c.reservations[id].res;
              r.reservations[id] == Entry(UtcResult(was).(connector := ConnectorOf(cfg'.evses, was.evse).value), true)
    ensures var r := Load(Written(c), cfg', now);
            forall id :: id in r.reservations && id in c.reservations ==>
              var back, was := r.reservations[id].res, c.reservations[id].res;
              && back.id == was.id && back.ocpiId == was.ocpiId && back.cp == was.cp && back.evse == was.evse
              && back.tag == was.tag && back.source == was.source && back.responseUrl == was.responseUrl
              && back.expiresAt.at == was.expiresAt.at && back.createdAt.at == was.createdAt.at
              && back.status == Active && r.reservations[id].armed
  {
    var d := Written(c);
    WrittenWellFormed(c, cfg);
    WrittenLists(c);
    RestoresListed(c, cfg, Sorted(ActiveStored(c.reservations).Keys), d.reservations,
                   LoadTxs(Blank(d), d.transactions), cfg', now) by {
      LoadTxsRest(Blank(d), d.transactions);
    }
  }

  lemma RestoresListed(c: Core, cfg: Config, ids: seq<int>, rs: seq<Contents.Reservation>,
                       b: Core, cfg': Config, now: Stamp)
    requires Valid(c, cfg) && Lists(c, ids, rs) && DistinctIds(rs) && b.reservations == map[]
    ensures var r := LoadReservations(b, cfg', now, rs);
            forall id :: id in r.reservations <==> Survives(c, cfg', now, id)
    ensures var r := LoadReservations(b, cfg', now, rs);
            forall id :: id in r.reservations && Survives(c, cfg', now, id) ==>
              var was := c.reservations[id].res;
              r.reservations[id] == Entry(UtcResult(was).(connector := ConnectorOf(cfg'.evses, was.evse).value), true)
  {
    var r := LoadReservations(b, cfg', now, rs);
    LoadReservationsExact(b, cfg', now, rs);
    forall id
      ensures id in r.reservations <==> Survives(c, cfg', now, id)
    {
      if id in r.reservations {
        assert KeptAs(rs, cfg', now, id);
        var k :| 0 <= k < |rs| && rs[k].id == id && Keeps(cfg', now, rs[k]);
        assert ids[k] == id;
      }
      if Survives(c, cfg', now, id) {
        var k :| 0 <= k < |ids| && ids[k] == id;
        assert Keeps(cfg', now, rs[k]);
      }
    }
    forall id | id in r.reservations && Survives(c, cfg', now, id)
      ensures var was := c.reservations[id].res;
              r.reservations[id] == Entry(UtcResult(was).(connector := ConnectorOf(cfg'.evses, was.evse).value), true)
    {
      var k :| 0 <= k < |ids| && ids[k] == id;
      assert Keeps(cfg', now, rs[k]);
    }
  }

  /** load writes the file back exactly when some active reservation is gone. */
  lemma RestartDrops(c: Core, cfg': Config, now: Stamp)
    ensures Drops(Written(c), cfg', now) <==>
            exists id :: HasStatus(c, id, Active) && !Survives(c, cfg', now, id)
  {
    var rs := Written(c).reservations;
    var ids := Sorted(ActiveStored(c.reservations).Keys);
    WrittenLists(c);
    if Drops(Written(c), cfg', now) {
      var i :| 0 <= i < |rs| && !Keeps(cfg', now, rs[i]);
      assert HasStatus(c, ids[i], Active) && !Survives(c, cfg', now, ids[i]);
    }
    if id :| HasStatus(c, id, Active) && !Survives(c, cfg', now, id) {
      var i :| 0 <= i < |ids| && ids[i] == id;
      assert rs[i] in rs && !Keeps(cfg', now, rs[i]);
    }
  }

  /** A running transaction of c is numbered in r by its place in the list. */
  ghost predicate Comes(c: Core, r: Core, cp: string, id: string) {
    Running(c.txs, cp, id) && Running(r.txs, cp, id)
    && StoredTx(cp, r.txs[cp][id]) == Contents.UtcTransaction(StoredTx(cp, c.txs[cp][id]))
    && var qs := Sorted(RunningSeqs(c.txs));
       var k := r.txs[cp][id].seqNo - 1;
       0 <= k < |qs| && qs[k] == c.txs[cp][id].seqNo
  }

  lemma LoadedTxs(d: Durable, cfg: Config, now: Stamp)
    requires WellFormed(d)
    ensures Load(d, cfg, now).txs == LoadTxs(Blank(d), d.transactions).txs
    ensures Load(d, cfg, now).txSeq == |d.transactions|
  {
    var b := LoadTxs(Blank(d), d.transactions);
    LoadTxsRest(Blank(d), d.transactions);
    LoadTxsExact(Blank(d), d.transactions);
    LoadReservationsExact(b, cfg, now, d.reservations);
  }

  lemma LoadedTxAt(d: Durable, cfg: Config, now: Stamp, k: nat)
    requires WellFormed(d) && k < |d.transactions|
    ensures var t := d.transactions[k];
            var txs := Load(d, cfg, now).txs;
            HasTx(txs, t.cp, t.id) && txs[t.cp][t.id] == RestoredTx(t, k + 1)
  {
    LoadedTxs(d, cfg, now);
    LoadTxsExact(Blank(d), d.transactions);
  }

  lemma LoadedTxFrom(d: Durable, cfg: Config, now: Stamp, cp: string, id: string) returns (k: nat)
    requires WellFormed(d) && HasTx(Load(d, cfg, now).txs, cp, id)
    ensures k < |d.transactions| && d.transactions[k].cp == cp && d.transactions[k].id == id
  {
    LoadedTxs(d, cfg, now);
    LoadTxsExact(Blank(d), d.transactions);
    assert HasIndex(d.transactions, cp, id);
    k :| 0 <= k < |d.transactions| && d.transactions[k].cp == cp && d.transactions[k].id == id;
  }

  lemma RunningComes(c: Core, cfg: Config, cfg': Config, now: Stamp, cp: string, id: string)
    requires Valid(c, cfg) && Running(c.txs, cp, id)
    ensures Comes(c, Load(Written(c), cfg', now), cp, id)
  {
    WrittenWellFormed(c, cfg);
    var k := PlaceOf(c, cfg, cp, id);
    LoadedTxAt(Written(c), cfg', now, k);
  }

  lemma OnlyRunningComes(c: Core, cfg: Config, cfg': Config, now: Stamp, cp: string, id: string)
    requires Valid(c, cfg) && HasTx(Load(Written(c), cfg', now).txs, cp, id)
    ensures Running(c.txs, cp, id)
  {
    WrittenWellFormed(c, cfg);
    var k := LoadedTxFrom(Written(c), cfg', now, cp, id);
    RunningListed(c.txs, c.txSeq, k);
  }

  /** The same session: what the station reported when it began. */
  ghost predicate SameTransaction(a: Transaction, b: Transaction) {
    && a.id == b.id && a.evse == b.evse && a.connector == b.connector && a.tag == b.tag
    && a.meterStart == b.meterStart && a.startedAt.at == b.startedAt.at && a.reservationId == b.reservationId
  }

  /** A line of the file and the session it stands for. */
  ghost predicate IsStoredTx(t: Contents.Transaction, cp: string, tx: Transaction) {
    && t.id == tx.id && t.cp == cp && t.evse == tx.evse && t.connector == tx.connector && t.tag == tx.tag
    && t.meterStart == tx.meterStart && t.startedAt.at == tx.startedAt.at && t.reservationId == tx.reservationId
  }

  /** The same for a reservation; the connector comes from the configuration. */
  ghost predicate IsStored(r: Contents.Reservation, q: Reservation) {
    && r.id == q.id && r.ocpiId == q.ocpiId && r.cp == q.cp && r.evse == q.evse && r.tag == q.tag
    && r.expiresAt.at == q.expiresAt.at && r.createdAt.at == q.createdAt.at
    && r.source == q.source && r.responseUrl == q.responseUrl
  }

  /** Every running transaction comes back as it was, to the instant, and is running
      again; nothing else comes back. */
  lemma RestartRestoresTransactions(c: Core, cfg: Config, cfg': Config, now: Stamp, cp: string, id: string)
    requires Valid(c, cfg)
    ensures var r := Load(Written(c), cfg', now);
            && (HasTx(r.txs, cp, id) <==> Running(c.txs, cp, id))
            && (Running(c.txs, cp, id) ==>
                  Running(r.txs, cp, id) && SameTransaction(r.txs[cp][id], c.txs[cp][id])
                  && r.txs[cp][id].startedAt.utc)
  {
    if Running(c.txs, cp, id) {
      RunningComes(c, cfg, cfg', now, cp, id);
    }
    if HasTx(Load(Written(c), cfg', now).txs, cp, id) {
      OnlyRunningComes(c, cfg, cfg', now, cp, id);
    }
  }

  /** Two running transactions keep the order in which they began. */
  lemma RestartKeepsOrder(c: Core, cfg: Config, cfg': Config, now: Stamp,
                          cp: string, id: string, cp': string, id': string)
    requires Valid(c, cfg) && Running(c.txs, cp, id) && Running(c.txs, cp', id')
    ensures var r := Load(Written(c), cfg', now);
            Running(r.txs, cp, id) && Running(r.txs, cp', id')
            && (r.txs[cp][id].seqNo < r.txs[cp'][id'].seqNo <==> c.txs[cp][id].seqNo < c.txs[cp'][id'].seqNo)
  {
    RunningComes(c, cfg, cfg', now, cp, id);
    RunningComes(c, cfg, cfg', now, cp', id');
    ComesInOrder(c, Load(Written(c), cfg', now), cp, id, cp', id');
  }

  lemma ComesInOrder(c: Core, r: Core, cp: string, id: string, cp': string, id': string)
    requires Comes(c, r, cp, id) && Comes(c, r, cp', id')
    ensures r.txs[cp][id].seqNo < r.txs[cp'][id'].seqNo <==> c.txs[cp][id].seqNo < c.txs[cp'][id'].seqNo
  {
    assert Increasing(Sorted(RunningSeqs(c.txs)));
  }

  lemma PlaceOf(c: Core, cfg: Config, cp: string, id: string) returns (k: nat)
    requires Valid(c, cfg) && Running(c.txs, cp, id)
    ensures k < |Sorted(RunningSeqs(c.txs))| && Sorted(RunningSeqs(c.txs))[k] == c.txs[cp][id].seqNo
    ensures k < |Written(c).transactions|
    ensures Written(c).transactions[k] == Contents.UtcTransaction(StoredTx(cp, c.txs[cp][id]))
  {
    RunningIs(c.txs, c.txSeq, cp, id);
    var qs := Sorted(RunningSeqs(c.txs));
    k :| 0 <= k < |qs| && qs[k] == c.txs[cp][id].seqNo;
    var m := RunningBySeq(c.txs);
    assert m.Keys == RunningSeqs(c.txs);
    assert Ascending(m)[k] == m[qs[k]];
  }

  // ----- the transaction counter -----------------------------------------------

  /** Where the transaction counter stands after a restart from this file: above the
      stored counter and above every stored id that is a number. */
  function RestartCounter(d: Durable): int {
    LoadTxs(Blank(d), d.transactions).nextTransaction
  }

  predicate Below(id: string, n: int) {
    match Atoi(id)
    case Some(v) => v < n
    case None => true
  }

  lemma {:induction false} LoadTxsCounter(c: Core, ts: seq<Contents.Transaction>, n: int)
    ensures LoadTxs(c, ts).nextTransaction <= n <==>
            c.nextTransaction <= n && forall k :: 0 <= k < |ts| ==> Below(ts[k].id, n)
  {
    if ts != [] {
      var init := ts[..|ts| - 1];
      LoadTxsCounter(c, init, n);
      assert forall k :: 0 <= k < |init| ==> ts[k] == init[k];
    }
  }

  lemma LoadCounter(d: Durable, cfg: Config, now: Stamp)
    requires WellFormed(d)
    ensures Load(d, cfg, now).nextTransaction == RestartCounter(d) >= Max(d.nextTransaction, 1)
  {
    LoadTxsRest(Blank(d), d.transactions);
    LoadReservationsExact(LoadTxs(Blank(d), d.transactions), cfg, now, d.reservations);
  }

  /** An id of ours that a running transaction bears is never handed out after a
      restart, even if no write of the counter ever succeeded. */
  lemma RestartPassesRunningIds(c: Core, cfg: Config, cfg': Config, now: Stamp, cp: string, n: nat)
    requires Valid(c, cfg) && Running(c.txs, cp, Itoa(n))
    ensures Load(Written(c), cfg', now).nextTransaction > n
  {
    WrittenWellFormed(c, cfg);
    var d := Written(c);
    var k := PlaceOf(c, cfg, cp, Itoa(n));
    LoadCounter(d, cfg', now);
    StoredIdPassed(d, k, n);
  }

  lemma StoredIdPassed(d: Durable, k: nat, n: nat)
    requires k < |d.transactions| && d.transactions[k].id == Itoa(n)
    ensures RestartCounter(d) > n
  {
    AtoiOfItoa(n);
    LoadTxsCounter(Blank(d), d.transactions, n);
    assert !Below(d.transactions[k].id, n);
  }

  /** The counters after a restart: those for reservations and remote starts are the
      ones on file, at least one; the one for transactions is the least number that is
      neither below the one on file nor at or below a numeric id found there. */
  lemma CountersAfterLoad(d: Durable, cfg: Config, now: Stamp, n: int)
    requires WellFormed(d)
    ensures var r := Load(d, cfg, now);
            && r.nextReservation == (if d.nextReservation < 1 then 1 else d.nextReservation)
            && r.nextRemoteStart == (if d.nextRemoteStart < 1 then 1 else d.nextRemoteStart)
            && (r.nextTransaction <= n <==>
                  d.nextTransaction <= n && 1 <= n
                  && forall k, v :: 0 <= k < |d.transactions| && Atoi(d.transactions[k].id) == Some(v) ==> v < n)
  {
    LoadTxsRest(Blank(d), d.transactions);
    LoadReservationsExact(LoadTxs(Blank(d), d.transactions), cfg, now, d.reservations);
    LoadReservationsCounter(LoadTxs(Blank(d), d.transactions), cfg, now, d.reservations);
    CounterIs(d, n);
  }

  lemma {:induction false} LoadReservationsCounter(c: Core, cfg: Config, now: Stamp, rs: seq<Contents.Reservation>)
    requires forall i :: 0 <= i < |rs| ==> rs[i].id < c.nextReservation
    ensures LoadReservations(c, cfg, now, rs).nextReservation == c.nextReservation
  {
    if rs != [] {
      LoadReservationsCounter(c, cfg, now, rs[..|rs| - 1]);
    }
  }

  lemma CounterIs(d: Durable, n: int)
    ensures LoadTxs(Blank(d), d.transactions).nextTransaction <= n <==>
            d.nextTransaction <= n && 1 <= n
            && forall k, v :: 0 <= k < |d.transactions| && Atoi(d.transactions[k].id) == Some(v) ==> v < n
  {
    LoadTxsCounter(Blank(d), d.transactions, n);
    BelowAll(d.transactions, n);
  }

  lemma BelowAll(ts: seq<Contents.Transaction>, n: int)
    ensures (forall k :: 0 <= k < |ts| ==> Below(ts[k].id, n)) <==>
            forall k, v :: 0 <= k < |ts| && Atoi(ts[k].id) == Some(v) ==> v < n
  {
  }

  /** After a restart the counters for reservations and remote starts stand where they
      stood, and the one for transactions no lower. */
  lemma RestartKeepsCounters(c: Core, cfg: Config, cfg': Config, now: Stamp)
    requires Valid(c, cfg)
    ensures var r := Load(Written(c), cfg', now);
            && r.nextReservation == c.nextReservation
            && r.nextRemoteStart == c.nextRemoteStart
            && r.nextTransaction >= c.nextTransaction
  {
    WrittenWellFormed(c, cfg);
    CountersAfterLoad(Written(c), cfg', now, c.nextTransaction - 1);
  }

  // ----- writing again ---------------------------------------------------------

  /** A core freshly loaded from a file it wrote itself would write the same
      transactions again, and the same reservations unless it dropped some. */
  lemma LoadWritesTheSame(d: Durable, cfg: Config, now: Stamp)
    requires FileOk(d)
    ensures Written(Load(d, cfg, now)).transactions == d.transactions
    ensures !Drops(d, cfg, now) ==> Written(Load(d, cfg, now)).reservations == d.reservations
  {
    WritesTransactions(d, cfg, now);
    if !Drops(d, cfg, now) {
      WritesReservations(d, cfg, now);
    }
  }

  /** After a restart, persisting again writes the lists that were read. */
  lemma RestartWritesTheSame(c: Core, cfg: Config, cfg': Config, now: Stamp)
    requires Valid(c, cfg)
    ensures Written(Load(Written(c), cfg', now)).transactions == Written(c).transactions
    ensures !Drops(Written(c), cfg', now) ==>
              Written(Load(Written(c), cfg', now)).reservations == Written(c).reservations
  {
    WrittenFileOk(c, cfg);
    LoadWritesTheSame(Written(c), cfg', now);
  }

  lemma WritesReservations(d: Durable, cfg: Config, now: Stamp)
    requires WellFormed(d) && IncreasingIds(d.reservations) && !Drops(d, cfg, now)
    ensures Snapshot(Load(d, cfg, now)).reservations == d.reservations
  {
    var b := LoadTxs(Blank(d), d.transactions);
    LoadTxsRest(Blank(d), d.transactions);
    KeepsAll(b, cfg, now, d.reservations);
  }

  lemma KeepsAll(b: Core, cfg: Config, now: Stamp, rs: seq<Contents.Reservation>)
    requires b.reservations == map[] && DistinctIds(rs) && IncreasingIds(rs)
    requires forall r :: r in rs ==> Keeps(cfg, now, r)
    ensures Ascending(ActiveStored(LoadReservations(b, cfg, now, rs).reservations)) == rs
  {
    LoadReservationsExact(b, cfg, now, rs);
    var loaded := LoadReservations(b, cfg, now, rs).reservations;
    var m := ActiveStored(loaded);
    forall i | 0 <= i < |rs|
      ensures rs[i].id in m && m[rs[i].id] == rs[i]
    {
      assert rs[i] in rs;
    }
    forall id | id in m
      ensures exists k :: 0 <= k < |rs| && rs[k].id == id
    {
      assert KeptAs(rs, cfg, now, id);
    }
    AscendingById(m, rs);
  }

  lemma AscendingById(m: map<int, Contents.Reservation>, rs: seq<Contents.Reservation>)
    requires IncreasingIds(rs)
    requires forall i :: 0 <= i < |rs| ==> rs[i].id in m && m[rs[i].id] == rs[i]
    requires forall id :: id in m ==> exists k :: 0 <= k < |rs| && rs[k].id == id
    ensures Ascending(m) == rs
  {
    var ids := seq(|rs|, i requires 0 <= i < |rs| => rs[i].id);
    forall id
      ensures id in ids <==> id in m.Keys
    {
      if id in m.Keys {
        var k :| 0 <= k < |rs| && rs[k].id == id;
        assert ids[k] == id;
      }
    }
    SortedUnique(Sorted(m.Keys), ids);
    AscendingIs(m, ids, rs);
  }

  lemma LoadedAt(d: Durable, cfg: Config, now: Stamp, i: nat)
    requires WellFormed(d) && i < |d.transactions|
    ensures var txs := Load(d, cfg, now).txs;
            i + 1 in RunningSeqs(txs) && RunningAt(txs, i + 1) == d.transactions[i]
  {
    var t := d.transactions[i];
    var r := Load(d, cfg, now);
    LoadedTxAt(d, cfg, now, i);
    LoadValid(d, cfg, now);
    RunningIs(r.txs, r.txSeq, t.cp, t.id);
  }

  /** The running transactions of a freshly loaded core are numbered 1, 2, 3 in
      the order of the file. */
  lemma LoadedNumbers(d: Durable, cfg: Config, now: Stamp)
    requires WellFormed(d)
    ensures Sorted(RunningSeqs(Load(d, cfg, now).txs)) == CountUp(|d.transactions|)
  {
    var n := |d.transactions|;
    var txs := Load(d, cfg, now).txs;
    forall q | 1 <= q <= n
      ensures q in RunningSeqs(txs)
    {
      LoadedAt(d, cfg, now, q - 1);
    }
    forall q | q in RunningSeqs(txs)
      ensures 1 <= q <= n
    {
      SomeRunsAs(txs, q);
      var cp, id :| RunsAs(txs, q, cp, id);
      var k := LoadedTxFrom(d, cfg, now, cp, id);
      LoadedTxAt(d, cfg, now, k);
    }
    var up := CountUp(n);
    forall q
      ensures q in up <==> q in RunningSeqs(txs)
    {
      if 1 <= q <= n {
        assert up[q - 1] == q;
      }
    }
    SortedUnique(Sorted(RunningSeqs(txs)), up);
  }

  lemma WritesTransactions(d: Durable, cfg: Config, now: Stamp)
    requires WellFormed(d) && Normal(d) == d
    ensures Written(Load(d, cfg, now)).transactions == d.transactions
  {
    var txs := Load(d, cfg, now).txs;
    LoadedNumbers(d, cfg, now);
    forall i | 0 <= i < |d.transactions|
      ensures IsNumbered(txs, d.transactions, i)
    {
      LoadedAt(d, cfg, now, i);
    }
    NumberedFromOne(txs, d.transactions);
  }

  ghost predicate IsNumbered(txs: Transactions, ts: seq<Contents.Transaction>, i: nat)
    requires i < |ts|
  {
    i + 1 in RunningSeqs(txs) && RunningAt(txs, i + 1) == ts[i]
  }

  lemma NumberedFromOne(txs: Transactions, ts: seq<Contents.Transaction>)
    requires Sorted(RunningSeqs(txs)) == CountUp(|ts|)
    requires forall i :: 0 <= i < |ts| ==> IsNumbered(txs, ts, i)
    ensures Ascending(RunningBySeq(txs)) == ts
  {
    var m := RunningBySeq(txs);
    assert m.Keys == RunningSeqs(txs);
    var up := CountUp(|ts|);
    forall i | 0 <= i < |ts|
      ensures up[i] in m && m[up[i]] == ts[i]
    {
      assert IsNumbered(txs, ts, i);
    }
    AscendingIs(m, up, ts);
  }
}
