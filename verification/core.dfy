/** The values internal/core works on and what each of its critical sections does
    to them. A section is the code between taking and releasing Service.mu: the
    class in service.dfy carries them out on its fields, the machines in
    persistence.dfy and control.dfy interleave them. */
module Core {
  import opened Common

  // ----- configuration -----------------------------------------------------

  datatype Evse = Evse(uid: string, connector: int)

  datatype Config = Config(charger: string, evses: seq<Evse>)

  /** EVSEByUID, reduced to the connector id: the first entry with that uid. */
  function ConnectorOf(es: seq<Evse>, uid: string): Option<int> {
    if es == [] then None
    else if es[0].uid == uid then Some(es[0].connector)
    else ConnectorOf(es[1..], uid)
  }

  /** EVSEByConnectorID, reduced to the uid. */
  function UidOf(es: seq<Evse>, connector: int): Option<string> {
    if es == [] then None
    else if es[0].connector == connector then Some(es[0].uid)
    else UidOf(es[1..], connector)
  }

  function Decimal(n: int): string {
    if n < 0 then "-" + Itoa(-n) else Itoa(n)
  }

  /** The EVSE an OCPP connector stands for; unmapped ones get a made-up uid. */
  function EvseUid(cfg: Config, cp: string, connector: int): string {
    var made := cp + "-" + Decimal(connector);
    if cp != cfg.charger then made
    else
      match UidOf(cfg.evses, connector)
      case Some(uid) => uid
      case None => made
  }

  /** What config validation guarantees. */
  ghost predicate ValidConfig(cfg: Config) {
    && (forall i, j :: 0 <= i < j < |cfg.evses| ==> cfg.evses[i].uid != cfg.evses[j].uid)
    && (forall i, j :: 0 <= i < j < |cfg.evses| ==> cfg.evses[i].connector != cfg.evses[j].connector)
    && (forall i :: 0 <= i < |cfg.evses| ==> cfg.evses[i].connector >= 1)
  }

  lemma {:induction false} ConnectorFound(es: seq<Evse>, uid: string)
    requires ConnectorOf(es, uid).Some?
    ensures exists i :: 0 <= i < |es| && es[i] == Evse(uid, ConnectorOf(es, uid).value)
  {
    if es[0].uid == uid {
      assert es[0] == Evse(uid, ConnectorOf(es, uid).value);
    } else {
      ConnectorFound(es[1..], uid);
      var i :| 0 <= i < |es[1..]| && es[1..][i] == Evse(uid, ConnectorOf(es[1..], uid).value);
      assert es[i + 1] == Evse(uid, ConnectorOf(es, uid).value);
    }
  }

  /** Looking up by uid finds the entry with that uid, if there is one. */
  lemma {:induction false} ConnectorOfEntry(es: seq<Evse>, k: nat)
    requires k < |es| && forall i, j :: 0 <= i < j < |es| ==> es[i].uid != es[j].uid
    ensures ConnectorOf(es, es[k].uid) == Some(es[k].connector)
  {
    if k > 0 {
      ConnectorOfEntry(es[1..], k - 1);
    }
  }

  lemma {:induction false} ConnectorOfNone(es: seq<Evse>, uid: string)
    ensures ConnectorOf(es, uid).None? <==> forall k :: 0 <= k < |es| ==> es[k].uid != uid
  {
    if es != [] && es[0].uid != uid {
      ConnectorOfNone(es[1..], uid);
      assert forall k :: 0 <= k < |es[1..]| ==> es[1..][k] == es[k + 1];
      assert forall k :: 1 <= k < |es| ==> es[k] == es[1..][k - 1];
    }
  }

  lemma {:induction false} UidOfEntry(es: seq<Evse>, k: nat)
    requires k < |es| && forall i, j :: 0 <= i < j < |es| ==> es[i].connector != es[j].connector
    ensures UidOf(es, es[k].connector) == Some(es[k].uid)
  {
    if k > 0 {
      UidOfEntry(es[1..], k - 1);
    }
  }

  lemma {:induction false} UidOfNone(es: seq<Evse>, connector: int)
    requires forall k :: 0 <= k < |es| ==> es[k].connector != connector
    ensures UidOf(es, connector) == None
  {
    if es != [] {
      UidOfNone(es[1..], connector);
    }
  }

  /** The configuration maps this connector of this charge point to the EVSE. */
  ghost predicate Configured(cfg: Config, cp: string, connector: int, uid: string) {
    ValidConfig(cfg) && cp == cfg.charger && Evse(uid, connector) in cfg.evses
  }

  lemma ConfiguredConnector(cfg: Config, cp: string, connector: int)
    ensures forall uid :: Configured(cfg, cp, connector, uid) ==>
              connector >= 1 && EvseUid(cfg, cp, connector) == uid
  {
    forall uid | Configured(cfg, cp, connector, uid)
      ensures connector >= 1 && EvseUid(cfg, cp, connector) == uid
    {
      var k :| 0 <= k < |cfg.evses| && cfg.evses[k] == Evse(uid, connector);
      ConfiguredUid(cfg, k);
    }
  }

  /** A configured connector of the configured charger stands for its EVSE. */
  lemma ConfiguredUid(cfg: Config, k: nat)
    requires ValidConfig(cfg) && k < |cfg.evses|
    ensures EvseUid(cfg, cfg.charger, cfg.evses[k].connector) == cfg.evses[k].uid
  {
    UidOfEntry(cfg.evses, k);
  }

  /** Any other charge point or connector gets the charge point's id, a dash and the
      connector in decimal. */
  lemma MadeUpUid(cfg: Config, cp: string, connector: int)
    requires cp != cfg.charger || forall k :: 0 <= k < |cfg.evses| ==> cfg.evses[k].connector != connector
    ensures exists decimal :: Atoi(decimal) == Some(connector) && EvseUid(cfg, cp, connector) == cp + "-" + decimal
  {
    if cp == cfg.charger {
      UidOfNone(cfg.evses, connector);
    }
    DecimalReads(connector);
    assert EvseUid(cfg, cp, connector) == cp + "-" + Decimal(connector);
  }

  lemma DecimalReads(n: int)
    ensures Atoi(Decimal(n)) == Some(n)
  {
    if n < 0 {
      AtoiOfNegative(-n);
    } else {
      AtoiOfItoa(n);
    }
  }

  /** In a valid configuration two EVSEs never share a connector. */
  lemma ConnectorsTellEvsesApart(cfg: Config, a: string, b: string)
    requires ValidConfig(cfg)
    requires ConnectorOf(cfg.evses, a).Some? && ConnectorOf(cfg.evses, a) == ConnectorOf(cfg.evses, b)
    ensures a == b
  {
    ConnectorFound(cfg.evses, a);
    ConnectorFound(cfg.evses, b);
  }

  // ----- reservations and transactions --------------------------------------

  datatype Status = Pending | Active | Cancelling

  datatype Reservation = Reservation(
    id: int, ocpiId: string, cp: string, evse: string, connector: int, tag: string,
    expiresAt: Stamp, createdAt: Stamp, source: string, responseUrl: string, status: Status)

  /** armed: the record's own expiry timer is scheduled. */
  datatype Entry = Entry(res: Reservation, armed: bool)

  /** stoppedAt is None while the transaction is running. */
  datatype Transaction = Transaction(
    id: string, evse: string, connector: int, tag: string, meterStart: int, startedAt: Stamp,
    reservationId: int, stoppedAt: Option<Stamp>, meterStop: int, reason: string, seqNo: nat)

  /** Transactions by charge point and then by id. */
  type Transactions = map<string, map<string, Transaction>>

  datatype Core = Core(
    reservations: map<int, Entry>,
    txs: Transactions,
    txSeq: nat,
    nextReservation: int,
    nextTransaction: int,
    nextRemoteStart: int)

  predicate HasStatus(c: Core, id: int, st: Status) {
    id in c.reservations && c.reservations[id].res.status == st
  }

  predicate HasTx(txs: Transactions, cp: string, id: string) {
    cp in txs && id in txs[cp]
  }

  ghost predicate OnePerEvse(c: Core) {
    forall i, j :: i in c.reservations && j in c.reservations ==>
      c.reservations[i].res.evse == c.reservations[j].res.evse ==> i == j
  }

  ghost predicate TimersMatch(c: Core) {
    forall id :: id in c.reservations ==> (c.reservations[id].armed <==> c.reservations[id].res.status == Active)
  }

  ghost predicate TxsOk(txs: Transactions, txSeq: nat) {
    && (forall cp, id :: HasTx(txs, cp, id) ==> txs[cp][id].id == id && 1 <= txs[cp][id].seqNo <= txSeq)
    && (forall cp, id, cp', id' :: HasTx(txs, cp, id) && HasTx(txs, cp', id') ==>
          txs[cp][id].seqNo == txs[cp'][id'].seqNo ==> cp == cp' && id == id')
  }

  /** What holds whenever mu is free: at most one reservation per EVSE, in any
      status; a timer exactly for the active ones; every id below its counter. */
  ghost predicate Valid(c: Core, cfg: Config) {
    && 1 <= c.nextReservation && 1 <= c.nextTransaction && 1 <= c.nextRemoteStart
    && (forall id :: id in c.reservations ==>
          c.reservations[id].res.id == id && 1 <= id < c.nextReservation
          && ConnectorOf(cfg.evses, c.reservations[id].res.evse) == Some(c.reservations[id].res.connector))
    && OnePerEvse(c)
    && TimersMatch(c)
    && TxsOk(c.txs, c.txSeq)
  }

  // ----- critical sections: reservations -------------------------------------

  datatype BeginError = UnknownEvse | AlreadyReserved | NotRecorded

  predicate Occupied(c: Core, uid: string) {
    exists id :: id in c.reservations && c.reservations[id].res.evse == uid
  }

  datatype Begun = Begun(core: Core, res: Result<Reservation, BeginError>)

  /** The first section of BeginReservation. */
  function BeginReservation(c: Core, cfg: Config, draft: Reservation, now: Stamp): Begun {
    match ConnectorOf(cfg.evses, draft.evse)
    case None => Begun(c, Err(UnknownEvse))
    case Some(connector) =>
      if Occupied(c, draft.evse) then Begun(c, Err(AlreadyReserved))
      else
        var r := draft.(id := c.nextReservation, connector := connector, createdAt := now, status := Pending);
        Begun(c.(reservations := c.reservations[r.id := Entry(r, false)],
                 nextReservation := c.nextReservation + 1),
              Ok(r))
  }

  /** delete(s.reservations, id), as the failure path of BeginReservation does it. */
  function Without(c: Core, id: int): Core {
    c.(reservations := c.reservations - {id})
  }

  function Activated(r: Reservation): Reservation {
    r.(status := Active)
  }

  /** The section of ActivateReservation, when the reservation is pending. */
  function Activate(c: Core, id: int): Core
    requires HasStatus(c, id, Pending)
  {
    c.(reservations := c.reservations[id := Entry(Activated(c.reservations[id].res), true)])
  }

  /** The section of OrphanReservation, when the reservation is pending. */
  function Orphan(c: Core, id: int): Core
    requires HasStatus(c, id, Pending)
  {
    c.(reservations := c.reservations[id := Entry(c.reservations[id].res.(status := Cancelling), false)])
  }

  /** The re-check in expire. */
  predicate ExpiryApplies(c: Core, id: int, expiresAt: Stamp) {
    HasStatus(c, id, Active) && c.reservations[id].res.expiresAt.at == expiresAt.at
  }

  // ----- the passing of time --------------------------------------------------

  predicate Lapsed(r: Reservation, now: int) {
    r.status == Active && r.expiresAt.at <= now
  }

  /** What is left of the table at an instant: whatever is active and due is gone,
      and nothing else is. */
  function Elapsed(c: Core, now: int): Core {
    c.(reservations := map id | id in c.reservations && !Lapsed(c.reservations[id].res, now) :: c.reservations[id])
  }

  /** c is c0 without some of the reservations that had lapsed. */
  ghost predicate Swept(c0: Core, c: Core, now: int) {
    && c == c0.(reservations := c.reservations)
    && (forall id :: id in c.reservations ==> id in c0.reservations && c.reservations[id] == c0.reservations[id])
    && (forall id :: id in c0.reservations && id !in c.reservations ==> Lapsed(c0.reservations[id].res, now))
  }

  ghost predicate NoneLapsed(c: Core, now: int) {
    forall id :: id in c.reservations ==> !Lapsed(c.reservations[id].res, now)
  }

  lemma SweptOneMore(c0: Core, c: Core, now: int, id: int)
    requires Swept(c0, c, now) && (id in c.reservations ==> Lapsed(c.reservations[id].res, now))
    ensures Swept(c0, Without(c, id), now)
  {
  }

  lemma SweptAll(c0: Core, c: Core, now: int)
    requires Swept(c0, c, now) && NoneLapsed(c, now)
    ensures c == Elapsed(c0, now)
  {
    var left := Elapsed(c0, now).reservations;
    forall id
      ensures id in c.reservations <==> id in left
      ensures id in left && id in c.reservations ==> left[id] == c.reservations[id]
    {
    }
    assert c.reservations == left;
  }

  // ----- critical sections: transactions -------------------------------------

  datatype Start = Start(
    id: string, connector: int, tag: string, meterStart: int, reservationId: int, at: Option<Stamp>)

  predicate ActiveAt(c: Core, id: int, cp: string) {
    HasStatus(c, id, Active) && c.reservations[id].res.cp == cp
  }

  predicate ActiveOn(c: Core, id: int, cp: string, evse: string) {
    ActiveAt(c, id, cp) && c.reservations[id].res.evse == evse
  }

  predicate TagMatches(c: Core, id: int, cp: string, evse: string, tag: string) {
    ActiveOn(c, id, cp, evse) && EqualFold(c.reservations[id].res.tag, tag)
  }

  /** redeemedLocked. */
  ghost function Redeemed(c: Core, cp: string, evse: string, t: Start): Option<int> {
    if t.reservationId != 0 && ActiveAt(c, t.reservationId, cp) then Some(t.reservationId)
    else if exists id :: TagMatches(c, id, cp, evse, t.tag) then
      var id :| TagMatches(c, id, cp, evse, t.tag);
      Some(id)
    else None
  }

  /** reservationOnEVSELocked. */
  ghost function OnEvse(c: Core, cp: string, evse: string): Option<int> {
    if exists id :: ActiveOn(c, id, cp, evse) then
      var id :| ActiveOn(c, id, cp, evse);
      Some(id)
    else None
  }

  datatype EndReason = Expired | Cancelled | Consumed | Rejected | Timeout | Failed

  datatype Ended = Ended(id: int, reason: EndReason)

  datatype Started = Started(core: Core, tx: Transaction, ended: Option<Ended>)

  ghost function SessionEnds(c: Core, cp: string, evse: string, t: Start): Option<Ended> {
    match Redeemed(c, cp, evse, t)
    case Some(id) => Some(Ended(id, Consumed))
    case None =>
      match OnEvse(c, cp, evse)
      case Some(id) => Some(Ended(id, Failed))
      case None => None
  }

  function TxsOf(txs: Transactions, cp: string): map<string, Transaction> {
    if cp in txs then txs[cp] else map[]
  }

  function Recorded(txs: Transactions, cp: string, tx: Transaction): Transactions {
    txs[cp := TxsOf(txs, cp)[tx.id := tx]]
  }

  /** The section of StartTransaction. */
  ghost function StartSession(c: Core, cfg: Config, cp: string, t: Start, now: Stamp): Started {
    var evse := EvseUid(cfg, cp, t.connector);
    var ended := SessionEnds(c, cp, evse, t);
    var redeemed := if ended.Some? && ended.value.reason == Consumed then ended.value.id else t.reservationId;
    var at := if t.at.Some? then t.at.value else now;
    var tx := Transaction(t.id, evse, t.connector, t.tag, t.meterStart, at, redeemed, None, 0, "", c.txSeq + 1);
    Started(c.(reservations := if ended.Some? then c.reservations - {ended.value.id} else c.reservations,
               txs := Recorded(c.txs, cp, tx),
               txSeq := c.txSeq + 1),
            tx, ended)
  }

  predicate Running(txs: Transactions, cp: string, id: string) {
    HasTx(txs, cp, id) && txs[cp][id].stoppedAt == None
  }

  /** The section of StopTransaction, when the transaction is running. */
  function StopSession(c: Core, cp: string, id: string, meterStop: int, reason: string, at: Stamp): Core
    requires Running(c.txs, cp, id)
  {
    var tx := c.txs[cp][id].(stoppedAt := Some(at), meterStop := meterStop, reason := reason);
    c.(txs := Recorded(c.txs, cp, tx))
  }

  // ----- what the sections keep ------------------------------------------------

  lemma BeginKeeps(c: Core, cfg: Config, draft: Reservation, now: Stamp)
    requires Valid(c, cfg)
    ensures Valid(BeginReservation(c, cfg, draft, now).core, cfg)
  {
  }

  lemma WithoutKeeps(c: Core, cfg: Config, id: int)
    requires Valid(c, cfg)
    ensures Valid(Without(c, id), cfg)
  {
  }

  lemma StatusKeeps(c: Core, cfg: Config, id: int)
    requires Valid(c, cfg) && HasStatus(c, id, Pending)
    ensures Valid(Activate(c, id), cfg)
    ensures Valid(Orphan(c, id), cfg)
  {
  }

  lemma RecordedKeeps(txs: Transactions, txSeq: nat, cp: string, tx: Transaction)
    requires TxsOk(txs, txSeq)
    requires tx.seqNo == txSeq + 1 || (HasTx(txs, cp, tx.id) && txs[cp][tx.id].seqNo == tx.seqNo)
    ensures TxsOk(Recorded(txs, cp, tx), if tx.seqNo == txSeq + 1 then txSeq + 1 else txSeq)
  {
    var t := Recorded(txs, cp, tx);
    assert forall p, id :: HasTx(t, p, id) ==>
        (p == cp && id == tx.id) || (HasTx(txs, p, id) && t[p][id] == txs[p][id]);
  }

  lemma StartSessionKeeps(c: Core, cfg: Config, cp: string, t: Start, now: Stamp)
    requires Valid(c, cfg)
    ensures Valid(StartSession(c, cfg, cp, t, now).core, cfg)
  {
    RecordedKeeps(c.txs, c.txSeq, cp, StartSession(c, cfg, cp, t, now).tx);
  }

  lemma StopSessionKeeps(c: Core, cfg: Config, cp: string, id: string, meterStop: int, reason: string, at: Stamp)
    requires Valid(c, cfg) && Running(c.txs, cp, id)
    ensures Valid(StopSession(c, cp, id, meterStop, reason, at), cfg)
  {
    RecordedKeeps(c.txs, c.txSeq, cp, c.txs[cp][id].(stoppedAt := Some(at), meterStop := meterStop, reason := reason));
  }

  // ----- sessions and reservations ----------------------------------------------

  /** The reservation a station claims to redeem is one of its own active ones, but
      held for another EVSE than the session's. */
  predicate NamesAnotherEvse(c: Core, cp: string, evse: string, t: Start) {
    t.reservationId != 0 && ActiveAt(c, t.reservationId, cp) && c.reservations[t.reservationId].res.evse != evse
  }

  /** A starting session ends at most one reservation, an active one of its own
      charge point. It is consumed exactly when the station named it or the tags
      match, and the transaction records it only then. */
  lemma SessionEndsOneActive(c: Core, cfg: Config, cp: string, t: Start, now: Stamp)
    requires Valid(c, cfg)
    ensures var s := StartSession(c, cfg, cp, t, now);
            && (s.ended.None? ==> s.core.reservations == c.reservations && s.tx.reservationId == t.reservationId)
            && (s.ended.Some? ==>
                  var Ended(id, reason) := s.ended.value;
                  && ActiveAt(c, id, cp)
                  && s.core.reservations == c.reservations - {id}
                  && (c.reservations[id].res.evse == s.tx.evse || id == t.reservationId)
                  && (reason == Consumed <==> id == t.reservationId || EqualFold(c.reservations[id].res.tag, t.tag))
                  && (reason != Consumed ==> reason == Failed)
                  && (reason == Consumed ==> s.tx.reservationId == id)
                  && (reason == Failed ==> s.tx.reservationId == t.reservationId))
  {
    var evse := EvseUid(cfg, cp, t.connector);
    if t.reservationId != 0 && ActiveAt(c, t.reservationId, cp) {
    } else if exists id :: TagMatches(c, id, cp, evse, t.tag) {
      assert TagMatches(c, Redeemed(c, cp, evse, t).value, cp, evse, t.tag);
    } else if exists id :: ActiveOn(c, id, cp, evse) {
      var id := OnEvse(c, cp, evse).value;
      assert ActiveOn(c, id, cp, evse) && !TagMatches(c, id, cp, evse, t.tag);
    }
  }

  /** Afterwards an active reservation of the charge point is left on the session's
      EVSE exactly when there was one and the station named one on another EVSE. */
  lemma SessionClearsItsEvse(c: Core, cfg: Config, cp: string, t: Start, now: Stamp)
    requires Valid(c, cfg)
    ensures var s := StartSession(c, cfg, cp, t, now);
            (exists id :: ActiveOn(s.core, id, cp, s.tx.evse)) <==>
            (exists id :: ActiveOn(c, id, cp, s.tx.evse)) && NamesAnotherEvse(c, cp, s.tx.evse, t)
  {
    SessionEndsOneActive(c, cfg, cp, t, now);
    var s := StartSession(c, cfg, cp, t, now);
    var evse := s.tx.evse;
    if exists id :: ActiveOn(c, id, cp, evse) {
      var id :| ActiveOn(c, id, cp, evse);
      if NamesAnotherEvse(c, cp, evse, t) {
        assert ActiveOn(s.core, id, cp, evse);
      } else {
        SessionEndsTheOneThere(c, cp, evse, t, id);
        assert forall j :: ActiveOn(s.core, j, cp, evse) ==> ActiveOn(c, j, cp, evse);
      }
    } else {
      assert forall j :: ActiveOn(s.core, j, cp, evse) ==> ActiveOn(c, j, cp, evse);
    }
  }

  lemma SessionEndsTheOneThere(c: Core, cp: string, evse: string, t: Start, id: int)
    requires OnePerEvse(c) && ActiveOn(c, id, cp, evse) && !NamesAnotherEvse(c, cp, evse, t)
    ensures SessionEnds(c, cp, evse, t).Some? && SessionEnds(c, cp, evse, t).value.id == id
  {
    if t.reservationId != 0 && ActiveAt(c, t.reservationId, cp) {
      assert c.reservations[t.reservationId].res.evse == evse;
    } else if exists j :: TagMatches(c, j, cp, evse, t.tag) {
      assert TagMatches(c, Redeemed(c, cp, evse, t).value, cp, evse, t.tag);
    } else {
      assert ActiveOn(c, OnEvse(c, cp, evse).value, cp, evse);
    }
  }
}
