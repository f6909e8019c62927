/** What the functions of core.dfy and contents.dfy amount to, field by field: the
    statements here name no other function of those modules than the one they are
    about, so that they say what a caller sees. */
module Effects {
  import opened Common
  import opened Core
  import Contents

  /** The same reservation, whatever its status. */
  ghost predicate SameReservation(a: Reservation, b: Reservation) {
    && a.id == b.id && a.ocpiId == b.ocpiId && a.cp == b.cp && a.evse == b.evse && a.connector == b.connector
    && a.tag == b.tag && a.expiresAt == b.expiresAt && a.createdAt == b.createdAt
    && a.source == b.source && a.responseUrl == b.responseUrl
  }

  /** Nothing but the record of one id differs. */
  ghost predicate OnlyRecord(c: Core, d: Core, id: int) {
    && d.txs == c.txs && d.txSeq == c.txSeq
    && d.nextTransaction == c.nextTransaction && d.nextRemoteStart == c.nextRemoteStart
    && forall other :: other != id ==>
         (other in d.reservations <==> other in c.reservations)
         && (other in c.reservations && other in d.reservations ==> d.reservations[other] == c.reservations[other])
  }

  // ----- reservations -----------------------------------------------------------

  /** BeginReservation fails exactly if the EVSE is not configured or has a
      reservation in any status, and then changes nothing. Otherwise there is a
      pending record under the next id, with everything the caller asked for. */
  lemma BeginReservationIs(c: Core, cfg: Config, draft: Reservation, now: Stamp)
    ensures var b := BeginReservation(c, cfg, draft, now);
            && (b.res == Err(UnknownEvse) <==> forall k :: 0 <= k < |cfg.evses| ==> cfg.evses[k].uid != draft.evse)
            && (b.res == Err(AlreadyReserved) <==>
                  b.res != Err(UnknownEvse)
                  && exists id :: id in c.reservations && c.reservations[id].res.evse == draft.evse)
            && b.res != Err(NotRecorded)
            && (b.res.Err? ==> b.core == c)
            && (b.res.Ok? ==>
                  var r := b.res.value;
                  && r.id == c.nextReservation && b.core.nextReservation == c.nextReservation + 1
                  && OnlyRecord(c, b.core, r.id)
                  && r.id in b.core.reservations && b.core.reservations[r.id] == Entry(r, false)
                  && r.status == Pending && r.createdAt == now
                  && SameReservation(r, draft.(id := r.id, connector := r.connector, createdAt := now))
                  && exists k :: 0 <= k < |cfg.evses| && cfg.evses[k] == Evse(draft.evse, r.connector))
  {
    ConnectorOfNone(cfg.evses, draft.evse);
    if BeginReservation(c, cfg, draft, now).res.Ok? {
      ConnectorFound(cfg.evses, draft.evse);
    }
  }

  lemma ActivateIs(c: Core, id: int)
    requires HasStatus(c, id, Pending)
    ensures var d := Activate(c, id);
            && OnlyRecord(c, d, id) && d.nextReservation == c.nextReservation
            && id in d.reservations && d.reservations[id].armed && d.reservations[id].res.status == Active
            && SameReservation(d.reservations[id].res, c.reservations[id].res)
  {
  }

  lemma OrphanIs(c: Core, id: int)
    requires HasStatus(c, id, Pending)
    ensures var d := Orphan(c, id);
            && OnlyRecord(c, d, id) && d.nextReservation == c.nextReservation
            && id in d.reservations && !d.reservations[id].armed && d.reservations[id].res.status == Cancelling
            && SameReservation(d.reservations[id].res, c.reservations[id].res)
  {
  }

  lemma WithoutIs(c: Core, id: int)
    ensures var d := Without(c, id);
            OnlyRecord(c, d, id) && d.nextReservation == c.nextReservation && id !in d.reservations
  {
  }

  /** A timer's callback removes a reservation exactly if it is active and has the
      expiry the timer was set for. */
  lemma ExpiryAppliesIs(c: Core, id: int, expiresAt: Stamp)
    ensures ExpiryApplies(c, id, expiresAt) <==>
            id in c.reservations && c.reservations[id].res.status == Active
            && c.reservations[id].res.expiresAt.at == expiresAt.at
  {
  }

  /** Time removes exactly the active reservations whose expiry has come. */
  lemma ElapsedIs(c: Core, now: int, id: int)
    ensures var d := Elapsed(c, now);
            && d.txs == c.txs && d.txSeq == c.txSeq && d.nextReservation == c.nextReservation
            && d.nextTransaction == c.nextTransaction && d.nextRemoteStart == c.nextRemoteStart
            && (id in d.reservations <==>
                  id in c.reservations
                  && !(c.reservations[id].res.status == Active && c.reservations[id].res.expiresAt.at <= now))
            && (id in d.reservations && id in c.reservations ==> d.reservations[id] == c.reservations[id])
  {
  }

  // ----- transactions -------------------------------------------------------------

  /** Nothing but one transaction of one charge point differs. */
  ghost predicate OnlyTransaction(c: Transactions, d: Transactions, cp: string, id: string) {
    forall p, i :: p != cp || i != id ==>
      (p in d && i in d[p] <==> p in c && i in c[p])
      && (p in d && i in d[p] && p in c && i in c[p] ==> d[p][i] == c[p][i])
  }

  /** A starting session is recorded with what the station reported, running, under
      the next number; nothing else changes but the reservation it ends. */
  lemma StartSessionIs(c: Core, cfg: Config, cp: string, t: Start, now: Stamp)
    ensures var s := StartSession(c, cfg, cp, t, now);
            && s.tx.id == t.id && s.tx.connector == t.connector && s.tx.tag == t.tag
            && s.tx.meterStart == t.meterStart && s.tx.startedAt == (if t.at.Some? then t.at.value else now)
            && s.tx.stoppedAt == None && s.tx.seqNo == c.txSeq + 1 && s.core.txSeq == c.txSeq + 1
            && cp in s.core.txs && t.id in s.core.txs[cp] && s.core.txs[cp][t.id] == s.tx
            && OnlyTransaction(c.txs, s.core.txs, cp, t.id)
            && s.core.nextReservation == c.nextReservation && s.core.nextTransaction == c.nextTransaction
            && s.core.nextRemoteStart == c.nextRemoteStart
            && s.core.reservations == (if s.ended.Some? then c.reservations - {s.ended.value.id} else c.reservations)
  {
  }

  /** On a configured connector the session is on the configured EVSE: it ends at most
      one reservation, one there or the one the station named, as consumed exactly if
      it was named or its tag is alike; and afterwards an active reservation is left
      there exactly if there was one and the station named an active one elsewhere. */
  lemma SessionOnConfiguredEvse(c: Core, cfg: Config, k: nat, t: Start, now: Stamp)
    requires Valid(c, cfg) && ValidConfig(cfg) && k < |cfg.evses| && t.connector == cfg.evses[k].connector
    ensures var s := StartSession(c, cfg, cfg.charger, t, now);
            var evse := cfg.evses[k].uid;
            && s.tx.evse == evse
            && (s.ended.Some? ==>
                  var Ended(id, reason) := s.ended.value;
                  && id in c.reservations && c.reservations[id].res.status == Active
                  && c.reservations[id].res.cp == cfg.charger
                  && (c.reservations[id].res.evse == evse || id == t.reservationId)
                  && (reason == Consumed <==>
                        id == t.reservationId || EqualFold(c.reservations[id].res.tag, t.tag))
                  && (reason != Consumed ==> reason == Failed))
            && ((exists id :: ActiveOn(s.core, id, cfg.charger, evse)) <==>
                (exists id :: ActiveOn(c, id, cfg.charger, evse)) && NamesAnotherEvse(c, cfg.charger, evse, t))
  {
    ConfiguredUid(cfg, k);
    SessionEndsOneActive(c, cfg, cfg.charger, t, now);
    SessionClearsItsEvse(c, cfg, cfg.charger, t, now);
  }

  lemma StopSessionIs(c: Core, cp: string, id: string, meterStop: int, reason: string, at: Stamp)
    requires Running(c.txs, cp, id) && c.txs[cp][id].id == id
    ensures var d := StopSession(c, cp, id, meterStop, reason, at);
            && d.reservations == c.reservations && d.txSeq == c.txSeq && d.nextReservation == c.nextReservation
            && d.nextTransaction == c.nextTransaction && d.nextRemoteStart == c.nextRemoteStart
            && OnlyTransaction(c.txs, d.txs, cp, id)
            && cp in d.txs && id in d.txs[cp]
            && var was, now := c.txs[cp][id], d.txs[cp][id];
               now.stoppedAt == Some(at) && now.meterStop == meterStop && now.reason == reason
               && now.id == was.id && now.evse == was.evse && now.connector == was.connector && now.tag == was.tag
               && now.meterStart == was.meterStart && now.startedAt == was.startedAt
               && now.reservationId == was.reservationId && now.seqNo == was.seqNo
  {
  }

  // ----- the normal form --------------------------------------------------------------

  ghost predicate InUtc(after: Stamp, before: Stamp) {
    after.at == before.at && after.utc
  }

  /** Normalizing sets the version and moves timestamps to UTC, the same instants;
      everything else in the state is as it was. */
  lemma NormalIs(s: Contents.State)
    ensures var n := Contents.Normal(s);
            && n.version == 1
            && n.nextReservation == s.nextReservation && n.nextTransaction == s.nextTransaction
            && n.nextRemoteStart == s.nextRemoteStart
            && |n.reservations| == |s.reservations| && |n.transactions| == |s.transactions|
            && (s.ocpi.None? <==> n.ocpi.None?)
    ensures forall i :: 0 <= i < |s.reservations| ==>
              NormalReservationIs(Contents.Normal(s).reservations[i], s.reservations[i])
    ensures forall i :: 0 <= i < |s.transactions| ==>
              NormalTransactionIs(Contents.Normal(s).transactions[i], s.transactions[i])
    ensures s.ocpi.Some? ==>
              var a, b := Contents.Normal(s).ocpi.value, s.ocpi.value;
              && InUtc(a.registeredAt, b.registeredAt)
              && a.tokenB == b.tokenB && a.versionsUrl == b.versionsUrl && a.version == b.version
              && a.endpoints == b.endpoints && a.roles == b.roles
  {
  }

  ghost predicate NormalReservationIs(a: Contents.Reservation, b: Contents.Reservation) {
    && InUtc(a.expiresAt, b.expiresAt) && InUtc(a.createdAt, b.createdAt)
    && a.id == b.id && a.ocpiId == b.ocpiId && a.cp == b.cp && a.evse == b.evse && a.tag == b.tag
    && a.source == b.source && a.responseUrl == b.responseUrl
  }

  ghost predicate NormalTransactionIs(a: Contents.Transaction, b: Contents.Transaction) {
    && InUtc(a.startedAt, b.startedAt)
    && a.id == b.id && a.cp == b.cp && a.evse == b.evse && a.connector == b.connector && a.tag == b.tag
    && a.meterStart == b.meterStart && a.reservationId == b.reservationId
  }
}
