/** The station's side of ReserveNow and CancelReservation, as the simulator plays
    it (internal/simulator/handlers.go). */
module Station {
  datatype Scenario = Normal | RejectReserve | OccupiedStation

  datatype PlugStatus =
    | Available | Preparing | Charging | SuspendedEVSE | SuspendedEV | Finishing
    | Reserved | Unavailable | Faulted

  /** One connector: the reservation it is held for and the transaction running on
      it, 0 meaning none. */
  datatype Plug = Plug(reservationId: int, transactionId: int, status: PlugStatus)

  type Plugs = map<int, Plug>

  datatype ReserveAnswer = Accepted | RefusedRejected | RefusedOccupied | RefusedFaulted | RefusedUnavailable

  datatype Reserving = Reserving(plugs: Plugs, answer: ReserveAnswer)

  function ReserveNow(scenario: Scenario, plugs: Plugs, connector: int, id: int): Reserving {
    if scenario == RejectReserve then Reserving(plugs, RefusedRejected)
    else if scenario == OccupiedStation then Reserving(plugs, RefusedOccupied)
    else if connector !in plugs then Reserving(plugs, RefusedRejected)
    else
      var c := plugs[connector];
      if c.transactionId != 0 || c.status == Charging || c.status == Preparing then
        Reserving(plugs, RefusedOccupied)
      else if c.status == Faulted then Reserving(plugs, RefusedFaulted)
      else if c.status == Unavailable then Reserving(plugs, RefusedUnavailable)
      else Reserving(plugs[connector := c.(reservationId := id, status := Reserved)], Accepted)
  }

  ghost predicate Holds(plugs: Plugs, id: int) {
    exists c :: c in plugs && plugs[c].reservationId == id
  }

  datatype Releasing = Releasing(plugs: Plugs, accepted: bool)

  /** Releases the first connector found that is held for the id. */
  ghost function CancelReservation(plugs: Plugs, id: int): Releasing {
    if !Holds(plugs, id) then Releasing(plugs, false)
    else
      var c :| c in plugs && plugs[c].reservationId == id;
      if c == 0 then Releasing(plugs, false)
      else Releasing(plugs[c := plugs[c].(reservationId := 0, status := Available)], true)
  }

  /** Anything else happening at the station (sessions, status changes, its own
      expiry) may release connectors but never holds one. */
  ghost predicate OnlyReleases(before: Plugs, after: Plugs) {
    after.Keys == before.Keys
    && forall c :: c in after ==> after[c].reservationId == 0 || after[c].reservationId == before[c].reservationId
  }

  /** Accepting is the only way to hold a reservation, a refusal changes nothing,
      and accepting displaces whatever the connector was held for: the code does
      not look at an existing hold. */
  lemma ReserveNowHolds(scenario: Scenario, plugs: Plugs, connector: int, id: int, other: int)
    requires id >= 1 && other >= 1
    ensures var r := ReserveNow(scenario, plugs, connector, id);
            && (r.answer != Accepted ==> r.plugs == plugs)
            && (r.answer == Accepted ==>
                  connector in plugs && Holds(r.plugs, id)
                  && r.plugs == plugs[connector := plugs[connector].(reservationId := id, status := Reserved)])
            && (Holds(r.plugs, other) ==> Holds(plugs, other) || other == id)
            && (forall c :: c in r.plugs && r.plugs[c].reservationId == other ==>
                  (c in plugs && plugs[c].reservationId == other) || (other == id && c == connector))
  {
    var r := ReserveNow(scenario, plugs, connector, id);
    if r.answer == Accepted {
      assert r.plugs[connector].reservationId == id;
    }
  }

  /** Which answer a ReserveNow gets: what a scenario demands, else what the state of
      the connector says. */
  lemma ReserveNowAnswers(scenario: Scenario, plugs: Plugs, connector: int, id: int)
    ensures var answer := ReserveNow(scenario, plugs, connector, id).answer;
            && (answer == RefusedRejected <==>
                  scenario == RejectReserve || (scenario == Normal && connector !in plugs))
            && (answer == RefusedOccupied <==>
                  scenario == OccupiedStation
                  || (scenario == Normal && connector in plugs
                      && (plugs[connector].transactionId != 0 || plugs[connector].status in {Charging, Preparing})))
            && (answer == RefusedFaulted ==> connector in plugs && plugs[connector].status == Faulted)
            && (answer == RefusedUnavailable ==> connector in plugs && plugs[connector].status == Unavailable)
            && (answer == Accepted <==>
                  scenario == Normal && connector in plugs && plugs[connector].transactionId == 0
                  && plugs[connector].status in {Available, SuspendedEVSE, SuspendedEV, Finishing, Reserved})
  {
  }

  /** The connector can be reserved as far as sessions and faults are concerned. */
  predicate Reservable(plug: Plug) {
    plug.transactionId == 0 && plug.status !in {Charging, Preparing, Faulted, Unavailable}
  }

  /** The comment on reserveNow says that a connector already held cannot be reserved.
      It can, and the hold is gone, exactly if no scenario interferes and the
      connector is free of sessions and faults; otherwise nothing changes. */
  lemma OverwritesExactlyWhen(scenario: Scenario, plugs: Plugs, connector: int, id: int, held: int)
    requires connector in plugs && plugs[connector].reservationId == held && held != id
    ensures var r := ReserveNow(scenario, plugs, connector, id);
            && connector in r.plugs
            && (r.plugs[connector].reservationId != held <==> scenario == Normal && Reservable(plugs[connector]))
            && (r.answer == Accepted <==> r.plugs[connector].reservationId == id)
            && (r.answer != Accepted ==> r.plugs == plugs)
  {
  }

  /** Cancelling an id that only proper connectors hold makes one of them available,
      or is refused if there is none; everything else stays. */
  lemma CancelReservationIs(plugs: Plugs, id: int)
    requires 0 in plugs ==> plugs[0].reservationId != id
    ensures var r := CancelReservation(plugs, id);
            && (r.accepted <==> exists c :: c in plugs && plugs[c].reservationId == id)
            && (!r.accepted ==> r.plugs == plugs)
            && (r.accepted ==>
                  exists c :: c in plugs && plugs[c].reservationId == id
                    && r.plugs == plugs[c := Plug(0, plugs[c].transactionId, Available)])
  {
  }

  /** Cancelling an id that at most one proper connector holds leaves none holding
      it, and nobody else's reservation is touched. */
  lemma CancelReservationReleases(plugs: Plugs, id: int, other: int)
    requires id >= 1 && other >= 1
    requires forall c, d :: c in plugs && d in plugs ==>
               plugs[c].reservationId == id && plugs[d].reservationId == id ==> c == d
    requires 0 in plugs ==> plugs[0].reservationId != id
    ensures var r := CancelReservation(plugs, id);
            && !Holds(r.plugs, id)
            && (r.accepted <==> Holds(plugs, id))
            && (other != id ==> (Holds(r.plugs, other) <==> Holds(plugs, other)))
            && (forall c :: c in r.plugs && r.plugs[c].reservationId == other ==>
                  c in plugs && plugs[c].reservationId == other)
  {
    var r := CancelReservation(plugs, id);
    if other != id && Holds(plugs, other) {
      var c :| c in plugs && plugs[c].reservationId == other;
      assert r.plugs[c].reservationId == other;
    }
  }
}
