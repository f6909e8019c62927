/** The contents of state.json (internal/state/state.go) as values. */
module Contents {
  import opened Common

  const VERSION: int := 1

  datatype Reservation = Reservation(
    id: int, ocpiId: string, cp: string, evse: string, tag: string,
    expiresAt: Stamp, createdAt: Stamp, source: string, responseUrl: string)

  datatype Transaction = Transaction(
    id: string, cp: string, evse: string, connector: int, tag: string,
    meterStart: int, startedAt: Stamp, reservationId: int)

  datatype Endpoint = Endpoint(identifier: string, role: string, url: string)

  datatype PartyRole = PartyRole(countryCode: string, partyId: string, role: string)

  datatype Registration = Registration(
    registeredAt: Stamp, tokenB: string, versionsUrl: string, version: string,
    endpoints: seq<Endpoint>, roles: seq<PartyRole>)

  datatype State = State(
    version: int,
    ocpi: Option<Registration>,
    nextReservation: int,
    nextTransaction: int,
    nextRemoteStart: int,
    reservations: seq<Reservation>,
    transactions: seq<Transaction>)

  const EMPTY: State := State(VERSION, None, 0, 0, 0, [], [])

  function UtcReservation(r: Reservation): Reservation {
    r.(expiresAt := Utc(r.expiresAt), createdAt := Utc(r.createdAt))
  }

  function UtcTransaction(t: Transaction): Transaction {
    t.(startedAt := Utc(t.startedAt))
  }

  function UtcReservations(rs: seq<Reservation>): (us: seq<Reservation>)
    ensures |us| == |rs|
    ensures forall i :: 0 <= i < |rs| ==> us[i] == UtcReservation(rs[i])
  {
    seq(|rs|, i requires 0 <= i < |rs| => UtcReservation(rs[i]))
  }

  function UtcTransactions(ts: seq<Transaction>): (us: seq<Transaction>)
    ensures |us| == |ts|
    ensures forall i :: 0 <= i < |ts| ==> us[i] == UtcTransaction(ts[i])
  {
    seq(|ts|, i requires 0 <= i < |ts| => UtcTransaction(ts[i]))
  }

  function UtcRegistration(o: Option<Registration>): Option<Registration> {
    match o
    case None => None
    case Some(r) => Some(r.(registeredAt := Utc(r.registeredAt)))
  }

  /** The one form the store keeps and writes. */
  function Normal(s: State): State {
    s.(version := VERSION,
       ocpi := UtcRegistration(s.ocpi),
       reservations := UtcReservations(s.reservations),
       transactions := UtcTransactions(s.transactions))
  }

  lemma NormalIdempotent(s: State)
    ensures Normal(Normal(s)) == Normal(s)
    ensures Normal(EMPTY) == EMPTY
  {
    assert UtcReservations(UtcReservations(s.reservations)) == UtcReservations(s.reservations);
    assert UtcTransactions(UtcTransactions(s.transactions)) == UtcTransactions(s.transactions);
  }
}
