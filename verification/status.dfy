/** One charge point's EVSE statuses (internal/core/status.go and the parts of
    service.go that keep them). */
module EvseStatus {
  import opened Common
  import opened Core

  /** The OCPI statuses, and None for a connector that has not been reported. */
  datatype Status =
    | NotReported | Available | Blocked | Charging | Inoperative | OutOfOrder
    | Planned | Removed | Reserved | Unknown

  /** What cpms advertises, from what it knows of the station and one connector. */
  function Effective(online: bool, station: Status, connector: Status): Status {
    if !online then Unknown
    else
      match station
      case OutOfOrder => station
      case Inoperative => station
      case _ => if connector == NotReported then Unknown else connector
  }

  /** An EventEVSEStatusChanged. */
  datatype Change = Change(at: Stamp, evse: string, was: Status, now: Status, errorCode: string)

  /** The status a reader of the events has for an EVSE, starting from UNKNOWN. */
  function Replayed(changes: seq<Change>, uid: string): Status {
    if changes == [] then Unknown
    else if changes[|changes| - 1].evse == uid then changes[|changes| - 1].now
    else Replayed(changes[..|changes| - 1], uid)
  }

  lemma ReplayedAppend(changes: seq<Change>, c: Change, uid: string)
    ensures Replayed(changes + [c], uid) == if c.evse == uid then c.now else Replayed(changes, uid)
  {
    assert (changes + [c])[..|changes|] == changes;
  }

  /** Every event starts from the status replayed so far and moves away from it. */
  ghost predicate Chained(changes: seq<Change>) {
    forall i :: 0 <= i < |changes| ==>
      changes[i].was == Replayed(changes[..i], changes[i].evse) && changes[i].was != changes[i].now
  }

  lemma ChainedAppend(changes: seq<Change>, c: Change)
    requires Chained(changes) && c.was == Replayed(changes, c.evse) && c.was != c.now
    ensures Chained(changes + [c])
  {
    var more := changes + [c];
    forall i | 0 <= i < |more|
      ensures more[i].was == Replayed(more[..i], more[i].evse) && more[i].was != more[i].now
    {
      assert i < |changes| ==> more[..i] == changes[..i];
      assert i == |changes| ==> more[..i] == changes;
    }
  }

  /** One more event keeps the replay in step with the statuses. */
  lemma StepReplays(changes: seq<Change>, effective: map<string, Status>, c: Change)
    requires Tells(changes, effective) && c.evse in effective
    requires c.was == effective[c.evse] && c.was != c.now
    ensures Tells(changes + [c], effective[c.evse := c.now])
  {
    ChainedAppend(changes, c);
    forall uid
      ensures Replayed(changes + [c], uid) ==
              if uid == c.evse then c.now else if uid in effective then effective[uid] else Unknown
    {
      ReplayedAppend(changes, c, uid);
    }
  }

  // ----- recompute as a function ---------------------------------------------------

  /** What effective statuses are derived from. */
  datatype Facts = Facts(online: bool, station: Status, reported: map<string, Status>, errorCode: map<string, string>)

  function Wanted(f: Facts, uid: string): Status {
    Effective(f.online, f.station, if uid in f.reported then f.reported[uid] else NotReported)
  }

  /** The effective statuses once the EVSEs listed have been re-derived. */
  function Derived(order: seq<string>, f: Facts, effective: map<string, Status>): map<string, Status> {
    if order == [] then effective
    else
      var uid := order[|order| - 1];
      Derived(order[..|order| - 1], f, effective)[uid := Wanted(f, uid)]
  }

  /** The event for an EVSE whose status moves. */
  function Moved(f: Facts, uid: string, was: Status, at: Stamp): Change {
    Change(at, uid, was, Wanted(f, uid), if uid in f.errorCode then f.errorCode[uid] else "")
  }

  /** The events for them: one per EVSE whose status moved, in their order. */
  function Moves(order: seq<string>, f: Facts, effective: map<string, Status>, at: Stamp): seq<Change>
    requires forall uid :: uid in order ==> uid in effective
  {
    if order == [] then []
    else
      var uid := order[|order| - 1];
      var before := Moves(order[..|order| - 1], f, effective, at);
      if effective[uid] == Wanted(f, uid) then before
      else before + [Moved(f, uid, effective[uid], at)]
  }

  /** Re-deriving reaches every listed EVSE and no other. */
  lemma {:induction false} DerivedIs(order: seq<string>, f: Facts, effective: map<string, Status>, uid: string)
    requires forall u :: u in order ==> u in effective
    ensures Derived(order, f, effective).Keys == effective.Keys
    ensures uid in order ==> Derived(order, f, effective)[uid] == Wanted(f, uid)
    ensures uid in effective && uid !in order ==> Derived(order, f, effective)[uid] == effective[uid]
  {
    if order != [] {
      var init := order[..|order| - 1];
      DerivedIs(init, f, effective, uid);
      assert order == init + [order[|order| - 1]];
    }
  }

  /** The replay of a sequence of events agrees with a map of statuses. */
  ghost predicate Tells(changes: seq<Change>, effective: map<string, Status>) {
    Chained(changes) && forall uid :: Replayed(changes, uid) == if uid in effective then effective[uid] else Unknown
  }

  /** If the events so far tell the old statuses, the events of a recompute on top of
      them tell the new ones, each moving from what a reader had to something else. */
  lemma {:induction false} MovesTell(order: seq<string>, f: Facts, effective: map<string, Status>, at: Stamp,
                                     changes: seq<Change>)
    requires Distinct(order) && (forall uid :: uid in order ==> uid in effective)
    requires Tells(changes, effective)
    ensures Tells(changes + Moves(order, f, effective, at), Derived(order, f, effective))
  {
    if order == [] {
      assert changes + Moves(order, f, effective, at) == changes;
    } else {
      var init, uid := order[..|order| - 1], order[|order| - 1];
      MovesTell(init, f, effective, at, changes);
      DerivedIs(init, f, effective, uid);
      var before, told := Derived(init, f, effective), changes + Moves(init, f, effective, at);
      assert uid !in init;
      assert before[uid] == effective[uid];
      if effective[uid] == Wanted(f, uid) {
        assert before[uid := Wanted(f, uid)] == before;
      } else {
        var c := Moved(f, uid, effective[uid], at);
        StepReplays(told, before, c);
        assert changes + Moves(order, f, effective, at) == told + [c];
      }
    }
  }

  /** The round the loop makes for one EVSE. */
  lemma OneRound(order: seq<string>, f: Facts, effective: map<string, Status>, at: Stamp, k: nat)
    requires k < |order| && Distinct(order) && (forall uid :: uid in order ==> uid in effective)
    ensures var uid := order[k];
            var done := Derived(order[..k], f, effective);
            && uid in done && done[uid] == effective[uid]
            && Derived(order[..k + 1], f, effective) == done[uid := Wanted(f, uid)]
            && Moves(order[..k + 1], f, effective, at) ==
               Moves(order[..k], f, effective, at)
               + if effective[uid] == Wanted(f, uid) then []
                 else [Moved(f, uid, effective[uid], at)]
  {
    var uid := order[k];
    assert order[..k + 1][..k] == order[..k] && order[..k + 1][k] == uid;
    assert uid !in order[..k];
    DerivedIs(order[..k], f, effective, uid);
  }

  lemma AllDerived(order: seq<string>, f: Facts, effective: map<string, Status>)
    requires forall uid :: uid in order <==> uid in effective
    ensures Derived(order, f, effective).Keys == effective.Keys
    ensures forall uid :: uid in effective ==> Derived(order, f, effective)[uid] == Wanted(f, uid)
  {
    forall uid
      ensures Derived(order, f, effective).Keys == effective.Keys
      ensures uid in effective ==> Derived(order, f, effective)[uid] == Wanted(f, uid)
    {
      DerivedIs(order, f, effective, uid);
    }
  }

  /** An EVSE whose status did not move gets no event, one that moved gets one. */
  lemma {:induction false} MovesOnce(order: seq<string>, f: Facts, effective: map<string, Status>, at: Stamp,
                                     uid: string)
    requires Distinct(order) && (forall u :: u in order ==> u in effective)
    ensures |Mentioning(Moves(order, f, effective, at), uid)| ==
            if uid in order && effective[uid] != Wanted(f, uid) then 1 else 0
  {
    if order != [] {
      var init, last := order[..|order| - 1], order[|order| - 1];
      MovesOnce(init, f, effective, at, uid);
      assert order == init + [last] && last !in init;
      var before := Moves(init, f, effective, at);
      if effective[last] != Wanted(f, last) {
        var c := Moves(order, f, effective, at)[|before|];
        assert (before + [c])[..|before|] == before;
      }
    }
  }

  /** What an event of a recompute says. */
  lemma {:induction false} MovesSay(order: seq<string>, f: Facts, effective: map<string, Status>, at: Stamp, i: nat)
    requires forall u :: u in order ==> u in effective
    requires i < |Moves(order, f, effective, at)|
    ensures var c := Moves(order, f, effective, at)[i];
            && c.at == at && c.evse in order && c.was == effective[c.evse]
            && c.errorCode == (if c.evse in f.errorCode then f.errorCode[c.evse] else "")
            && c.now == if !f.online then Unknown
                        else if f.station == OutOfOrder || f.station == Inoperative then f.station
                        else if c.evse in f.reported && f.reported[c.evse] != NotReported then f.reported[c.evse]
                        else Unknown
  {
    var init := order[..|order| - 1];
    var before := Moves(init, f, effective, at);
    if i < |before| {
      MovesSay(init, f, effective, at, i);
    }
  }

  function Mentioning(changes: seq<Change>, uid: string): seq<Change> {
    if changes == [] then []
    else
      var before := Mentioning(changes[..|changes| - 1], uid);
      if changes[|changes| - 1].evse == uid then before + [changes[|changes| - 1]] else before
  }

  class ChargePoint {
    const id: string
    var online: bool
    var station: Status
    var order: seq<string>
    var connectorIds: map<string, int>
    var reported: map<string, Status>
    var errorCode: map<string, string>
    var effective: map<string, Status>
    var transactions: map<string, Transaction>
    /** Every status change event generated so far. */
    ghost var changes: seq<Change>

    ghost predicate Valid()
      reads this
    {
      && Distinct(order)
      && (forall uid :: uid in order <==> uid in effective)
      && effective.Keys == connectorIds.Keys
      && reported.Keys <= effective.Keys
      && Tells(changes, effective)
    }

    function Known(): Facts
      reads this
    {
      Facts(online, station, reported, errorCode)
    }

    /** The EVSE advertises what it should: UNKNOWN for a station out of reach, the
        station's own status if that is out of order or inoperative, and otherwise what
        was reported for the connector, UNKNOWN if nothing was. */
    predicate UpToDate(uid: string)
      reads this
    {
      uid in effective
      && effective[uid] ==
         if !online then Unknown
         else if station == OutOfOrder || station == Inoperative then station
         else if uid in reported && reported[uid] != NotReported then reported[uid]
         else Unknown
    }

    /** All EVSEs do. */
    ghost predicate Advertises()
      reads this
    {
      && (!online ==> forall uid :: uid in effective ==> effective[uid] == Unknown)
      && (online && (station == OutOfOrder || station == Inoperative) ==>
            forall uid :: uid in effective ==> effective[uid] == station)
      && (online && station != OutOfOrder && station != Inoperative ==>
            forall uid :: uid in effective ==>
              effective[uid] == if uid in reported && reported[uid] != NotReported then reported[uid] else Unknown)
    }

    /** What recompute makes of an EVSE. */
    predicate Follows(uid: string)
      reads this
    {
      uid in effective && effective[uid] == Wanted(Known(), uid)
    }

    ghost predicate AllUpToDate()
      reads this
    {
      forall uid :: uid in effective ==> UpToDate(uid)
    }

    lemma AllAdvertise()
      requires forall uid :: uid in effective ==> Follows(uid)
      ensures Advertises() && AllUpToDate()
    {
      assert forall uid :: uid in effective ==> Follows(uid) && UpToDate(uid);
    }

    constructor (id: string)
      ensures Valid() && this.id == id
      ensures !online && station == Available && order == [] && transactions == map[] && changes == []
      ensures effective == map[] && reported == map[]
    {
      this.id := id;
      online, station := false, Available;
      order, connectorIds, reported, errorCode, effective := [], map[], map[], map[], map[];
      transactions := map[];
      changes := [];
    }

    method AddEvse(uid: string, connectorId: int)
      requires Valid()
      modifies this`order, this`connectorIds, this`effective
      ensures Valid()
      ensures uid in old(effective) ==>
                order == old(order) && connectorIds == old(connectorIds) && effective == old(effective)
      ensures uid !in old(effective) ==>
                order == old(order) + [uid] && connectorIds == old(connectorIds)[uid := connectorId]
                && effective == old(effective)[uid := Unknown]
      ensures effective.Keys == old(effective.Keys) + {uid}
      ensures forall u :: old(UpToDate(u)) ==> UpToDate(u)
    {
      if uid in effective {
        return;
      }
      order := order + [uid];
      connectorIds := connectorIds[uid := connectorId];
      effective := effective[uid := Unknown];
    }

    /** What New does for the configured station before anything is reported. */
    method AddEvses(evses: seq<Evse>)
      requires Valid() && !online && AllUpToDate()
      modifies this`order, this`connectorIds, this`effective
      ensures Valid() && AllUpToDate()
      ensures forall e :: e in evses ==> e.uid in effective
    {
      for k := 0 to |evses|
        invariant Valid() && AllUpToDate()
        invariant forall e :: e in evses[..k] ==> e.uid in effective
      {
        AddEvse(evses[k].uid, evses[k].connector);
      }
    }

    /** Records a transaction, on an EVSE that may be new. */
    method AddTransaction(tx: Transaction)
      requires Valid()
      modifies this`order, this`connectorIds, this`effective, this`transactions
      ensures Valid() && transactions == old(transactions)[tx.id := tx]
      ensures tx.evse in effective
      ensures forall u :: old(UpToDate(u)) ==> UpToDate(u)
    {
      AddEvse(tx.evse, tx.connector);
      transactions := transactions[tx.id := tx];
    }

    /** Re-derives every effective status and returns the changes. */
    method Recompute(at: Stamp) returns (events: seq<Change>)
      requires Valid()
      modifies this`effective, this`changes
      ensures Valid()
      ensures effective == Derived(order, Known(), old(effective))
      ensures effective.Keys == old(effective.Keys)
      ensures Advertises() && AllUpToDate()
      ensures events == Moves(order, Known(), old(effective), at)
      ensures changes == old(changes) + events
    {
      events := Recomputed(at);
      AllAdvertise();
    }

    method Recomputed(at: Stamp) returns (events: seq<Change>)
      requires Valid()
      modifies this`effective, this`changes
      ensures Valid() && effective.Keys == old(effective.Keys)
      ensures effective == Derived(order, Known(), old(effective))
      ensures forall uid :: uid in effective ==> Follows(uid)
      ensures events == Moves(order, Known(), old(effective), at)
      ensures changes == old(changes) + events
    {
      events := Rederive(at);
      changes := changes + events;
      MovesTell(order, Known(), old(effective), at, old(changes));
      AllDerived(order, Known(), old(effective));
    }

    /** The loop of recompute. */
    method Rederive(at: Stamp) returns (events: seq<Change>)
      requires Distinct(order) && (forall uid :: uid in order ==> uid in effective)
      modifies this`effective
      ensures effective == Derived(order, Known(), old(effective))
      ensures events == Moves(order, Known(), old(effective), at)
    {
      ghost var f, was := Known(), effective;
      events := [];
      var k := 0;
      while k < |order|
        invariant 0 <= k <= |order|
        invariant effective == Derived(order[..k], f, was)
        invariant events == Moves(order[..k], f, was, at)
      {
        OneRound(order, f, was, at, k);
        var uid := order[k];
        var want := Effective(online, station, if uid in reported then reported[uid] else NotReported);
        var got := effective[uid];
        if got == want {
          assert effective[uid := want] == effective;
        } else {
          events := events + [Change(at, uid, got, want, if uid in errorCode then errorCode[uid] else "")];
          effective := effective[uid := want];
        }
        k := k + 1;
      }
      assert order[..k] == order;
    }

    // ----- what a station tells us -----------------------------------------------

    method SetOnline(up: bool, at: Stamp) returns (events: seq<Change>)
      requires Valid()
      modifies this`online, this`effective, this`changes
      ensures Valid() && Advertises() && AllUpToDate() && online == up
      ensures effective.Keys == old(effective.Keys) && changes == old(changes) + events
    {
      online := up;
      events := Recompute(at);
    }

    method SetStation(status: Status, at: Stamp) returns (events: seq<Change>)
      requires Valid()
      modifies this`station, this`effective, this`changes
      ensures Valid() && Advertises() && AllUpToDate() && station == status
      ensures effective.Keys == old(effective.Keys) && changes == old(changes) + events
    {
      station := status;
      events := Recompute(at);
    }

    method Report(uid: string, connectorId: int, status: Status, code: string, at: Stamp) returns (events: seq<Change>)
      requires Valid()
      modifies this`order, this`connectorIds, this`effective, this`changes, this`reported, this`errorCode
      ensures Valid() && Advertises() && AllUpToDate()
      ensures effective.Keys == old(effective.Keys) + {uid} && changes == old(changes) + events
      ensures reported == old(reported)[uid := status] && errorCode == old(errorCode)[uid := code]
    {
      AddEvse(uid, connectorId);
      Note(uid, status, code);
      events := Recompute(at);
    }

    /** A StatusNotification for a connector, or for the station if it is 0. */
    method SetStatus(uid: string, connector: int, status: Status, code: string, at: Stamp) returns (events: seq<Change>)
      requires Valid()
      modifies this`station, this`order, this`connectorIds, this`effective, this`changes, this`reported, this`errorCode
      ensures Valid() && Advertises() && AllUpToDate()
      ensures changes == old(changes) + events
      ensures connector == 0 ==>
                station == status && reported == old(reported) && errorCode == old(errorCode)
                && effective.Keys == old(effective.Keys)
      ensures connector != 0 ==>
                station == old(station) && reported == old(reported)[uid := status]
                && errorCode == old(errorCode)[uid := code] && effective.Keys == old(effective.Keys) + {uid}
    {
      if connector == 0 {
        events := SetStation(status, at);
      } else {
        events := Report(uid, connector, status, code, at);
      }
    }

    method Note(uid: string, status: Status, code: string)
      requires Valid() && uid in effective
      modifies this`reported, this`errorCode
      ensures Valid() && reported == old(reported)[uid := status] && errorCode == old(errorCode)[uid := code]
    {
      reported := reported[uid := status];
      errorCode := errorCode[uid := code];
    }
  }
}
