/** The reservation table (internal/core/reservations.go): the records with their
    timers, and what each critical section does to them. Part() is the value these
    fields stand for; core.dfy says what the sections make of such values. */
module Reservations {
  import opened Common
  import opened Core
  import Sections = Core
  import opened ManualClock
  import opened Listing
  import Durable
  import Contents

  /** The closure armLocked schedules. */
  datatype Callback = Expire(id: int, expiresAt: Stamp)

  /** A reservation and the expiry timer that only core sees. */
  class Record {
    var res: Reservation
    var timer: Timer?<Callback>

    constructor (res: Reservation)
      ensures this.res == res && timer == null
    {
      this.res, timer := res, null;
    }

    ghost function Timers(): set<Timer<Callback>>
      reads this`timer
    {
      if timer == null then {} else {timer}
    }

    method StopTimer()
      requires timer != null ==> timer.Valid()
      modifies this`timer, Timers()`stopped, Timers()`cancelled
      ensures timer == null
      ensures old(timer) != null ==> old(timer).Valid() && old(timer).stopped
    {
      if timer != null {
        var did := timer.Stop();
        timer := null;
      }
    }
  }

  class Table {
    const cfg: Config
    const clock: Clock<Callback>
    var reservations: map<int, Record>
    var nextReservation: int
    /** Timers an Advance has collected and whose callbacks have not run yet. */
    ghost var firing: set<Timer<Callback>>

    ghost function Entries(): map<int, Entry>
      reads this`reservations, reservations.Values
    {
      map id | id in reservations :: Entry(reservations[id].res, reservations[id].timer != null)
    }

    /** A core with these reservations and nothing else. */
    ghost function Part(): Core
      reads this`reservations, reservations.Values, this`nextReservation
    {
      Core(Entries(), map[], 0, nextReservation, 1, 1)
    }

    /** What holds whenever the lock is free and the table has not been closed. */
    ghost predicate Ok()
      reads this`reservations, this`nextReservation, this`firing, reservations.Values, clock, clock.all
    {
      TimersOk() && Sections.Valid(Part(), cfg)
    }

    function Now(): Stamp
      reads clock`now
    {
      Stamp(clock.now, false)
    }

    /** The timer is scheduled for this very record, or on its way to be run. */
    ghost predicate Armed(r: Record, id: int)
      reads r, r.timer, this`firing, clock`all
    {
      r.timer != null ==>
        && r.timer in clock.all
        && r.timer.fn == Expire(id, r.res.expiresAt)
        && (r.timer.stopped <==> r.timer in firing)
    }

    /** Every armed record has a timer of its own, and every timer that may still
        fire is some record's. */
    ghost predicate TimersOk()
      reads this`reservations, this`firing, reservations.Values, clock, clock.all
    {
      && clock.Valid()
      && firing <= clock.all
      && (forall id :: id in reservations ==> reservations[id].timer != null ==> reservations[id].timer in clock.all)
      && (forall id :: id in reservations ==> reservations[id].res.id == id && Armed(reservations[id], id))
      && (forall t :: t in clock.all && !t.stopped ==>
            t.fn.id in reservations && reservations[t.fn.id].timer == t)
      && (forall t :: t in firing ==> t.stopped)
      && (forall t :: t in clock.all ==> t.at == t.fn.expiresAt.at)
    }

    constructor (cfg: Config, clock: Clock<Callback>)
      requires clock.Valid() && clock.all == {}
      ensures this.cfg == cfg && this.clock == clock && Ok()
      ensures Entries() == map[] && nextReservation == 1 && firing == {}
    {
      this.cfg, this.clock := cfg, clock;
      reservations, nextReservation, firing := map[], 1, {};
    }

    /** endLocked. */
    method Remove(r: Record)
      requires TimersOk() && r.res.id in reservations && reservations[r.res.id] == r
      modifies this`reservations, r`timer, clock.all`stopped, clock.all`cancelled
      ensures TimersOk()
      ensures reservations == old(reservations) - {r.res.id}
      ensures forall t :: t in clock.all && !t.stopped ==> !old(t.stopped)
      ensures Entries() == old(Entries()) - {r.res.id}
    {
      Disarm(r);
      Delete(r.res.id);
    }

    /** stopTimer, for a record of the table. */
    method Disarm(r: Record)
      requires TimersOk() && r.res.id in reservations && reservations[r.res.id] == r
      modifies r`timer, clock.all`stopped, clock.all`cancelled
      ensures TimersOk() && r.timer == null
      ensures forall t :: t in clock.all && !t.stopped ==> !old(t.stopped)
      ensures Entries() == old(Entries())[r.res.id := Entry(r.res, false)]
    {
      assert forall id :: id in reservations ==> reservations[id].res.id == id;
      r.StopTimer();
      OnlyRecord(r);
    }

    /** No other record has changed. */
    twostate lemma OnlyRecord(r: Record)
      requires reservations == old(reservations) && r.res.id in reservations && reservations[r.res.id] == r
      requires forall id :: id in reservations && id != r.res.id ==>
                 && reservations[id].res == old(reservations[id].res)
                 && reservations[id].timer == old(reservations[id].timer)
      ensures Entries() == old(Entries())[r.res.id := Entry(r.res, r.timer != null)]
    {
      forall id | id in Entries() && id != r.res.id
        ensures Entries()[id] == old(Entries())[id]
      {
        assert reservations[id].res == old(reservations[id].res);
      }
      assert Entries() == old(Entries())[r.res.id := Entry(r.res, r.timer != null)];
    }

    method Delete(id: int)
      requires TimersOk() && (id in reservations ==> reservations[id].timer == null)
      modifies this`reservations
      ensures TimersOk() && reservations == old(reservations) - {id}
      ensures Entries() == old(Entries()) - {id}
    {
      reservations := reservations - {id};
      assert Entries() == old(Entries()) - {id};
    }

    method Insert(res: Reservation) returns (r: Record)
      requires TimersOk() && res.id !in reservations
      modifies this`reservations
      ensures TimersOk() && fresh(r) && r.res == res && r.timer == null
      ensures reservations == old(reservations)[res.id := r]
      ensures Entries() == old(Entries())[res.id := Entry(res, false)]
    {
      r := new Record(res);
      reservations := reservations[res.id := r];
      assert Entries() == old(Entries())[res.id := Entry(res, false)];
    }

    /** armLocked. */
    method Arm(r: Record)
      requires TimersOk() && r.res.id in reservations && reservations[r.res.id] == r && r.timer == null
      modifies r`timer, clock`timers, clock`all
      ensures TimersOk()
      ensures Entries() == old(Entries())[r.res.id := Entry(r.res, true)]
    {
      r.StopTimer();
      Schedule(r);
    }

    method Schedule(r: Record)
      requires TimersOk() && r.res.id in reservations && reservations[r.res.id] == r && r.timer == null
      modifies r`timer, clock`timers, clock`all
      ensures TimersOk()
      ensures Entries() == old(Entries())[r.res.id := Entry(r.res, true)]
    {
      assert forall id :: id in reservations ==> reservations[id].res.id == id;
      r.timer := clock.AfterFunc(r.res.expiresAt.at - clock.now, Expire(r.res.id, r.res.expiresAt));
      OnlyRecord(r);
    }

    method SetStatus(r: Record, st: Status)
      requires TimersOk() && r.res.id in reservations && reservations[r.res.id] == r
      modifies r`res
      ensures TimersOk() && r.res == old(r.res).(status := st)
      ensures Entries() == old(Entries())[r.res.id := Entry(r.res, r.timer != null)]
    {
      assert forall id :: id in reservations ==> reservations[id].res.id == id;
      r.res := r.res.(status := st);
      OnlyRecord(r);
    }

    // ----- reservations: the sections ---------------------------------------------

    /** reservationOnLocked. */
    method ReservationOn(uid: string) returns (r: Record?)
      requires TimersOk()
      ensures r != null <==> Occupied(Part(), uid)
      ensures r != null ==> r.res.id in reservations && reservations[r.res.id] == r && r.res.evse == uid
    {
      var rest := reservations.Keys;
      while rest != {}
        invariant rest <= reservations.Keys
        invariant forall id :: id in reservations.Keys - rest ==> reservations[id].res.evse != uid
      {
        assert (forall i :: i !in rest) ==> rest == {};
        var id :| id in rest;
        if reservations[id].res.evse == uid {
          assert Part().reservations[id].res.evse == uid;
          return reservations[id];
        }
        rest := rest - {id};
      }
      r := null;
    }

    method BeginSection(draft: Reservation) returns (r: Result<Reservation, BeginError>)
      requires Ok()
      modifies this`reservations, this`nextReservation
      ensures Ok()
      ensures Begun(Part(), r) == Sections.BeginReservation(old(Part()), cfg, draft, Now())
      ensures r.Ok? ==> r.value.id in reservations && reservations[r.value.id].timer == null
    {
      BeginKeeps(Part(), cfg, draft, Now());
      var connector := ConnectorOf(cfg.evses, draft.evse);
      if connector.None? {
        return Err(UnknownEvse);
      }
      var there := ReservationOn(draft.evse);
      if there != null {
        return Err(AlreadyReserved);
      }
      var res := draft.(id := nextReservation, connector := connector.value, createdAt := Now(), status := Pending);
      Add(res);
      r := Result.Ok(res);
    }

    /** A new record under the next id. */
    method Add(res: Reservation)
      requires TimersOk() && res.id == nextReservation && (forall id :: id in Entries() ==> id < nextReservation)
      modifies this`reservations, this`nextReservation
      ensures TimersOk() && res.id in reservations && reservations[res.id].timer == null
      ensures Entries() == old(Entries())[res.id := Entry(res, false)] && nextReservation == res.id + 1
    {
      assert nextReservation !in Entries();
      nextReservation := nextReservation + 1;
      var r := Insert(res);
    }

    /** BeginReservation removing a record it could not write. */
    method Drop(id: int)
      requires Ok() && (id in reservations ==> reservations[id].timer == null)
      modifies this`reservations
      ensures Ok() && Part() == Without(old(Part()), id)
    {
      WithoutKeeps(Part(), cfg, id);
      Delete(id);
    }

    method ActivateSection(id: int) returns (r: Option<Reservation>)
      requires Ok()
      modifies reservations.Values, clock`timers, clock`all
      ensures Ok()
      ensures r.Some? <==> HasStatus(old(Part()), id, Pending)
      ensures Part() == if r.Some? then Activate(old(Part()), id) else old(Part())
      ensures r.Some? ==> r.value == Activated(old(reservations[id].res))
    {
      if id !in reservations || reservations[id].res.status != Pending {
        return None;
      }
      StatusKeeps(Part(), cfg, id);
      assert Part().reservations[id].armed == false;
      TurnActive(reservations[id]);
      r := Some(reservations[id].res);
    }

    method TurnActive(r: Record)
      requires TimersOk() && r.res.id in reservations && reservations[r.res.id] == r && r.timer == null
      modifies r, clock`timers, clock`all
      ensures TimersOk() && r.res == Activated(old(r.res))
      ensures Entries() == old(Entries())[r.res.id := Entry(r.res, true)]
    {
      ghost var before, id := Entries(), r.res.id;
      SetStatus(r, Active);
      Arm(r);
      assert before[id := Entry(r.res, false)][id := Entry(r.res, true)] == before[id := Entry(r.res, true)];
    }

    method OrphanSection(id: int) returns (r: Option<Reservation>)
      requires Ok()
      modifies reservations.Values
      ensures Ok()
      ensures r.Some? <==> HasStatus(old(Part()), id, Pending)
      ensures Part() == if r.Some? then Orphan(old(Part()), id) else old(Part())
      ensures r.Some? ==> r.value == old(reservations[id].res).(status := Cancelling)
    {
      if id !in reservations || reservations[id].res.status != Pending {
        return None;
      }
      StatusKeeps(Part(), cfg, id);
      var rec := reservations[id];
      assert Part().reservations[id].armed == false;
      rec.StopTimer();
      SetStatus(rec, Cancelling);
      r := Some(rec.res);
    }

    method EndSection(id: int) returns (r: Option<Reservation>)
      requires Ok()
      modifies this`reservations, reservations.Values`timer, clock.all`stopped, clock.all`cancelled
      ensures Ok()
      ensures r.Some? <==> id in old(reservations)
      ensures Part() == Without(old(Part()), id)
      ensures r.Some? ==> r.value == old(reservations[id].res)
    {
      WithoutKeeps(Part(), cfg, id);
      if id !in reservations {
        assert Entries() - {id} == Entries();
        return None;
      }
      r := Some(reservations[id].res);
      Remove(reservations[id]);
    }

    /** expire, called for a timer that an Advance has collected. */
    method ExpireSection(t: Timer<Callback>) returns (gone: bool)
      requires Ok() && t in firing
      modifies this`reservations, this`firing, reservations.Values`timer, clock.all`stopped, clock.all`cancelled
      ensures Ok() && firing == old(firing) - {t}
      ensures forall u :: u in clock.all && !u.stopped ==> !old(u.stopped)
      ensures reservations.Values <= old(reservations.Values)
      ensures gone <==> ExpiryApplies(old(Part()), t.fn.id, t.fn.expiresAt)
      ensures Part() == if gone then Without(old(Part()), t.fn.id) else old(Part())
    {
      WithoutKeeps(Part(), cfg, t.fn.id);
      var Expire(id, expiresAt) := t.fn;
      if || id !in reservations
         || reservations[id].res.status != Active
         || reservations[id].res.expiresAt.at != expiresAt.at
      {
        Unarmed(t);
        Forget(t);
        return false;
      }
      Remove(reservations[id]);
      Forget(t);
      gone := true;
    }

    lemma Unarmed(t: Timer<Callback>)
      requires TimersOk() && TimersMatch(Part()) && !ExpiryApplies(Part(), t.fn.id, t.fn.expiresAt)
      ensures t.fn.id in reservations ==> reservations[t.fn.id].timer != t
    {
      var c := Part();
      assert t.fn.id in c.reservations ==>
          (c.reservations[t.fn.id].armed <==> c.reservations[t.fn.id].res.status == Active);
    }

    ghost method Forget(t: Timer<Callback>)
      requires TimersOk() && t in firing
      requires t.fn.id in reservations ==> reservations[t.fn.id].timer != t
      modifies this`firing
      ensures TimersOk() && firing == old(firing) - {t}
    {
      firing := firing - {t};
    }

    // ----- sessions -----------------------------------------------------------------

    /** redeemedLocked, and after it reservationOnEVSELocked: the reservation a
        starting session ends, and whether it is the one it redeems. */
    method FindEnded(cp: string, evse: string, t: Start) returns (r: Record?, redeems: bool)
      requires TimersOk() && OnePerEvse(Part())
      ensures r != null ==> r.res.id in reservations && reservations[r.res.id] == r
      ensures SessionEnds(Part(), cp, evse, t) ==
              if r == null then None else Some(Ended(r.res.id, if redeems then Consumed else Failed))
      ensures redeems ==> r != null
    {
      ghost var c := Part();
      if t.reservationId != 0 && t.reservationId in reservations {
        r := reservations[t.reservationId];
        if r.res.cp == cp && r.res.status == Active {
          return r, true;
        }
      }
      assert !(t.reservationId != 0 && ActiveAt(c, t.reservationId, cp));
      r := Find(cp, evse, Some(t.tag));
      if r != null {
        TheOneWithTag(c, cp, evse, t, r.res.id);
        return r, true;
      }
      r := Find(cp, evse, None);
      if r != null {
        TheOneThere(c, cp, evse, r.res.id);
      }
      redeems := false;
    }

    method Find(cp: string, evse: string, tag: Option<string>) returns (r: Record?)
      requires TimersOk()
      ensures r != null ==> r.res.id in reservations && reservations[r.res.id] == r
      ensures r != null ==> ActiveOn(Part(), r.res.id, cp, evse) && (tag.Some? ==> EqualFold(r.res.tag, tag.value))
      ensures r == null ==> forall id :: ActiveOn(Part(), id, cp, evse) ==>
                tag.Some? && !EqualFold(Part().reservations[id].res.tag, tag.value)
    {
      ghost var c := Part();
      var rest := reservations.Keys;
      while rest != {}
        invariant rest <= reservations.Keys
        invariant forall id :: id in reservations.Keys - rest && ActiveOn(c, id, cp, evse) ==>
                    tag.Some? && !EqualFold(c.reservations[id].res.tag, tag.value)
      {
        assert (forall i :: i !in rest) ==> rest == {};
        var id :| id in rest;
        var res := reservations[id].res;
        assert c.reservations[id].res == res;
        if res.cp == cp && res.evse == evse && res.status == Active && (tag.Some? ==> EqualFold(res.tag, tag.value)) {
          return reservations[id];
        }
        rest := rest - {id};
      }
      r := null;
    }

    method EndForSession(cp: string, evse: string, t: Start) returns (ended: Option<Ended>)
      requires Ok()
      modifies this`reservations, reservations.Values`timer, clock.all`stopped, clock.all`cancelled
      ensures Ok()
      ensures ended == SessionEnds(old(Part()), cp, evse, t)
      ensures Part() == if ended.Some? then Without(old(Part()), ended.value.id) else old(Part())
    {
      var r, redeems := FindEnded(cp, evse, t);
      if r == null {
        return None;
      }
      WithoutKeeps(Part(), cfg, r.res.id);
      ended := Some(Ended(r.res.id, if redeems then Consumed else Failed));
      Remove(r);
    }

    /** The active reservation on an EVSE, if there is one. */
    method ActiveReservation(evse: string) returns (r: Option<Reservation>)
      requires Ok()
      ensures r.Some? <==> exists id :: HasStatus(Part(), id, Active) && Part().reservations[id].res.evse == evse
      ensures r.Some? ==> r.value.evse == evse && HasStatus(Part(), r.value.id, Active)
                          && Part().reservations[r.value.id].res == r.value
    {
      var there := ReservationOn(evse);
      ghost var c := Part();
      if there == null || there.res.status != Active {
        if there != null {
          assert c.reservations[there.res.id].res == there.res;
          assert forall id :: id in c.reservations && c.reservations[id].res.evse == evse ==> id == there.res.id;
        }
        return None;
      }
      assert HasStatus(c, there.res.id, Active);
      r := Some(there.res);
    }

    // ----- time -------------------------------------------------------------------------

    /** Nothing that may still fire is due. */
    ghost predicate AllLater()
      reads clock, clock.all
    {
      forall t :: t in clock.all && !t.stopped ==> t.at > clock.now
    }

    /** Moves the clock. The timers that come due are on their way to be run. */
    method Collect(d: int) returns (due: seq<Timer<Callback>>)
      requires TimersOk() && firing == {}
      modifies clock`now, clock`timers, this`firing, clock.all`stopped, clock.all`fired
      ensures TimersOk() && clock.now == old(clock.now) + d
      ensures Distinct(due) && Ordered(due) && firing == Members(due)
      ensures forall t :: t in due ==> t.at <= clock.now
      ensures AllLater()
      ensures Part() == old(Part())
    {
      due := clock.Advance(d);
      firing := Members(due);
      assert forall t :: t in clock.all ==> (t in firing <==> t.stopped && !old(t.stopped));
      Collected();
    }

    twostate lemma Collected()
      requires old(TimersOk()) && old(firing) == {}
      requires reservations == old(reservations) && (forall id :: id in reservations ==>
                 && reservations[id].res == old(reservations[id].res)
                 && reservations[id].timer == old(reservations[id].timer))
      requires clock.Valid() && clock.all == old(clock.all) && firing <= clock.all
      requires forall t :: t in clock.all ==> (old(t.stopped) ==> t.stopped)
      requires forall t :: t in clock.all ==> (t in firing <==> t.stopped && !old(t.stopped))
      ensures TimersOk() && Part().reservations == old(Part()).reservations
    {
      forall id | id in reservations
        ensures Entries()[id] == old(Entries())[id]
      {
        assert reservations[id].res == old(reservations[id].res);
      }
      assert Entries() == old(Entries());
    }

    /** Once every collected timer has run, nothing active is overdue. */
    lemma Settled()
      requires TimersOk() && TimersMatch(Part()) && firing == {}
      requires AllLater()
      ensures NoneLapsed(Part(), clock.now)
    {
      var c := Part();
      forall id | id in c.reservations
        ensures !Lapsed(c.reservations[id].res, clock.now)
      {
        if c.reservations[id].res.status == Active {
          assert Armed(reservations[id], id);
        }
      }
    }

    /** Service.Close. */
    method StopAll()
      requires TimersOk()
      modifies reservations.Values`timer, clock.all`stopped, clock.all`cancelled
      ensures clock.Valid() && forall id :: id in reservations ==> reservations[id].timer == null
      ensures forall t :: t in clock.all ==> t.stopped
    {
      var rest := reservations.Keys;
      while rest != {}
        invariant rest <= reservations.Keys && TimersOk()
        invariant forall id :: id in reservations && id !in rest ==> reservations[id].timer == null
      {
        assert (forall i :: i !in rest) ==> rest == {};
        var id :| id in rest;
        Disarm(reservations[id]);
        rest := rest - {id};
      }
    }

    // ----- restart ----------------------------------------------------------------------

    method StartFrom(next: int)
      requires Ok() && reservations == map[] && next >= 1
      modifies this`nextReservation
      ensures Ok() && nextReservation == next && Entries() == map[]
    {
      nextReservation := next;
    }

    /** The loop of loadLocked over the stored reservations. */
    method Restore(rs: seq<Contents.Reservation>, now: Stamp) returns (dropped: bool)
      requires Ok() && reservations == map[] && Durable.DistinctIds(rs)
      requires forall i :: 0 <= i < |rs| ==> 1 <= rs[i].id
      modifies this`reservations, this`nextReservation, clock`timers, clock`all
      ensures Ok()
      ensures Part() == Durable.LoadReservations(old(Part()), cfg, now, rs)
      ensures dropped <==> exists r :: r in rs && !Durable.Keeps(cfg, now, r)
    {
      dropped := false;
      ghost var c := Part();
      for k := 0 to |rs|
        invariant TimersOk()
        invariant Part() == Durable.LoadReservations(c, cfg, now, rs[..k])
        invariant dropped <==> exists r :: r in rs[..k] && !Durable.Keeps(cfg, now, r)
      {
        var r := rs[k];
        OneMore(c, now, rs, k);
        if !Durable.Keeps(cfg, now, r) {
          dropped := true;
        } else {
          Readmit(Durable.Restored(cfg, r));
        }
      }
      assert rs[..|rs|] == rs;
      Durable.LoadedReservationsValid(c, cfg, now, rs);
    }

    lemma OneMore(c: Core, now: Stamp, rs: seq<Contents.Reservation>, k: nat)
      requires c.reservations == map[] && Durable.DistinctIds(rs) && k < |rs|
      ensures rs[..k + 1] == rs[..k] + [rs[k]]
      ensures Durable.LoadReservations(c, cfg, now, rs[..k + 1]) ==
              Durable.LoadReservation(Durable.LoadReservations(c, cfg, now, rs[..k]), cfg, now, rs[k])
      ensures rs[k].id !in Durable.LoadReservations(c, cfg, now, rs[..k]).reservations
    {
      assert rs[..k + 1][..k] == rs[..k];
      Durable.LoadReservationsExact(c, cfg, now, rs[..k]);
      if rs[k].id in Durable.LoadReservations(c, cfg, now, rs[..k]).reservations {
        assert false;
      }
    }

    method Readmit(res: Reservation)
      requires TimersOk() && res.id !in reservations
      modifies this`reservations, this`nextReservation, clock`timers, clock`all
      ensures TimersOk() && Entries() == old(Entries())[res.id := Entry(res, true)]
      ensures nextReservation == Max(old(nextReservation), res.id + 1)
    {
      ghost var before := Entries();
      var rec := Insert(res);
      Arm(rec);
      assert before[res.id := Entry(res, false)][res.id := Entry(res, true)] == before[res.id := Entry(res, true)];
      nextReservation := Max(nextReservation, res.id + 1);
    }

    // ----- what is written ----------------------------------------------------------

    /** The first half of persistableLocked. */
    method PersistableReservations(ghost entries: map<int, Entry>) returns (out: seq<Contents.Reservation>)
      requires TimersOk() && entries == Entries()
      ensures out == Ascending(Durable.ActiveStored(entries))
    {
      out := [];
      var rest := reservations.Keys;
      while rest != {}
        invariant rest <= reservations.Keys
        invariant ApartBy(out, IdOf)
        invariant forall r :: r in out <==>
                    r.id in entries && r.id !in rest && entries[r.id].res.status == Active
                    && r == Durable.Stored(entries[r.id].res)
      {
        assert (forall i :: i !in rest) ==> rest == {};
        var id :| id in rest;
        var res := reservations[id].res;
        assert entries[id].res == res && res.id == id;
        if res.status == Active {
          var stored := Contents.Reservation(res.id, res.ocpiId, res.cp, res.evse, res.tag,
                                             res.expiresAt, res.createdAt, res.source, res.responseUrl);
          assert stored == Durable.Stored(res);
          assert forall r :: r in out ==> r.id != id;
          out := out + [stored];
        }
        rest := rest - {id};
      }
      ActiveInOrder(out, entries);
      out := SortBy(out, IdOf);
    }
  }

  lemma TheOneThere(c: Core, cp: string, evse: string, id: int)
    requires OnePerEvse(c) && ActiveOn(c, id, cp, evse)
    ensures OnEvse(c, cp, evse) == Some(id)
  {
    assert ActiveOn(c, OnEvse(c, cp, evse).value, cp, evse);
  }

  lemma TheOneWithTag(c: Core, cp: string, evse: string, t: Start, id: int)
    requires OnePerEvse(c) && TagMatches(c, id, cp, evse, t.tag)
    requires !(t.reservationId != 0 && ActiveAt(c, t.reservationId, cp))
    ensures Redeemed(c, cp, evse, t) == Some(id)
  {
    assert TagMatches(c, Redeemed(c, cp, evse, t).value, cp, evse, t.tag);
  }
}
