/** persist's write (internal/core/persist.go:31-38) against the state file: core
    reaches the store only through the interface of service.go:116-121, and this is
    what *state.Store makes of the edit core passes it. */
module Stored {
  import Contents
  import Durable
  import StateStore

  /** The edit persist hands to the store. The lists it installs are its own, so
      nothing that existed before is part of the store afterwards. */
  method WriteDown(store: StateStore.Store, d: Durable.Durable, io: StateStore.Io) returns (ok: bool)
    requires store.Valid() && StateStore.Survives(io)
    modifies store`state, store.disk
    ensures store.Valid()
    ensures ok <==> StateStore.Commits(io)
    ensures ok ==> Durable.Part(store.state.Value()) == Durable.Normal(d)
    ensures ok ==> fresh(store.state.Footprint() - {null})
    ensures store.state.Value().ocpi == old(store.state.Value()).ocpi
    ensures !ok ==> store.state == old(store.state)
    ensures !ok ==> store.state.Value() == old(store.state.Value()) && store.disk.main == old(store.disk.main)
  {
    var next := Edited(store, d);
    var out := store.FinishUpdate(next, false, io);
    ok := out.Done?;
  }

  method Edited(store: StateStore.Store, d: Durable.Durable) returns (next: StateStore.State)
    requires store.Valid()
    ensures fresh(next.Footprint() - {null})
    ensures Contents.Normal(next.Value()).ocpi == store.state.Value().ocpi
    ensures Durable.Part(Contents.Normal(next.Value())) == Durable.Normal(d)
  {
    Durable.OverlayKeepsRegistration(store.state.Value(), d);
    next := Filled(store, d);
  }

  method Filled(store: StateStore.Store, d: Durable.Durable) returns (next: StateStore.State)
    ensures fresh(next.Footprint() - {null})
    ensures next.Value() == Durable.Overlay(store.state.Value(), d)
  {
    var rs := StateStore.FromSeq(d.reservations);
    var ts := StateStore.FromSeq(d.transactions);
    next := store.BeginUpdate();
    Overwrite(next, d, rs, ts);
  }

  /** The function persist passes to Update: it installs the lists as they are. */
  method Overwrite(next: StateStore.State, d: Durable.Durable,
                   rs: array<Contents.Reservation>, ts: array<Contents.Transaction>)
    requires rs[..] == d.reservations && ts[..] == d.transactions
    modifies next
    ensures next.Value() == Durable.Overlay(old(next.Value()), d)
    ensures next.reservations == rs && next.transactions == ts && next.ocpi == old(next.ocpi)
  {
    next.nextReservation, next.nextTransaction := d.nextReservation, d.nextTransaction;
    next.nextRemoteStart := d.nextRemoteStart;
    next.reservations, next.transactions := rs, ts;
  }
}
