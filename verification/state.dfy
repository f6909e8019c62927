/** The in-memory state and the state file (internal/state/state.go, store.go). */
module StateStore {
  import opened Common
  import Contents

  // ----- the state as it lies in memory ----------------------------------------

  function Listed<T>(a: array?<T>): seq<T>
    reads a
  {
    if a == null then [] else a[..]
  }

  /** A list is the one that was there, unless there was none. */
  ghost predicate Kept<T>(before: array?<T>, after: array?<T>) {
    before != null ==> after == before
  }

  /** append([]T{}, list...): a new list, never nil. */
  method Copied<T>(a: array?<T>) returns (b: array<T>)
    ensures fresh(b) && b[..] == Listed(a)
  {
    b := FromSeq(Listed(a));
  }

  method FromSeq<T>(s: seq<T>) returns (b: array<T>)
    ensures fresh(b) && b[..] == s
  {
    b := new T[|s|](i requires 0 <= i < |s| => s[i]);
  }

  class Registration {
    var registeredAt: Stamp
    const tokenB: string
    const versionsUrl: string
    const version: string
    const endpoints: array?<Contents.Endpoint>
    const roles: array?<Contents.PartyRole>

    constructor (registeredAt: Stamp, tokenB: string, versionsUrl: string, version: string,
                 endpoints: array?<Contents.Endpoint>, roles: array?<Contents.PartyRole>)
      ensures this.registeredAt == registeredAt && this.tokenB == tokenB
      ensures this.versionsUrl == versionsUrl && this.version == version
      ensures this.endpoints == endpoints && this.roles == roles
    {
      this.registeredAt, this.tokenB, this.versionsUrl, this.version := registeredAt, tokenB, versionsUrl, version;
      this.endpoints, this.roles := endpoints, roles;
    }

    /** What it is made of and somebody who holds it could change. */
    ghost function Parts(): set<object> {
      {this}
      + (if endpoints == null || endpoints.Length == 0 then {} else {endpoints})
      + (if roles == null || roles.Length == 0 then {} else {roles})
    }

    function Value(): Contents.Registration
      reads this, endpoints, roles
    {
      Contents.Registration(registeredAt, tokenB, versionsUrl, version, Listed(endpoints), Listed(roles))
    }

    method ToUtc()
      modifies this`registeredAt
      ensures Value() == old(Value()).(registeredAt := Utc(old(registeredAt)))
    {
      registeredAt := Utc(registeredAt);
    }

    method Clone() returns (c: Registration)
      ensures fresh(c) && c.endpoints != null && c.roles != null && fresh(c.endpoints) && fresh(c.roles)
      ensures c.Value() == Value()
    {
      var es := Copied(endpoints);
      var rs := Copied(roles);
      c := new Registration(registeredAt, tokenB, versionsUrl, version, es, rs);
    }
  }

  /** The lists of a state may be nil; ocpi is nil when there is no counterparty. */
  class State {
    var version: int
    var ocpi: Registration?
    var nextReservation: int
    var nextTransaction: int
    var nextRemoteStart: int
    var reservations: array?<Contents.Reservation>
    var transactions: array?<Contents.Transaction>

    function Ocpi(): Option<Contents.Registration>
      reads this`ocpi, ocpi, if ocpi == null then null else ocpi.endpoints, if ocpi == null then null else ocpi.roles
    {
      if ocpi == null then None else Some(ocpi.Value())
    }

    function Value(): Contents.State
      reads this, reservations, transactions
      reads ocpi, if ocpi == null then null else ocpi.endpoints, if ocpi == null then null else ocpi.roles
    {
      Contents.State(version, Ocpi(), nextReservation, nextTransaction, nextRemoteStart,
                     Listed(reservations), Listed(transactions))
    }

    /** Everything a holder of this state can reach and change. */
    ghost function Footprint(): set<object?>
      reads this`ocpi, this`reservations, this`transactions
    {
      {this, reservations, transactions, ocpi}
      + if ocpi == null then {} else {ocpi.endpoints, ocpi.roles}
    }

    /** What a copy of the struct shares with the original: its registration and its
        lists, apart from empty ones, in which there is nothing to write. */
    ghost function Parts(): set<object>
      reads this
    {
      (if ocpi == null then {} else ocpi.Parts())
      + (if reservations == null || reservations.Length == 0 then {} else {reservations})
      + (if transactions == null || transactions.Length == 0 then {} else {transactions})
    }

    constructor (version: int, ocpi: Registration?, nextReservation: int, nextTransaction: int, nextRemoteStart: int,
                 reservations: array?<Contents.Reservation>, transactions: array?<Contents.Transaction>)
      ensures this.version == version && this.ocpi == ocpi && this.nextReservation == nextReservation
      ensures this.nextTransaction == nextTransaction && this.nextRemoteStart == nextRemoteStart
      ensures this.reservations == reservations && this.transactions == transactions
    {
      this.version, this.ocpi, this.nextReservation := version, ocpi, nextReservation;
      this.nextTransaction, this.nextRemoteStart := nextTransaction, nextRemoteStart;
      this.reservations, this.transactions := reservations, transactions;
    }

    /** A deep copy: equal, and nothing of it is shared with anything that existed. */
    method Clone() returns (c: State)
      ensures fresh(c.Footprint() - {null})
      ensures c.Value() == Value()
    {
      var rs := Copied(reservations);
      var ts := Copied(transactions);
      var reg: Registration? := null;
      if ocpi != null {
        reg := ocpi.Clone();
      }
      c := new State(version, reg, nextReservation, nextTransaction, nextRemoteStart, rs, ts);
    }

    /** Assignment of the struct: the copy shares the lists and the registration. */
    method Struct() returns (c: State)
      ensures fresh(c) && c.Value() == Value() && c.Parts() == Parts() && c.reservations == reservations
      ensures c.Footprint() <= Footprint() + {c}
    {
      c := new State(version, ocpi, nextReservation, nextTransaction, nextRemoteStart, reservations, transactions);
    }

    /** normalize, in place: no list or registration is exchanged for another. */
    method Prepare()
      modifies this, reservations, transactions, ocpi
      ensures Value() == Contents.Normal(old(Value())) && Contents.Normal(Value()) == Value()
      ensures fresh(Footprint() - {null} - old(Footprint()))
      ensures Parts() == old(Parts()) && Kept(old(reservations), reservations)
      ensures Listed(reservations) == Contents.UtcReservations(old(Listed(reservations)))
      ensures Listed(transactions) == Contents.UtcTransactions(old(Listed(transactions)))
      ensures Kept(old(transactions), transactions) && ocpi == old(ocpi)
      ensures Ocpi() == Contents.UtcRegistration(old(Ocpi()))
    {
      Contents.NormalIdempotent(Value());
      Normalize();
    }

    /** Puts the state into its normal form, in place. */
    method Normalize()
      modifies this, reservations, transactions, ocpi
      ensures Value() == Contents.Normal(old(Value()))
      ensures fresh(Footprint() - {null} - old(Footprint()))
      ensures ocpi == old(ocpi)
      ensures reservations == old(reservations) || (old(reservations) == null && reservations.Length == 0)
      ensures transactions == old(transactions) || (old(transactions) == null && transactions.Length == 0)
    {
      version := Contents.VERSION;
      if reservations == null {
        reservations := new Contents.Reservation[0];
      }
      if transactions == null {
        transactions := new Contents.Transaction[0];
      }
      if ocpi != null {
        ocpi.ToUtc();
      }
      NormalizeReservations(reservations);
      NormalizeTransactions(transactions);
    }
  }

  method NormalizeReservations(rs: array<Contents.Reservation>)
    modifies rs
    ensures rs[..] == Contents.UtcReservations(old(rs[..]))
  {
    for i := 0 to rs.Length
      invariant forall k :: 0 <= k < i ==> rs[k] == Contents.UtcReservation(old(rs[k]))
      invariant forall k :: i <= k < rs.Length ==> rs[k] == old(rs[k])
    {
      rs[i] := rs[i].(expiresAt := Utc(rs[i].expiresAt), createdAt := Utc(rs[i].createdAt));
    }
  }

  method NormalizeTransactions(ts: array<Contents.Transaction>)
    modifies ts
    ensures ts[..] == Contents.UtcTransactions(old(ts[..]))
  {
    for i := 0 to ts.Length
      invariant forall k :: 0 <= k < i ==> ts[k] == Contents.UtcTransaction(old(ts[k]))
      invariant forall k :: i <= k < ts.Length ==> ts[k] == old(ts[k])
    {
      ts[i] := ts[i].(startedAt := Utc(ts[i].startedAt));
    }
  }

  method RegistrationFrom(o: Option<Contents.Registration>) returns (reg: Registration?)
    ensures o.None? <==> reg == null
    ensures reg != null ==> fresh(reg) && reg.endpoints != null && reg.roles != null
    ensures reg != null ==> fresh(reg.endpoints) && fresh(reg.roles) && o == Some(reg.Value())
  {
    if o.None? {
      return null;
    }
    var r := o.value;
    var es := FromSeq(r.endpoints);
    var rs := FromSeq(r.roles);
    reg := new Registration(r.registeredAt, r.tokenB, r.versionsUrl, r.version, es, rs);
  }

  /** A new state in memory with the given contents, as decoding a file or
      rewriting every field gives it. */
  method StateFrom(v: Contents.State) returns (st: State)
    ensures fresh(st.Footprint() - {null})
    ensures st.Value() == v
  {
    var rs := FromSeq(v.reservations);
    var ts := FromSeq(v.transactions);
    var reg := RegistrationFrom(v.ocpi);
    st := new State(v.version, reg, v.nextReservation, v.nextTransaction, v.nextRemoteStart, rs, ts);
  }

  // ----- files -------------------------------------------------------------------

  /** What decoding can find out about a file. The body is None if it does not
      decode into the current types. */
  datatype File =
    | NotJson
    | NoVersion
    | Versioned(version: int, body: Option<Contents.State>)

  datatype OpenError = Unreadable | Unparsable | VersionMissing | Newer | Unsupported

  /** json.MarshalIndent: a state reads back as itself. */
  function Encoded(s: Contents.State): File {
    Versioned(s.version, Some(s))
  }

  function Parse(f: File): Result<Contents.State, OpenError> {
    match f
    case NotJson => Err(Unparsable)
    case NoVersion => Err(VersionMissing)
    case Versioned(v, body) =>
      if v > Contents.VERSION then Err(Newer)
      else if v != Contents.VERSION then Err(Unsupported)
      else
        match body
        case None => Err(Unparsable)
        case Some(s) => Ok(Contents.Normal(s))
  }

  /** What an Open of this file gives; None stands for no file. */
  function Reopened(f: Option<File>): Result<Contents.State, OpenError> {
    match f
    case None => Ok(Contents.EMPTY)
    case Some(file) => Parse(file)
  }

  /** No file is an empty state. A file that is not JSON has no version to find; then
      the version decides before the rest is decoded; and what can be decoded is read
      in its normal form. */
  lemma ReopenedIs(f: Option<File>)
    ensures f.None? ==> Reopened(f) == Ok(Contents.State(1, None, 0, 0, 0, [], []))
    ensures f == Some(NotJson) ==> Reopened(f) == Err(Unparsable)
    ensures f == Some(NoVersion) ==> Reopened(f) == Err(VersionMissing)
    ensures f.Some? && f.value.Versioned? ==>
              var v, body := f.value.version, f.value.body;
              && (Reopened(f) == Err(Newer) <==> v >= 2)
              && (Reopened(f) == Err(Unsupported) <==> v <= 0)
              && (Reopened(f) == Err(Unparsable) <==> v == 1 && body.None?)
              && (Reopened(f).Ok? ==> v == 1 && body.Some? && Reopened(f).value == Contents.Normal(body.value))
              && Reopened(f) != Err(Unreadable) && Reopened(f) != Err(VersionMissing)
  {
  }

  /** The outcome of one system call. A process may die before the call has had its
      effect or after. */
  datatype Outcome = Works | Fails | DiesBefore | DiesAfter

  predicate Takes(o: Outcome) {
    o.Works? || o.DiesAfter?
  }

  predicate Dies(o: Outcome) {
    o.DiesBefore? || o.DiesAfter?
  }

  /** The outcomes of the system calls of one write, and what a write that fails or
      is cut short leaves in the temporary file. */
  datatype Io = Io(
    create: Outcome, write: Outcome, sync: Outcome, close: Outcome,
    rename: Outcome, remove: Outcome, syncDir: Outcome, torn: File)

  /** The write gets as far as the rename, and the rename takes place. */
  predicate Commits(io: Io) {
    io.create.Works? && io.write.Works? && io.sync.Works? && io.close.Works? && Takes(io.rename)
  }

  /** No call kills the process. */
  predicate Survives(io: Io) {
    !Dies(io.create) && !Dies(io.write) && !Dies(io.sync) && !Dies(io.close)
    && !Dies(io.rename) && !Dies(io.remove) && !Dies(io.syncDir)
  }

  datatype Wrote = Done | WriteFailed | Died

  /** The directory of the state file: the file itself and the temporary files next
      to it, under names that CreateTemp never gives twice. */
  class Disk {
    var main: Option<File>
    var temps: map<nat, File>
    var unused: nat

    ghost predicate Valid()
      reads this
    {
      forall t :: t in temps ==> t < unused
    }

    constructor (main: Option<File>)
      ensures Valid() && this.main == main && temps == map[]
    {
      this.main, temps, unused := main, map[], 0;
    }

    method CreateTemp(o: Outcome) returns (tmp: nat)
      requires Valid()
      modifies this`temps, this`unused
      ensures Valid()
      ensures tmp == old(unused) && tmp !in old(temps)
      ensures temps == if Takes(o) then old(temps)[tmp := NotJson] else old(temps)
    {
      tmp := unused;
      unused := unused + 1;
      if Takes(o) {
        temps := temps[tmp := NotJson];
      }
    }

    /** Writes, syncs, closes and renames the temporary file. */
    method Replace(tmp: nat, st: Contents.State, io: Io) returns (out: Wrote)
      requires tmp in temps
      modifies this`main, this`temps
      ensures main == if Commits(io.(create := Works)) then Some(Encoded(st)) else old(main)
      ensures temps - {tmp} == old(temps) - {tmp}
      ensures out.Done? ==> Commits(io.(create := Works)) && tmp !in temps
      ensures out.WriteFailed? ==> !Commits(io.(create := Works))
      ensures out.Done? ==> io.write.Works? && io.sync.Works? && io.close.Works? && io.rename.Works?
      ensures out.WriteFailed? ==> io.write.Fails? || io.sync.Fails? || io.close.Fails? || io.rename.Fails?
      ensures Survives(io) ==> !out.Died?
    {
      temps := temps[tmp := if Takes(io.write) then Encoded(st) else io.torn];
      if !io.write.Works? {
        return if io.write.Fails? then WriteFailed else Died;
      }
      if !io.sync.Works? {
        return if io.sync.Fails? then WriteFailed else Died;
      }
      if !io.close.Works? {
        return if io.close.Fails? then WriteFailed else Died;
      }
      if Takes(io.rename) {
        main, temps := Some(temps[tmp]), temps - {tmp};
      }
      if !io.rename.Works? {
        return if io.rename.Fails? then WriteFailed else Died;
      }
      return if Dies(io.syncDir) then Died else Done;
    }

    /** Replaces the state file. Whatever happens on the way it is the old file or
        the new one, and it is the new one exactly when the rename took place. */
    method Write(st: Contents.State, io: Io) returns (out: Wrote)
      requires Valid()
      modifies this
      ensures Valid()
      ensures main == if Commits(io) then Some(Encoded(st)) else old(main)
      ensures out.Done? ==> Commits(io) && temps == old(temps)
      ensures out.WriteFailed? ==> !Commits(io) && (Takes(io.remove) ==> temps == old(temps))
      ensures Survives(io) ==> !out.Died?
      ensures out.Done? ==>
                io.create.Works? && io.write.Works? && io.sync.Works? && io.close.Works? && io.rename.Works?
      ensures out.WriteFailed? ==>
                io.create.Fails? || io.write.Fails? || io.sync.Fails? || io.close.Fails? || io.rename.Fails?
      ensures temps - {old(unused)} == old(temps)
    {
      var tmp := CreateTemp(io.create);
      if !io.create.Works? {
        return if io.create.Fails? then WriteFailed else Died;
      }
      ghost var before := temps;
      out := Replace(tmp, st, io);
      assert before - {tmp} == old(temps);
      assert forall t :: t in temps ==> t == tmp || t in temps - {tmp};
      assert tmp !in temps ==> temps - {tmp} == temps;
      if out.WriteFailed? {
        if Takes(io.remove) {
          temps := temps - {tmp};
        }
        if Dies(io.remove) {
          return Died;
        }
      }
    }
  }

  class Store {
    const disk: Disk
    var state: State

    /** Memory is what a reopen would read. */
    ghost predicate Valid()
      reads this, disk, state, state.Footprint()
    {
      disk.Valid() && Reopened(disk.main) == Ok(state.Value())
    }

    constructor (disk: Disk, state: State)
      ensures this.disk == disk && this.state == state
    {
      this.disk, this.state := disk, state;
    }

    /** Opening never changes the directory; it fails exactly when there is a file
        that cannot be read or is not a state of this version. */
    static method Open(disk: Disk, readable: bool) returns (r: Result<Store, OpenError>)
      requires disk.Valid()
      ensures r.Ok? ==> fresh(r.value) && r.value.Valid() && r.value.disk == disk
      ensures r.Ok? ==> fresh(r.value.state.Footprint() - {null})
      ensures r.Ok? <==> disk.main.None? || (readable && Reopened(disk.main).Ok?)
      ensures r.Err? ==> r.error == if !readable then Unreadable else Reopened(disk.main).error
    {
      if disk.main.None? {
        var none := StateFrom(Contents.EMPTY);
        var s := new Store(disk, none);
        return Ok(s);
      }
      if !readable {
        return Err(Unreadable);
      }
      var file := disk.main.value;
      if file.NotJson? {
        return Err(Unparsable);
      }
      if file.NoVersion? {
        return Err(VersionMissing);
      }
      if file.version > Contents.VERSION {
        return Err(Newer);
      }
      if file.version != Contents.VERSION {
        return Err(Unsupported);
      }
      if file.body.None? {
        return Err(Unparsable);
      }
      var st := StateFrom(file.body.value);
      st.Normalize();
      var s := new Store(disk, st);
      r := Ok(s);
    }

    /** A copy of which nothing is shared with the store or with earlier copies. */
    method Get() returns (c: State)
      ensures fresh(c.Footprint() - {null})
      ensures c.Value() == state.Value()
    {
      c := state.Clone();
    }

    /** Update up to the call of fn, which then edits the copy it is given: it may
        assign its fields, write into its lists and install lists or a registration
        of its own. */
    method BeginUpdate() returns (next: State)
      ensures fresh(next.Footprint() - {null})
      ensures next.Value() == state.Value()
    {
      next := state.Clone();
    }

    /** Update from the return of fn on. The edit takes place in memory and on disk
        or in neither, and if the process dies the next one reads either the old
        state or the new one. On success the store takes a copy of the struct, so
        what it is made of is what fn has left: lists of its caller's, or even lists
        that the store adopted before. */
    method FinishUpdate(next: State, failed: bool, io: Io) returns (out: Wrote)
      requires Valid() && next != state
      modifies this`state, disk, next, next.reservations, next.transactions, next.ocpi
      ensures out.Died? || Valid()
      ensures if out.Done? then fresh(state) else state == old(state)
      ensures out.Done? ==> !failed && Commits(io) && state.Value() == Contents.Normal(old(next.Value()))
      ensures out.Done? ==> fresh(state.Footprint() - {null} - old(next.Footprint()))
      ensures out.Done? ==> state.Parts() == old(next.Parts()) && Kept(old(next.reservations), state.reservations)
      ensures !out.Done? ==> state.Value() == old(state.Value())
      ensures out.WriteFailed? ==> disk.main == old(disk.main) && (failed || !Commits(io))
      ensures out.Died? ==>
                || Reopened(disk.main) == Ok(old(state.Value()))
                || (!failed && Reopened(disk.main) == Ok(Contents.Normal(old(next.Value()))))
      ensures Survives(io) || failed ==> !out.Died?
    {
      if failed {
        return WriteFailed;
      }
      Prepare(next);
      out := Save(next, io);
    }

    method Prepare(next: State)
      requires Valid() && next != state
      modifies next, next.reservations, next.transactions, next.ocpi
      ensures Valid() && state.Value() == old(state.Value())
      ensures next.Value() == Contents.Normal(old(next.Value())) && Contents.Normal(next.Value()) == next.Value()
      ensures next.Parts() == old(next.Parts()) && Kept(old(next.reservations), next.reservations)
      ensures fresh(next.Footprint() - {null} - old(next.Footprint()))
    {
      next.Prepare();
      NormalStays();
    }

    /** Normalizing lists or a registration of the store's own changes nothing. */
    twostate lemma NormalStays()
      requires old(Valid()) && unchanged(this) && unchanged(disk) && unchanged(state)
      requires Listed(state.reservations) == old(Listed(state.reservations))
               || Listed(state.reservations) == Contents.UtcReservations(old(Listed(state.reservations)))
      requires Listed(state.transactions) == old(Listed(state.transactions))
               || Listed(state.transactions) == Contents.UtcTransactions(old(Listed(state.transactions)))
      requires state.Ocpi() == old(state.Ocpi()) || state.Ocpi() == Contents.UtcRegistration(old(state.Ocpi()))
      ensures Valid() && state.Value() == old(state.Value())
    {
      if old(disk.main).Some? && old(disk.main).value.Versioned? && old(disk.main).value.body.Some? {
        Contents.NormalIdempotent(old(disk.main).value.body.value);
      }
      Contents.NormalIdempotent(Contents.EMPTY);
      assert Contents.Normal(old(state.Value())) == old(state.Value());
    }

    /** The write, and if it succeeded the switch to a copy of the new struct. */
    method Save(next: State, io: Io) returns (out: Wrote)
      requires Valid() && Contents.Normal(next.Value()) == next.Value()
      modifies this`state, disk
      ensures out.Died? || Valid()
      ensures if out.Done? then fresh(state) else state == old(state)
      ensures out.Done? ==> state.Value() == next.Value() && state.Parts() == next.Parts()
      ensures out.Done? ==> state.reservations == next.reservations
      ensures out.Done? ==> state.Footprint() <= next.Footprint() + {state}
      ensures next.Value() == old(next.Value()) && next.Parts() == old(next.Parts())
      ensures next.reservations == old(next.reservations) && next.Footprint() == old(next.Footprint())
      ensures old(state).Value() == old(state.Value())
      ensures out.Done? ==> Commits(io)
      ensures out.WriteFailed? ==> disk.main == old(disk.main) && !Commits(io)
      ensures out.Died? ==> Reopened(disk.main) == Ok(old(state.Value())) || Reopened(disk.main) == Ok(next.Value())
      ensures Survives(io) ==> !out.Died?
    {
      out := disk.Write(next.Value(), io);
      if out.Done? {
        Adopt(next);
      }
    }

    method Adopt(next: State)
      requires disk.Valid() && Reopened(disk.main) == Ok(next.Value())
      modifies this`state
      ensures Valid() && fresh(state) && state.Value() == next.Value()
      ensures state.Parts() == next.Parts() && state.reservations == next.reservations
      ensures state.Footprint() <= next.Footprint() + {state}
    {
      state := next.Struct();
    }

    // ----- who may write what -----------------------------------------------------

    /** Writes to objects that are not among the store's parts leave memory and file in
        step; its own fields, and the struct it has copied, are out of reach. */
    twostate lemma HarmlessWrites(held: set<object>)
      requires old(Valid()) && old(state.Parts()) !! held
      requires unchanged(this) && unchanged(disk) && unchanged(state)
      requires forall o :: o in old(state.Footprint()) && o != null && o !in held ==> unchanged(o)
      ensures Valid() && state.Value() == old(state.Value())
    {
      var st := state;
      assert Listed(st.reservations) == old(Listed(st.reservations));
      assert Listed(st.transactions) == old(Listed(st.transactions));
      if st.ocpi != null {
        var r := st.ocpi;
        assert unchanged(r);
        assert Listed(r.endpoints) == old(Listed(r.endpoints));
        assert Listed(r.roles) == old(Listed(r.roles));
      }
    }

    /** And whoever holds one of them can make memory differ from the file, with a
        write the store never sees. */
    method Spoil(held: set<object>)
      requires Valid() && state.Parts() * held != {}
      modifies held
      ensures !Valid()
    {
      if state.reservations != null && state.reservations.Length > 0 && state.reservations in held {
        var a := state.reservations;
        a[0] := a[0].(id := a[0].id + 1);
        assert Listed(a)[0] != old(Listed(a)[0]);
      } else if state.transactions != null && state.transactions.Length > 0 && state.transactions in held {
        var a := state.transactions;
        a[0] := a[0].(meterStart := a[0].meterStart + 1);
        assert Listed(a)[0] != old(Listed(a)[0]);
      } else {
        SpoilRegistration(held);
      }
    }

    method SpoilRegistration(held: set<object>)
      requires Valid() && state.ocpi != null && state.ocpi.Parts() * held != {}
      modifies held
      ensures !Valid()
    {
      var r := state.ocpi;
      if r in held {
        r.registeredAt := r.registeredAt.(at := r.registeredAt.at + 1);
      } else if r.endpoints != null && r.endpoints.Length > 0 && r.endpoints in held {
        r.endpoints[0] := r.endpoints[0].(url := r.endpoints[0].url + "/");
        assert Listed(r.endpoints)[0] != old(Listed(r.endpoints)[0]);
      } else {
        r.roles[0] := r.roles[0].(role := r.roles[0].role + "-");
        assert Listed(r.roles)[0] != old(Listed(r.roles)[0]);
      }
    }
  }

  /** An update whose fn installs a list that its caller goes on holding. */
  method Install(store: Store, list: array<Contents.Reservation>, io: Io)
    requires store.Valid() && Survives(io) && Commits(io)
    modifies store`state, store.disk, list
    ensures store.Valid() && store.state.reservations == list
    ensures fresh(store.state)
  {
    var next := store.BeginUpdate();
    next.reservations := list;
    var out := store.FinishUpdate(next, false, io);
  }

  method OpenEmpty(disk: Disk) returns (store: Store)
    requires disk.Valid() && disk.main.None?
    ensures fresh(store) && fresh(store.state) && store.Valid() && store.disk == disk
  {
    var r := Store.Open(disk, true);
    store := r.value;
  }

  /** Writing into it afterwards changes memory and not the file. */
  method ARetainedListSpoils(io: Io, r: Contents.Reservation) returns (store: Store)
    requires Survives(io) && Commits(io)
    ensures store.disk.Valid() && !store.Valid()
  {
    var disk := new Disk(None);
    store := OpenEmpty(disk);
    var list := new Contents.Reservation[1](_ => r);
    Install(store, list, io);
    label installed:
    list[0] := list[0].(id := list[0].id + 1);
    assert Listed(list)[0] != old@installed(Listed(list)[0]);
  }

  /** A pointer to the struct that fn was given is harmless: the store has copied it. */
  method ARetainedStructIsHarmless(store: Store, io: Io)
    requires store.Valid() && Survives(io)
    modifies store`state, store.disk
    ensures store.Valid()
  {
    var next := store.BeginUpdate();
    var out := store.FinishUpdate(next, false, io);
    WriteFields(store, next);
  }

  method WriteFields(store: Store, next: State)
    requires store.Valid() && next != store.state
    modifies next
    ensures store.Valid()
  {
    next.nextReservation, next.reservations := next.nextReservation + 1, null;
    store.HarmlessWrites({next});
  }
}
