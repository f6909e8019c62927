/** Core's operations racing each other, their writes and crashes
    (internal/core/persist.go, reservations.go, transactions.go).

    Every operation changes memory in one critical section under mu and then, with
    mu released, waits for persistMu, takes a snapshot and hands it to the store,
    which commits it or fails. The machine interleaves any number of operations at
    those points. A restart may come at any moment: it discards memory and every
    operation under way and loads the file, possibly under a new configuration. */
module Persistence {
  import opened Common
  import opened Core
  import opened Durable
  import Contents

  /** What an operation does once its write has an outcome. */
  datatype Kind =
    | Recording(id: int)  // BeginReservation: returns the id, or drops the record
    | Starting(id: int)   // NextRemoteStartID: returns the id, or an error
    | Plain(ticket: nat)  // anything else: a failed write is only logged

  /** The holder of persistMu, its snapshot, and how many transaction ids had been
      handed out when the snapshot was taken. */
  datatype Writer = Writer(kind: Kind, snap: Durable, seen: nat)

  datatype Queue = Queue(waiting: set<Kind>, writer: Option<Writer>, dropping: set<int>)

  /** What happened to reservations in this run: the ids that entered the table,
      the ids for which an event of either kind was generated, and those removed
      because their counter write failed. */
  datatype Ledger = Ledger(entered: set<int>, created: multiset<int>, ended: multiset<int>, unrecorded: set<int>)

  /** The ids handed to callers over all runs, oldest first. Transaction ids from
      runStart on belong to the current run; covered marks the positions in txIds
      for which a write of the same run, whose snapshot followed the allocation,
      has committed. */
  datatype History = History(reserved: seq<int>, remotes: seq<int>, txIds: seq<int>, runStart: nat, covered: set<nat>)

  datatype State = State(
    cfg: Config,
    core: Core,
    file: Durable,
    queue: Queue,
    lastFailed: bool,
    ledger: Ledger,
    history: History)

  /** Changes other than handing out ids. The first five are followed by a write,
      the last two are not. */
  datatype Change =
    | Activating(id: int)
    | Ending(id: int)
    | Expiring(id: int, expiresAt: Stamp)
    | StartingSession(cp: string, t: Start, now: Stamp)
    | StoppingSession(cp: string, tx: string, meterStop: int, reason: string, at: Stamp)
    | Orphaning(id: int)
    | EndingCancelling(id: int)

  datatype Step =
    | Begin(draft: Reservation, now: Stamp)
    | Change(change: Change, ticket: nat)
    | AllocTransaction(ticket: nat)
    | AllocRemoteStart
    | Take(kind: Kind)   // lock persistMu and read the snapshot
    | Commit
    | Fail
    | Drop(id: int)      // BeginReservation removing a record it could not write
    | Restart(cfg: Config, now: Stamp)

  /** BeginReservation has not returned yet, so nobody else knows the id. */
  predicate BeingBegun(q: Queue, id: int) {
    Recording(id) in q.waiting || id in q.dropping || (q.writer.Some? && q.writer.value.kind == Recording(id))
  }

  predicate Writes(ch: Change) {
    !ch.Orphaning? && !ch.EndingCancelling?
  }

  predicate Applies(c: Core, ch: Change) {
    match ch
    case Activating(id) => HasStatus(c, id, Pending)
    case Ending(id) => HasStatus(c, id, Pending) || HasStatus(c, id, Active)
    case Expiring(id, expiresAt) => ExpiryApplies(c, id, expiresAt)
    case StartingSession(_, _, _) => true
    case StoppingSession(cp, tx, _, _, _) => Running(c.txs, cp, tx)
    case Orphaning(id) => HasStatus(c, id, Pending)
    case EndingCancelling(id) => HasStatus(c, id, Cancelling)
  }

  /** Ids that callers pass in, as opposed to those core finds itself. */
  predicate Passes(ch: Change, id: int) {
    (ch.Activating? || ch.Ending? || ch.Orphaning? || ch.EndingCancelling?) && ch.id == id
  }

  ghost function After(c: Core, cfg: Config, ch: Change): Core
    requires Applies(c, ch)
  {
    match ch
    case Activating(id) => Activate(c, id)
    case Ending(id) => Without(c, id)
    case Expiring(id, _) => Without(c, id)
    case StartingSession(cp, t, now) => StartSession(c, cfg, cp, t, now).core
    case StoppingSession(cp, tx, meterStop, reason, at) => StopSession(c, cp, tx, meterStop, reason, at)
    case Orphaning(id) => Orphan(c, id)
    case EndingCancelling(id) => Without(c, id)
  }

  /** The id for which the change reports an end, if it does. */
  ghost function Reports(c: Core, cfg: Config, ch: Change): Option<int>
    requires Applies(c, ch)
  {
    match ch
    case Ending(id) => Some(id)
    case Expiring(id, _) => Some(id)
    case Orphaning(id) => Some(id)
    case StartingSession(cp, t, now) =>
      (match StartSession(c, cfg, cp, t, now).ended
       case None => None
       case Some(e) => Some(e.id))
    case _ => None
  }

  ghost function Entered(l: Ledger, c: Core, cfg: Config, ch: Change): Ledger
    requires Applies(c, ch)
  {
    var l1 := if ch.Activating? then l.(created := l.created + multiset{ch.id}) else l;
    match Reports(c, cfg, ch)
    case None => l1
    case Some(id) => l1.(ended := l1.ended + multiset{id})
  }

  ghost predicate Enabled(s: State, st: Step) {
    match st
    case Begin(_, _) => true
    case Change(ch, ticket) =>
      Applies(s.core, ch) && Plain(ticket) !in s.queue.waiting
      && forall id :: Passes(ch, id) ==> !BeingBegun(s.queue, id)
    case AllocTransaction(ticket) => Plain(ticket) !in s.queue.waiting
    case AllocRemoteStart => true
    case Take(kind) => s.queue.writer == None && kind in s.queue.waiting
    case Commit => s.queue.writer.Some?
    case Fail => s.queue.writer.Some?
    case Drop(id) => id in s.queue.dropping
    case Restart(cfg, _) => ValidConfig(cfg)
  }

  function Await(q: Queue, k: Kind): Queue {
    q.(waiting := q.waiting + {k})
  }

  /** Ids newly covered when a write that had seen n transaction ids commits. */
  function Covering(h: History, n: nat): set<nat> {
    h.covered + Range(h.runStart, n)
  }

  function Returning(h: History, w: Writer): History {
    var h1 := h.(covered := Covering(h, w.seen));
    match w.kind
    case Recording(id) => h1.(reserved := h1.reserved + [id])
    case Starting(id) => h1.(remotes := h1.remotes + [id])
    case Plain(_) => h1
  }

  ghost function Booted(file: Durable, cfg: Config, now: Stamp, h: History): State {
    var core := Load(file, cfg, now);
    State(cfg, core, file,
          Queue(if Drops(file, cfg, now) then {Plain(0)} else {}, None, {}),
          false,
          Ledger(core.reservations.Keys, multiset{}, multiset{}, {}),
          h.(runStart := |h.txIds|))
  }

  ghost function Apply(s: State, st: Step): State
    requires Enabled(s, st)
  {
    match st
    case Begin(draft, now) =>
      var b := BeginReservation(s.core, s.cfg, draft, now);
      if b.res.Err? then s
      else s.(core := b.core,
              queue := Await(s.queue, Recording(b.res.value.id)),
              ledger := s.ledger.(entered := s.ledger.entered + {b.res.value.id}))
    case Change(ch, ticket) =>
      s.(core := After(s.core, s.cfg, ch),
         queue := if Writes(ch) then Await(s.queue, Plain(ticket)) else s.queue,
         ledger := Entered(s.ledger, s.core, s.cfg, ch))
    case AllocTransaction(ticket) =>
      s.(core := s.core.(nextTransaction := s.core.nextTransaction + 1),
         queue := Await(s.queue, Plain(ticket)),
         history := s.history.(txIds := s.history.txIds + [s.core.nextTransaction]))
    case AllocRemoteStart =>
      s.(core := s.core.(nextRemoteStart := s.core.nextRemoteStart + 1),
         queue := Await(s.queue, Starting(s.core.nextRemoteStart)))
    case Take(kind) =>
      s.(queue := s.queue.(waiting := s.queue.waiting - {kind},
                           writer := Some(Writer(kind, Snapshot(s.core), |s.history.txIds|))))
    case Commit =>
      var w := s.queue.writer.value;
      s.(file := Normal(w.snap),
         queue := s.queue.(writer := None),
         lastFailed := false,
         history := Returning(s.history, w))
    case Fail =>
      var k := s.queue.writer.value.kind;
      s.(queue := s.queue.(writer := None,
                           dropping := if k.Recording? then s.queue.dropping + {k.id} else s.queue.dropping),
         lastFailed := true)
    case Drop(id) =>
      s.(core := Without(s.core, id),
         queue := s.queue.(dropping := s.queue.dropping - {id}),
         ledger := s.ledger.(unrecorded := s.ledger.unrecorded + {id}))
    case Restart(cfg, now) => Booted(s.file, cfg, now, s.history)
  }

  /** The first run starts from any file core could have written, or none. */
  ghost predicate Init(s: State) {
    exists file, cfg, now ::
      FileOk(file) && ValidConfig(cfg) && s == Booted(file, cfg, now, History([], [], [], 0, {}))
  }

  ghost predicate Run(b: seq<State>, ss: seq<Step>) {
    |b| == |ss| + 1 && Init(b[0]) &&
    forall k :: 0 <= k < |ss| ==> Enabled(b[k], ss[k]) && b[k + 1] == Apply(b[k], ss[k])
  }

  // ----- what changes keep --------------------------------------------------------

  lemma AfterKeeps(c: Core, cfg: Config, ch: Change)
    requires Valid(c, cfg) && Applies(c, ch)
    ensures Valid(After(c, cfg, ch), cfg)
  {
    match ch
    case Activating(id) => StatusKeeps(c, cfg, id);
    case Orphaning(id) => StatusKeeps(c, cfg, id);
    case StartingSession(cp, t, now) => StartSessionKeeps(c, cfg, cp, t, now);
    case StoppingSession(cp, tx, meterStop, reason, at) =>
      StopSessionKeeps(c, cfg, cp, tx, meterStop, reason, at);
    case _ => WithoutKeeps(c, cfg, ch.id);
  }

  /** A change moves or removes at most the record it names, or an active one, and
      touches no counter. */
  lemma AfterTouchesOne(c: Core, cfg: Config, ch: Change)
    requires Valid(c, cfg) && Applies(c, ch)
    ensures var d := After(c, cfg, ch);
            && d.nextReservation == c.nextReservation && d.nextTransaction == c.nextTransaction
            && d.nextRemoteStart == c.nextRemoteStart
            && d.reservations.Keys <= c.reservations.Keys
            && (forall id ::
                  id in c.reservations && !Passes(ch, id)
                  && (ch.Activating? || Reports(c, cfg, ch) != Some(id)) ==>
                  id in d.reservations && d.reservations[id] == c.reservations[id])
            && (forall id :: Reports(c, cfg, ch) == Some(id) ==>
                  HasStatus(c, id, Active) || (Passes(ch, id) && HasStatus(c, id, Pending)))
  {
    if ch.StartingSession? {
      SessionEndsOneActive(c, cfg, ch.cp, ch.t, ch.now);
    }
  }

  lemma SameActive(rs: map<int, Entry>, rs': map<int, Entry>)
    requires forall id :: id in rs && rs[id].res.status == Active ==> id in rs' && rs'[id] == rs[id]
    requires forall id :: id in rs' && rs'[id].res.status == Active ==> id in rs && rs[id] == rs'[id]
    ensures ActiveStored(rs) == ActiveStored(rs')
  {
    var m, m' := ActiveStored(rs), ActiveStored(rs');
    forall id
      ensures id in m <==> id in m'
      ensures id in m && id in m' ==> m[id] == m'[id]
    {
    }
    assert m.Keys == m'.Keys;
  }

  /** Orphaning and ending a cancelling record do not change what is written. */
  lemma QuietSnapshot(c: Core, cfg: Config, ch: Change)
    requires Applies(c, ch) && !Writes(ch)
    ensures Snapshot(After(c, cfg, ch)) == Snapshot(c)
  {
    SameActive(c.reservations, After(c, cfg, ch).reservations);
  }

  // ----- ids are never handed out twice ------------------------------------------

  /** The books of one counter: what is on file, in memory and in the snapshot being
      written, the ids whose operations wait for persistMu, and those returned. */
  ghost predicate Books(onFile: int, inMemory: int, returned: seq<int>) {
    && onFile <= inMemory
    && Distinct(returned)
    && forall i :: 0 <= i < |returned| ==> returned[i] < onFile
  }

  ghost predicate ReservationIds(s: State) {
    && Books(s.file.nextReservation, s.core.nextReservation, s.history.reserved)
    && (forall id :: Recording(id) in s.queue.waiting ==>
          id < s.core.nextReservation && id !in s.history.reserved)
    && (s.queue.writer.Some? ==>
          var w := s.queue.writer.value;
          && s.file.nextReservation <= w.snap.nextReservation <= s.core.nextReservation
          && (w.kind.Recording? ==>
                w.kind.id < w.snap.nextReservation && w.kind.id !in s.history.reserved
                && w.kind !in s.queue.waiting))
  }

  ghost predicate RemoteStartIds(s: State) {
    && Books(s.file.nextRemoteStart, s.core.nextRemoteStart, s.history.remotes)
    && (forall id :: Starting(id) in s.queue.waiting ==>
          id < s.core.nextRemoteStart && id !in s.history.remotes)
    && (s.queue.writer.Some? ==>
          var w := s.queue.writer.value;
          && s.file.nextRemoteStart <= w.snap.nextRemoteStart <= s.core.nextRemoteStart
          && (w.kind.Starting? ==>
                w.kind.id < w.snap.nextRemoteStart && w.kind.id !in s.history.remotes
                && w.kind !in s.queue.waiting))
  }

  /** The ids of the current run go up, and no covered id comes again. */
  ghost predicate TxOrder(h: History) {
    && h.runStart <= |h.txIds|
    && (forall i :: i in h.covered ==> i < |h.txIds|)
    && (forall i, j :: h.runStart <= i < j < |h.txIds| ==> h.txIds[i] < h.txIds[j])
    && (forall i, j :: i in h.covered && i < j < |h.txIds| ==> h.txIds[i] != h.txIds[j])
  }

  /** The counter on file has passed exactly the covered ids of the run, the one in
      memory all of them. */
  ghost predicate TxCounters(h: History, onFile: int, inMemory: int) {
    && onFile <= inMemory
    && (forall i :: i in h.covered && i < |h.txIds| ==> h.txIds[i] < onFile)
    && (forall i :: h.runStart <= i < |h.txIds| ==> h.txIds[i] < inMemory)
    && (forall i :: h.runStart <= i < |h.txIds| && i !in h.covered ==> onFile <= h.txIds[i])
  }

  /** The counter in the snapshot has passed exactly the ids the writer has seen. */
  ghost predicate TxSnapshot(h: History, onFile: int, inMemory: int, w: Writer) {
    && onFile <= w.snap.nextTransaction <= inMemory
    && w.seen <= |h.txIds|
    && (forall i :: h.runStart <= i < w.seen ==> h.txIds[i] < w.snap.nextTransaction)
    && (forall i :: h.runStart <= i < |h.txIds| && w.seen <= i ==> w.snap.nextTransaction <= h.txIds[i])
  }

  ghost predicate TransactionIds(s: State) {
    && TxOrder(s.history)
    && TxCounters(s.history, s.file.nextTransaction, s.core.nextTransaction)
    && (s.queue.writer.Some? ==>
          TxSnapshot(s.history, s.file.nextTransaction, s.core.nextTransaction, s.queue.writer.value))
  }

  ghost predicate Positive(ids: seq<int>) {
    forall i :: 0 <= i < |ids| ==> ids[i] >= 1
  }

  /** Memory is valid, and so is everything that is or may become the file. */
  ghost predicate StoreInv(s: State) {
    && Valid(s.core, s.cfg)
    && FileOk(s.file)
    && Positive(s.history.txIds)
    && (s.queue.writer.Some? ==> FileOk(Normal(s.queue.writer.value.snap)))
  }

  lemma StorePreserved(s: State, st: Step)
    requires StoreInv(s) && Enabled(s, st)
    ensures StoreInv(Apply(s, st))
  {
    match st
    case Begin(draft, now) => BeginKeeps(s.core, s.cfg, draft, now);
    case Change(ch, _) => AfterKeeps(s.core, s.cfg, ch);
    case Take(_) => WrittenFileOk(s.core, s.cfg);
    case Drop(id) => WithoutKeeps(s.core, s.cfg, id);
    case Restart(cfg, now) => LoadValid(s.file, cfg, now);
    case _ =>
  }

  lemma ReservationIdsPreserved(s: State, st: Step)
    requires StoreInv(s) && ReservationIds(s) && Enabled(s, st)
    ensures ReservationIds(Apply(s, st))
  {
    match st
    case Change(ch, _) => AfterTouchesOne(s.core, s.cfg, ch);
    case Restart(cfg, now) => LoadCounters(s.file, cfg, now);
    case _ =>
  }

  lemma RemoteStartIdsPreserved(s: State, st: Step)
    requires StoreInv(s) && RemoteStartIds(s) && Enabled(s, st)
    ensures RemoteStartIds(Apply(s, st))
  {
    match st
    case Change(ch, _) => AfterTouchesOne(s.core, s.cfg, ch);
    case Restart(cfg, now) => LoadCounters(s.file, cfg, now);
    case _ =>
  }

  lemma CommitCovers(s: State)
    requires TransactionIds(s) && Enabled(s, Commit)
    ensures TransactionIds(Apply(s, Commit))
  {
    var w := s.queue.writer.value;
    var h := Returning(s.history, w);
    assert h.txIds == s.history.txIds && h.covered == Covering(s.history, w.seen);
  }

  lemma OneMoreId(h: History, onFile: int, next: int)
    requires TxOrder(h) && TxCounters(h, onFile, next)
    ensures var h' := h.(txIds := h.txIds + [next]);
            TxOrder(h') && TxCounters(h', onFile, next + 1)
  {
    var more := h.txIds + [next];
    assert forall i :: 0 <= i < |h.txIds| ==> more[i] == h.txIds[i];
  }

  lemma OneMoreUnseen(h: History, onFile: int, next: int, w: Writer)
    requires TxSnapshot(h, onFile, next, w)
    ensures TxSnapshot(h.(txIds := h.txIds + [next]), onFile, next + 1, w)
  {
  }

  lemma AllocKeepsOrder(s: State, ticket: nat)
    requires TransactionIds(s) && Enabled(s, AllocTransaction(ticket))
    ensures TransactionIds(Apply(s, AllocTransaction(ticket)))
  {
    OneMoreId(s.history, s.file.nextTransaction, s.core.nextTransaction);
    if s.queue.writer.Some? {
      OneMoreUnseen(s.history, s.file.nextTransaction, s.core.nextTransaction, s.queue.writer.value);
    }
  }

  lemma TransactionIdsPreserved(s: State, st: Step)
    requires StoreInv(s) && TransactionIds(s) && Enabled(s, st)
    ensures TransactionIds(Apply(s, st))
  {
    match st
    case Change(ch, _) => AfterTouchesOne(s.core, s.cfg, ch);
    case Restart(cfg, now) => LoadCounters(s.file, cfg, now);
    case Commit => CommitCovers(s);
    case AllocTransaction(ticket) => AllocKeepsOrder(s, ticket);
    case _ =>
  }

  // ----- nothing racing writes is lost ---------------------------------------------

  /** Only the BeginReservation that made a record knows its id until it returns,
      so the record stays pending until then. */
  ghost predicate BegunArePending(s: State) {
    && (forall id :: BeingBegun(s.queue, id) ==> HasStatus(s.core, id, Pending))
    && (forall id :: id in s.queue.dropping ==>
          Recording(id) !in s.queue.waiting && !(s.queue.writer.Some? && s.queue.writer.value.kind == Recording(id)))
  }

  lemma BegunArePendingPreserved(s: State, st: Step)
    requires StoreInv(s) && ReservationIds(s) && BegunArePending(s) && Enabled(s, st)
    ensures BegunArePending(Apply(s, st))
  {
    var t := Apply(s, st);
    if st.Change? {
      AfterTouchesOne(s.core, s.cfg, st.change);
    }
    forall id | BeingBegun(t.queue, id)
      ensures HasStatus(t.core, id, Pending)
    {
      assert BeingBegun(s.queue, id) || (st.Begin? && id == s.core.nextReservation);
    }
    assert forall id :: id in s.queue.dropping ==> BeingBegun(s.queue, id);
  }

  ghost predicate Agrees(d: Durable, c: Core) {
    d.reservations == Written(c).reservations && d.transactions == Written(c).transactions
  }

  /** Unless some operation still waits for persistMu, what is being written agrees
      with memory, and so does the file if the last write succeeded. */
  ghost predicate InStep(s: State) {
    s.queue.waiting == {} ==>
      && (s.queue.writer.Some? ==> Agrees(Normal(s.queue.writer.value.snap), s.core))
      && (s.queue.writer.None? && !s.lastFailed ==> Agrees(s.file, s.core))
  }

  lemma InStepPreserved(s: State, st: Step)
    requires StoreInv(s) && BegunArePending(s) && InStep(s) && Enabled(s, st)
    ensures InStep(Apply(s, st))
  {
    match st
    case Change(ch, _) =>
      if !Writes(ch) {
        QuietSnapshot(s.core, s.cfg, ch);
      }
    case Drop(id) =>
      assert BeingBegun(s.queue, id);
      SameActive(s.core.reservations, Without(s.core, id).reservations);
    case Restart(cfg, now) => LoadWritesTheSame(s.file, cfg, now);
    case _ =>
  }

  // ----- every id is accounted for ---------------------------------------------------

  ghost predicate Accounted(c: Core, l: Ledger, id: int) {
    if id !in l.entered then
      id !in c.reservations && l.created[id] == 0 && l.ended[id] == 0 && id !in l.unrecorded
    else if HasStatus(c, id, Pending) then l.created[id] == 0 && l.ended[id] == 0 && id !in l.unrecorded
    else if HasStatus(c, id, Active) then l.created[id] <= 1 && l.ended[id] == 0 && id !in l.unrecorded
    else if HasStatus(c, id, Cancelling) then l.created[id] == 0 && l.ended[id] == 1 && id !in l.unrecorded
    else
      || (id in l.unrecorded && l.created[id] == 0 && l.ended[id] == 0)
      || (id !in l.unrecorded && l.created[id] <= 1 && l.ended[id] == 1)
  }

  ghost predicate LedgerInv(s: State) {
    && (forall id :: id in s.ledger.entered ==> id < s.core.nextReservation)
    && (forall id :: Accounted(s.core, s.ledger, id))
  }

  lemma ChangeAccounted(s: State, ch: Change, id: int)
    requires StoreInv(s) && Applies(s.core, ch) && Accounted(s.core, s.ledger, id)
    ensures Accounted(After(s.core, s.cfg, ch), Entered(s.ledger, s.core, s.cfg, ch), id)
  {
    AfterTouchesOne(s.core, s.cfg, ch);
    if ch.StartingSession? {
      SessionEndsOneActive(s.core, s.cfg, ch.cp, ch.t, ch.now);
    }
  }

  lemma StepAccounted(s: State, st: Step, id: int)
    requires StoreInv(s) && BegunArePending(s) && LedgerInv(s) && Enabled(s, st)
    ensures var t := Apply(s, st); Accounted(t.core, t.ledger, id)
  {
    assert Accounted(s.core, s.ledger, id);
    match st
    case Change(ch, _) => ChangeAccounted(s, ch, id);
    case Drop(dropped) => assert BeingBegun(s.queue, dropped);
    case Restart(cfg, now) => LoadActive(s.file, cfg, now);
    case _ =>
  }

  lemma LedgerPreserved(s: State, st: Step)
    requires StoreInv(s) && BegunArePending(s) && LedgerInv(s) && Enabled(s, st)
    ensures LedgerInv(Apply(s, st))
  {
    var t := Apply(s, st);
    forall id
      ensures Accounted(t.core, t.ledger, id)
    {
      StepAccounted(s, st, id);
    }
    match st
    case Change(ch, _) => AfterTouchesOne(s.core, s.cfg, ch);
    case Restart(cfg, now) => LoadCounters(s.file, cfg, now);
    case _ =>
  }

  // ----- over whole runs ----------------------------------------------------------------

  ghost predicate Inv(s: State) {
    StoreInv(s) && ReservationIds(s) && RemoteStartIds(s) && TransactionIds(s)
    && BegunArePending(s) && InStep(s) && LedgerInv(s)
  }

  lemma BootedInv(file: Durable, cfg: Config, now: Stamp)
    requires FileOk(file) && ValidConfig(cfg)
    ensures Inv(Booted(file, cfg, now, History([], [], [], 0, {})))
  {
    var s := Booted(file, cfg, now, History([], [], [], 0, {}));
    LoadValid(file, cfg, now);
    LoadCounters(file, cfg, now);
    assert StoreInv(s) && ReservationIds(s) && RemoteStartIds(s) && TransactionIds(s) && BegunArePending(s);
    BootedInStep(file, cfg, now);
    BootedLedger(file, cfg, now);
  }

  lemma BootedInStep(file: Durable, cfg: Config, now: Stamp)
    requires FileOk(file)
    ensures InStep(Booted(file, cfg, now, History([], [], [], 0, {})))
  {
    LoadWritesTheSame(file, cfg, now);
  }

  lemma BootedLedger(file: Durable, cfg: Config, now: Stamp)
    requires FileOk(file)
    ensures LedgerInv(Booted(file, cfg, now, History([], [], [], 0, {})))
  {
    var s := Booted(file, cfg, now, History([], [], [], 0, {}));
    LoadCounters(file, cfg, now);
    LoadActive(file, cfg, now);
    assert forall id :: Accounted(s.core, s.ledger, id);
  }

  lemma InvInitial(s: State)
    requires Init(s)
    ensures Inv(s)
  {
    var file, cfg, now :| FileOk(file) && ValidConfig(cfg) && s == Booted(file, cfg, now, History([], [], [], 0, {}));
    BootedInv(file, cfg, now);
  }

  lemma InvPreserved(s: State, st: Step)
    requires Inv(s) && Enabled(s, st)
    ensures Inv(Apply(s, st))
  {
    StorePreserved(s, st);
    ReservationIdsPreserved(s, st);
    RemoteStartIdsPreserved(s, st);
    TransactionIdsPreserved(s, st);
    BegunArePendingPreserved(s, st);
    InStepPreserved(s, st);
    LedgerPreserved(s, st);
  }

  lemma {:induction false} RunInv(b: seq<State>, ss: seq<Step>, k: nat)
    requires Run(b, ss) && k < |b|
    ensures Inv(b[k])
  {
    if k == 0 {
      InvInitial(b[0]);
    } else {
      RunInv(b, ss, k - 1);
      InvPreserved(b[k - 1], ss[k - 1]);
    }
  }

  /** Across any runs and crashes, with any writes failing, no reservation id and no
      remote-start id is returned to a caller twice. */
  lemma IdsAreNeverReused(b: seq<State>, ss: seq<Step>, k: nat)
    requires Run(b, ss) && k < |b|
    ensures Distinct(b[k].history.reserved)
    ensures Distinct(b[k].history.remotes)
  {
    RunInv(b, ss, k);
  }

  /** A transaction id can be handed out again only if no write of its own run whose
      snapshot followed the allocation ever committed. */
  lemma CoveredTransactionIdsAreNeverReused(b: seq<State>, ss: seq<Step>, k: nat, i: nat, j: nat)
    requires Run(b, ss) && k < |b|
    requires i < j < |b[k].history.txIds| && b[k].history.txIds[i] == b[k].history.txIds[j]
    ensures i !in b[k].history.covered && i < b[k].history.runStart
  {
    RunInv(b, ss, k);
  }

  /** While the run lasts, the counter on file has passed an id exactly when a write
      that covers it has committed. */
  lemma CoveredMeansOnFile(b: seq<State>, ss: seq<Step>, k: nat, i: nat)
    requires Run(b, ss) && k < |b|
    requires b[k].history.runStart <= i < |b[k].history.txIds|
    ensures i in b[k].history.covered <==> b[k].history.txIds[i] < b[k].file.nextTransaction
  {
    RunInv(b, ss, k);
  }

  /** NextTransactionID hands out its id even when the write failed, so after a crash
      the same id can be handed out a second time. reissue.dfy says exactly when. */
  lemma TransactionIdCanReappear(cfg: Config, now: Stamp) returns (b: seq<State>, ss: seq<Step>)
    requires ValidConfig(cfg)
    ensures Run(b, ss) && b[|ss|].history.txIds == [1, 1]
  {
    b, ss := FailedAllocation(cfg, now);
    BootedFromNothing(cfg, now, b[3].history);
    b, ss := Extend(b, ss, Restart(cfg, now));
    b, ss := Extend(b, ss, AllocTransaction(0));
  }

  lemma Extend(b: seq<State>, ss: seq<Step>, st: Step) returns (b': seq<State>, ss': seq<Step>)
    requires Run(b, ss) && Enabled(b[|ss|], st)
    ensures Run(b', ss') && |ss'| == |ss| + 1 && b'[|ss'|] == Apply(b[|ss|], st)
  {
    b', ss' := b + [Apply(b[|ss|], st)], ss + [st];
  }

  /** The first run of the three: an id is handed out and its write fails. */
  lemma FailedAllocation(cfg: Config, now: Stamp) returns (b: seq<State>, ss: seq<Step>)
    requires ValidConfig(cfg)
    ensures Run(b, ss) && |ss| == 3
    ensures b[3].file == NOTHING && b[3].history == History([], [], [1], 0, {})
  {
    var h := History([], [], [], 0, {});
    BootedFromNothing(cfg, now, h);
    b, ss := [Booted(NOTHING, cfg, now, h)], [];
    b, ss := Extend(b, ss, AllocTransaction(0));
    var taken, failed := FailedWrite(b[1], 0);
    b, ss := Extend(b, ss, Take(Plain(0)));
    b, ss := Extend(b, ss, Fail);
  }

  const NOTHING: Durable := Durable(0, 0, 0, [], [])

  lemma BootedFromNothing(cfg: Config, now: Stamp, h: History)
    ensures FileOk(NOTHING)
    ensures var s := Booted(NOTHING, cfg, now, h);
            && s.core.nextTransaction == 1 && s.file == NOTHING && s.queue == Queue({}, None, {})
            && s.history == h.(runStart := |h.txIds|)
  {
    assert Normal(NOTHING) == NOTHING;
  }

  lemma FailedWrite(s: State, ticket: nat) returns (taken: State, failed: State)
    requires s.queue.writer == None && Plain(ticket) in s.queue.waiting
    ensures Enabled(s, Take(Plain(ticket))) && taken == Apply(s, Take(Plain(ticket)))
    ensures Enabled(taken, Fail) && failed == Apply(taken, Fail)
    ensures failed.file == s.file && failed.history == s.history
  {
    taken := Apply(s, Take(Plain(ticket)));
    failed := Apply(taken, Fail);
  }

  /** The last write of this run to have an outcome, if there was one, committed. */
  ghost predicate LastWriteWorked(ss: seq<Step>, k: nat) {
    forall i :: 0 <= i < k && i < |ss| && ss[i] == Fail ==> WorkedLater(ss, i, k)
  }

  ghost predicate WorkedLater(ss: seq<Step>, i: nat, k: nat) {
    exists j :: i < j < k && j < |ss| && (ss[j] == Commit || ss[j].Restart?)
  }

  lemma WorkedBefore(ss: seq<Step>, k: nat)
    requires LastWriteWorked(ss, k + 1) && k < |ss|
    ensures ss[k] != Fail
    ensures ss[k] == Commit || ss[k].Restart? || LastWriteWorked(ss, k)
  {
    if ss[k] != Commit && !ss[k].Restart? {
      forall i | 0 <= i < k && ss[i] == Fail
        ensures WorkedLater(ss, i, k)
      {
        assert WorkedLater(ss, i, k + 1);
      }
    }
  }

  lemma OutcomeOf(s: State, st: Step)
    requires Enabled(s, st) && st != Fail
    ensures Apply(s, st).lastFailed ==> s.lastFailed && st != Commit && !st.Restart?
  {
  }

  lemma {:induction false} WorkedIsRemembered(b: seq<State>, ss: seq<Step>, k: nat)
    requires Run(b, ss) && k < |b| && LastWriteWorked(ss, k)
    ensures !b[k].lastFailed
  {
    if k > 0 {
      WorkedBefore(ss, k - 1);
      OutcomeOf(b[k - 1], ss[k - 1]);
      if ss[k - 1] != Commit && !ss[k - 1].Restart? {
        WorkedIsRemembered(b, ss, k - 1);
      }
    }
  }

  /** When no operation is under way and the last write to have an outcome did not
      fail, the stored reservations and transactions are exactly the active ones in
      memory, whatever failed before. */
  lemma RacingWritesLoseNothing(b: seq<State>, ss: seq<Step>, k: nat)
    requires Run(b, ss) && k < |b|
    requires b[k].queue.waiting == {} && b[k].queue.writer.None? && LastWriteWorked(ss, k)
    ensures Agrees(b[k].file, b[k].core)
    ensures var s := b[k];
            exists ids :: Increasing(ids) && StoresActive(s.core, ids, s.file.reservations)
    ensures var s := b[k];
            |s.file.transactions| == |RunningSeqs(s.core.txs)|
            && forall cp, id :: Running(s.core.txs, cp, id) ==>
                 StoresRunning(s.file.transactions, cp, s.core.txs[cp][id])
  {
    RunInv(b, ss, k);
    WorkedIsRemembered(b, ss, k);
    var s := b[k];
    var ids := Sorted(ActiveStored(s.core.reservations).Keys);
    WrittenLists(s.core);
    assert StoresActive(s.core, ids, s.file.reservations);
    forall cp, id | Running(s.core.txs, cp, id)
      ensures StoresRunning(s.file.transactions, cp, s.core.txs[cp][id])
    {
      var i := PlaceOf(s.core, s.cfg, cp, id);
      assert IsStoredTx(s.file.transactions[i], cp, s.core.txs[cp][id]);
    }
    RunningCount(s.core.txs);
  }

  /** The list has one line for each active reservation, under these ids. */
  ghost predicate StoresActive(c: Core, ids: seq<int>, rs: seq<Contents.Reservation>) {
    && |ids| == |rs|
    && (forall i :: 0 <= i < |ids| ==>
          HasStatus(c, ids[i], Active) && IsStored(rs[i], c.reservations[ids[i]].res))
    && (forall id :: HasStatus(c, id, Active) ==> id in ids)
  }

  ghost predicate StoresRunning(ts: seq<Contents.Transaction>, cp: string, tx: Transaction) {
    exists i :: 0 <= i < |ts| && IsStoredTx(ts[i], cp, tx)
  }

  /** In every reachable state, also right after a restart, an EVSE has at most one
      reservation in any status, and a timer is armed exactly for the active ones. */
  lemma OneReservationPerEvse(b: seq<State>, ss: seq<Step>, k: nat)
    requires Run(b, ss) && k < |b|
    ensures OnePerEvse(b[k].core) && TimersMatch(b[k].core)
  {
    RunInv(b, ss, k);
  }

  /** Within a run an id generates at most one created and at most one ended event;
      every id that entered the table is pending, active, reported ended, or was
      removed because its counter write failed; and the cancelling records are
      exactly the ones reported ended that still occupy their EVSE. */
  lemma EveryReservationIsAccountedFor(b: seq<State>, ss: seq<Step>, k: nat, id: int)
    requires Run(b, ss) && k < |b|
    ensures var l := b[k].ledger;
            l.created[id] <= 1 && l.ended[id] <= 1
    ensures var Ledger(entered, created, ended, unrecorded) := b[k].ledger;
            var c := b[k].core;
            id in entered ==>
              || HasStatus(c, id, Pending)
              || HasStatus(c, id, Active)
              || ended[id] == 1
              || (id in unrecorded && id !in c.reservations)
    ensures var l := b[k].ledger;
            var c := b[k].core;
            HasStatus(c, id, Cancelling) <==> l.ended[id] == 1 && id in c.reservations
  {
    RunInv(b, ss, k);
    assert Accounted(b[k].core, b[k].ledger, id);
  }
}
