/** The event bus (internal/core/event.go): the accounting of one subscriber, the
    bus as a class, and a machine in which publishing, unsubscribing and receiving
    interleave. */
module Bus {
  import opened Common

  const BUFFER: nat := 256

  // ----- the accounting of one subscriber ----------------------------------------

  /** offered lists what was published to the subscriber, received what its reader
      has taken from the channel. */
  datatype Account<T> = Account(received: seq<T>, buffer: seq<T>, drops: nat, offered: seq<T>)

  const NEW: Account<nat> := Account([], [], 0, [])

  /** The select in publish: a send if there is room, a drop if there is none. */
  function Offered<T>(a: Account<T>, e: T): Account<T> {
    var b := a.(offered := a.offered + [e]);
    if |a.buffer| < BUFFER then b.(buffer := a.buffer + [e]) else b.(drops := a.drops + 1)
  }

  function Taken<T>(a: Account<T>): Account<T>
    requires a.buffer != []
  {
    a.(received := a.received + [a.buffer[0]], buffer := a.buffer[1..])
  }

  /** p is q with some elements left out. */
  ghost predicate Subsequence<T>(p: seq<T>, q: seq<T>) {
    || p == []
    || (q != [] && (|| Subsequence(p, q[..|q| - 1])
                    || (p[|p| - 1] == q[|q| - 1] && Subsequence(p[..|p| - 1], q[..|q| - 1]))))
  }

  ghost predicate Accounted<T>(a: Account<T>) {
    && |a.buffer| <= BUFFER
    && |a.received| + |a.buffer| + a.drops == |a.offered|
    && Subsequence(a.received + a.buffer, a.offered)
  }

  /** Every event is received, buffered or counted as dropped, what is received is
      in order, and an event is dropped only when the buffer is full. */
  lemma OfferedKeeps<T>(a: Account<T>, e: T)
    requires Accounted(a)
    ensures Accounted(Offered(a, e))
    ensures Offered(a, e).drops == a.drops <==> |a.buffer| < BUFFER
  {
    var b := Offered(a, e);
    assert b.offered[..|b.offered| - 1] == a.offered;
    if |a.buffer| < BUFFER {
      var p := b.received + b.buffer;
      assert p[..|p| - 1] == a.received + a.buffer;
    }
  }

  lemma TakenKeeps<T>(a: Account<T>)
    requires Accounted(a) && a.buffer != []
    ensures Accounted(Taken(a))
  {
    assert Taken(a).received + Taken(a).buffer == a.received + a.buffer;
  }

  lemma {:induction false} SubsequenceOfSameLength<T>(p: seq<T>, q: seq<T>)
    requires Subsequence(p, q)
    ensures |p| <= |q|
    ensures |p| == |q| ==> p == q
  {
    if p != [] {
      var q' := q[..|q| - 1];
      if Subsequence(p, q') {
        SubsequenceOfSameLength(p, q');
      } else {
        SubsequenceOfSameLength(p[..|p| - 1], q');
        assert p == p[..|p| - 1] + [p[|p| - 1]];
        assert q == q' + [q[|q| - 1]];
      }
    }
  }

  /** A subscriber that has lost nothing has everything, in order. */
  lemma NothingDropped<T>(a: Account<T>)
    requires Accounted(a)
    ensures a.drops == 0 <==> a.received + a.buffer == a.offered
  {
    SubsequenceOfSameLength(a.received + a.buffer, a.offered);
  }

  // ----- the bus as a class --------------------------------------------------------

  class Subscriber<T> {
    const name: string
    var buffer: seq<T>
    var drops: nat
    var closed: bool
    ghost var received: seq<T>
    ghost var offered: seq<T>
    /** The part of the bus's history it was subscribed for. */
    ghost const since: nat
    ghost var until: nat

    ghost function Books(): Account<T>
      reads this
    {
      Account(received, buffer, drops, offered)
    }

    /** The books balance, against the events published from since until until. */
    ghost predicate InStep(published: seq<T>)
      reads this
    {
      && Accounted(Books())
      && since <= until <= |published|
      && offered == published[since..until]
    }

    lemma Later(published: seq<T>, e: T)
      requires InStep(published)
      ensures InStep(published + [e])
    {
      assert (published + [e])[since..until] == published[since..until];
    }

    constructor (name: string, ghost since: nat)
      ensures this.name == name && this.since == since && until == since && !closed
      ensures Books() == Account([], [], 0, [])
    {
      this.name, this.since, until := name, since, since;
      buffer, drops, closed, received, offered := [], 0, false, [], [];
    }

    /** A non-blocking send. On a closed channel it would panic. */
    method Offer(e: T, ghost published: seq<T>)
      requires !closed && InStep(published) && published[until..] == [e]
      modifies this`buffer, this`drops, this`offered, this`until
      ensures Books() == Offered(old(Books()), e)
      ensures InStep(published) && until == |published|
    {
      OfferedKeeps(Books(), e);
      if |buffer| < BUFFER {
        buffer := buffer + [e];
      } else {
        drops := drops + 1;
      }
      offered, until := offered + [e], until + 1;
    }

    /** The subscriber reads its channel; None once it is closed and empty. A reader
        of an empty open channel waits and is not here yet. */
    method Receive() returns (e: Option<T>)
      requires buffer != [] || closed
      modifies this`buffer, this`received
      ensures e.Some? <==> old(buffer) != []
      ensures Books() == if e.Some? then Taken(old(Books())) else old(Books())
      ensures e.Some? ==> e.value == old(buffer)[0]
    {
      if buffer == [] {
        return None;
      }
      e := Some(buffer[0]);
      received, buffer := received + [buffer[0]], buffer[1..];
    }
  }

  class Bus<T> {
    var subs: set<Subscriber<T>>
    ghost var all: set<Subscriber<T>>
    ghost var published: seq<T>

    /** Every subscriber's books balance against the events published while it was
        subscribed, and no closed channel is subscribed. */
    ghost predicate Valid()
      reads this, all
    {
      && subs <= all
      && (forall s :: s in all ==> s.InStep(published))
      && (forall s :: s in subs ==> !s.closed && s.until == |published|)
    }

    constructor ()
      ensures Valid() && subs == {} && published == []
    {
      subs, all, published := {}, {}, [];
    }

    method Subscribe(name: string) returns (s: Subscriber<T>)
      requires Valid()
      modifies this`subs, this`all
      ensures Valid() && fresh(s) && s.name == name && s.since == |published|
      ensures subs == old(subs) + {s} && all == old(all) + {s}
    {
      s := new Subscriber(name, |published|);
      subs, all := subs + {s}, all + {s};
      NothingYet(s);
    }

    lemma NothingYet(s: Subscriber<T>)
      requires s.Books() == Account([], [], 0, [])
      ensures Accounted(s.Books())
    {
    }

    /** The function Subscribe returns: the first call removes the subscriber and
        closes its channel, later ones do nothing. */
    method Cancel(s: Subscriber<T>)
      requires Valid() && s in all && (s in subs <==> !s.closed)
      modifies this`subs, s`closed
      ensures Valid() && s.closed && subs == old(subs) - {s}
      ensures s.Books() == old(s.Books())
    {
      if s.closed {
        return;
      }
      subs := subs - {s};
      s.closed := true;
    }

    /** One more event in the history the subscribers' books are kept against. */
    ghost method Record(e: T)
      requires Valid()
      modifies this`published
      ensures published == old(published) + [e]
      ensures forall s :: s in all ==> s.InStep(published)
    {
      forall s | s in all
        ensures s.InStep(published + [e])
      {
        s.Later(published, e);
      }
      published := published + [e];
    }

    /** Every subscriber is offered the event once, and nobody else. */
    method Publish(e: T)
      requires Valid()
      modifies this`published, subs`buffer, subs`drops, subs`offered, subs`until
      ensures Valid() && published == old(published) + [e]
      ensures forall s :: s in subs ==> s.Books() == Offered(old(s.Books()), e)
    {
      Record(e);
      OfferAll(e);
    }

    /** The loop of publish. */
    method OfferAll(e: T)
      requires subs <= all && published != [] && published[|published| - 1] == e
      requires forall s :: s in all ==> s.InStep(published)
      requires forall s :: s in subs ==> !s.closed && s.until == |published| - 1
      modifies subs`buffer, subs`drops, subs`offered, subs`until
      ensures Valid()
      ensures forall s :: s in subs ==> s.Books() == Offered(old(s.Books()), e)
    {
      var rest := subs;
      while rest != {}
        invariant rest <= subs
        invariant forall s :: s in all ==> s.InStep(published)
        invariant forall s :: s in rest ==> s.Books() == old(s.Books()) && s.until == |published| - 1
        invariant forall s :: s in subs - rest ==> s.Books() == Offered(old(s.Books()), e) && s.until == |published|
      {
        var s :| s in rest;
        s.Offer(e, published);
        rest := rest - {s};
      }
    }

    method Receive(s: Subscriber<T>) returns (e: Option<T>)
      requires Valid() && s in all && (s.buffer != [] || s.closed)
      modifies s`buffer, s`received
      ensures Valid()
      ensures e.Some? <==> old(s.buffer) != []
      ensures s.Books() == if e.Some? then Taken(old(s.Books())) else old(s.Books())
      ensures e.Some? ==> e.value == old(s.buffer)[0]
    {
      e := s.Receive();
      if e.Some? {
        TakenKeeps(old(s.Books()));
      }
    }

    /** How many events were lost, by the names of those who lost some. */
    method Drops() returns (out: map<string, nat>)
      ensures forall s :: s in subs && s.drops > 0 ==> s.name in out
      ensures forall name :: name in out ==> Lost(name, out[name])
    {
      out := map[];
      var rest := subs;
      while rest != {}
        invariant rest <= subs
        invariant forall s :: s in subs - rest && s.drops > 0 ==> s.name in out
        invariant forall name :: name in out ==> Lost(name, out[name])
      {
        var s :| s in rest;
        if s.drops > 0 {
          out := out[s.name := s.drops];
        }
        rest := rest - {s};
      }
    }

    ghost predicate Lost(name: string, n: nat)
      reads this, subs
    {
      exists s :: s in subs && s.name == name && s.drops == n && n > 0
    }
  }

  // ----- publishing and unsubscribing at once ----------------------------------------

  /** A subscriber between the two halves of its cancel function is Removed. */
  datatype Life = Subscribed | Removed | Closed

  /** The publishes so far are numbered from 0. One in progress holds the read lock
      and has yet to reach the subscribers in its set; the others are over. */
  datatype State = State(
    life: map<nat, Life>,
    books: map<nat, Account<nat>>,
    due: map<nat, set<nat>>,
    begun: nat,
    publishing: map<nat, set<nat>>,
    panicked: bool)

  datatype Step =
    | Subscribe(s: nat)
    | Publish            // RLock and start ranging over the subscribers
    | Send(p: nat, s: nat)
    | Finish(p: nat)     // RUnlock
    | Remove(s: nat)     // Lock, delete, Unlock, once
    | Close(s: nat)
    | Receive(s: nat)

  function Subs(life: map<nat, Life>): set<nat> {
    set s | s in life && life[s] == Subscribed
  }

  predicate Init(s: State) {
    s == State(map[], map[], map[], 0, map[], false)
  }

  /** The writer lock is held only while nobody publishes. */
  predicate Enabled(st: State, x: Step) {
    match x
    case Subscribe(s) => s !in st.life && st.publishing == map[]
    case Publish => true
    case Send(p, s) => p in st.publishing && s in st.publishing[p] && s in st.books
    case Finish(p) => p in st.publishing && st.publishing[p] == {}
    case Remove(s) => s in st.life && st.life[s] == Subscribed && st.publishing == map[]
    case Close(s) => s in st.life && st.life[s] == Removed
    case Receive(s) => s in st.books && st.books[s].buffer != []
  }

  function Next(st: State, x: Step): State
    requires Enabled(st, x)
  {
    match x
    case Subscribe(s) => st.(life := st.life[s := Subscribed], books := st.books[s := NEW], due := st.due[s := {}])
    case Publish =>
      st.(begun := st.begun + 1,
          publishing := st.publishing[st.begun := Subs(st.life)],
          due := map s | s in st.due :: if s in Subs(st.life) then st.due[s] + {st.begun} else st.due[s])
    case Send(p, s) =>
      st.(publishing := st.publishing[p := st.publishing[p] - {s}],
          books := st.books[s := Offered(st.books[s], p)],
          panicked := st.panicked || (s in st.life && st.life[s] == Closed))
    case Finish(p) => st.(publishing := st.publishing - {p})
    case Remove(s) => st.(life := st.life[s := Removed])
    case Close(s) => st.(life := st.life[s := Closed])
    case Receive(s) => st.(books := st.books[s := Taken(st.books[s])])
  }

  /** b lists the states of a run and ss the steps between them. */
  ghost predicate Run(b: seq<State>, ss: seq<Step>) {
    |b| == |ss| + 1 && Init(b[0]) &&
    forall k :: 0 <= k < |ss| ==> Enabled(b[k], ss[k]) && b[k + 1] == Next(b[k], ss[k])
  }

  /** The publishes that have yet to reach a subscriber. */
  function Coming(publishing: map<nat, set<nat>>, s: nat): set<nat> {
    set p | p in publishing && s in publishing[p]
  }

  /** What has been offered to a subscriber: each publish begun while it was
      subscribed, once, apart from those still on their way to it. */
  ghost predicate Reached(a: Account<nat>, due: set<nat>, coming: set<nat>, begun: nat) {
    && Accounted(a)
    && Distinct(a.offered)
    && coming <= due
    && (forall p :: p in a.offered <==> p in due - coming)
    && (forall p :: p in due ==> p < begun)
  }

  ghost predicate AllReached(st: State) {
    forall s :: s in st.books ==> s in st.due && Reached(st.books[s], st.due[s], Coming(st.publishing, s), st.begun)
  }

  ghost predicate Inv(st: State) {
    && !st.panicked
    && st.life.Keys == st.books.Keys == st.due.Keys
    && (forall p :: p in st.publishing ==> p < st.begun && st.publishing[p] <= Subs(st.life))
    && AllReached(st)
  }

  lemma SendReaches(a: Account<nat>, due: set<nat>, coming: set<nat>, begun: nat, p: nat)
    requires Reached(a, due, coming, begun) && p in coming
    ensures Reached(Offered(a, p), due, coming - {p}, begun)
  {
    OfferedKeeps(a, p);
    assert p !in a.offered;
  }

  lemma PublishComing(st: State, s: nat)
    requires Inv(st) && s in st.due
    ensures var st' := Next(st, Publish);
            Coming(st'.publishing, s) == Coming(st.publishing, s) + if s in Subs(st.life) then {st.begun} else {}
  {
    assert st.begun !in st.publishing;
  }

  lemma SendComing(st: State, p: nat, s: nat, u: nat)
    requires Enabled(st, Send(p, s))
    ensures Coming(Next(st, Send(p, s)).publishing, u) == Coming(st.publishing, u) - if u == s then {p} else {}
  {
  }

  lemma SendKeeps(st: State, p: nat, s: nat)
    requires Inv(st) && Enabled(st, Send(p, s))
    ensures Inv(Next(st, Send(p, s)))
  {
    SendReaches(st.books[s], st.due[s], Coming(st.publishing, s), st.begun, p);
    var st' := Next(st, Send(p, s));
    forall u | u in st'.books
      ensures Reached(st'.books[u], st.due[u], Coming(st'.publishing, u), st.begun)
    {
      SendComing(st, p, s, u);
    }
  }

  lemma PublishKeeps(st: State)
    requires Inv(st)
    ensures Inv(Next(st, Publish))
  {
    var st' := Next(st, Publish);
    forall u | u in st.books
      ensures Reached(st.books[u], st'.due[u], Coming(st'.publishing, u), st'.begun)
    {
      PublishComing(st, u);
    }
  }

  lemma InvKept(st: State, x: Step)
    requires Inv(st) && Enabled(st, x)
    ensures Inv(Next(st, x))
  {
    var st' := Next(st, x);
    if x.Send? {
      SendKeeps(st, x.p, x.s);
    } else if x.Publish? {
      PublishKeeps(st);
    } else if x.Receive? {
      ReceiveKeeps(st, x.s);
    } else {
      assert forall u :: Coming(st'.publishing, u) == Coming(st.publishing, u);
      assert x.Subscribe? ==> Reached(NEW, {}, Coming(st.publishing, x.s), st.begun);
      assert AllReached(st');
    }
  }

  lemma ReceiveKeeps(st: State, s: nat)
    requires Inv(st) && Enabled(st, Receive(s))
    ensures Inv(Next(st, Receive(s)))
  {
    TakenKeeps(st.books[s]);
    assert Reached(Taken(st.books[s]), st.due[s], Coming(st.publishing, s), st.begun);
  }

  lemma {:induction false} RunInv(b: seq<State>, ss: seq<Step>, k: nat)
    requires Run(b, ss) && k < |b|
    ensures Inv(b[k])
  {
    if k > 0 {
      RunInv(b, ss, k - 1);
      InvKept(b[k - 1], ss[k - 1]);
    }
  }

  /** In no interleaving is anything sent on a closed channel. */
  lemma NeverSendsOnClosed(b: seq<State>, ss: seq<Step>, k: nat)
    requires Run(b, ss) && k < |b|
    ensures !b[k].panicked
    ensures forall p, s :: Enabled(b[k], Send(p, s)) ==> s in Subs(b[k].life)
  {
    RunInv(b, ss, k);
  }

  /** And whenever nobody is publishing, every subscriber, cancelled or not, has been
      offered exactly the publishes begun while it was subscribed, once each, and
      has received, still buffers or has lost each of them. */
  lemma EveryPublishIsAccountedFor(b: seq<State>, ss: seq<Step>, k: nat, s: nat)
    requires Run(b, ss) && k < |b|
    requires s in b[k].books && s in b[k].due && b[k].publishing == map[]
    ensures var a := b[k].books[s];
            && (forall p :: p in a.offered <==> p in b[k].due[s])
            && Distinct(a.offered)
            && |a.received| + |a.buffer| + a.drops == |a.offered|
            && Subsequence(a.received + a.buffer, a.offered)
  {
    RunInv(b, ss, k);
    assert Coming(b[k].publishing, s) == {};
  }
}
