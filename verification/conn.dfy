/** One OCPP-J connection (internal/ocpp/ocppj/conn.go) as a machine: any number
    of concurrent Call invocations, the reader, the handler loop and the writer,
    over the two bounded queues and the pending table. */
module Conn {
  import opened Common

  const SEND_BUFFER: nat := 32
  const CALL_BUFFER: nat := 64

  datatype Answer = Payload(body: string) | RpcError(code: string, description: string)

  /** A CALLRESULT or CALLERROR that the reader has looked up in the table. */
  datatype Response = Response(id: string, answer: Answer)

  datatype Outcome = Answered(answer: Answer) | EncodeError | TimedOut | ConnClosed | Cancelled

  /** How far one Call has got; its number is the value nextID gave it, and its
      message id the decimal form of that number. */
  datatype Caller =
    | Numbered
    | Registered                   // its entry is in the pending table
    | Waiting                      // its frame is in the send queue or beyond
    | Forgetting(out: Outcome)     // returning: the deferred forget comes next
    | Returned(out: Outcome)

  datatype Delivery = Delivery(call: nat, answer: Answer)

  /** The pending table and everything that moves through it. seen and since are
      history: the responses in the order they were looked up, and how many there
      had been when each Call registered. */
  datatype Table = Table(
    nextId: nat,
    ids: map<nat, string>,             // the message id of each Call
    callers: map<nat, Caller>,
    pending: map<string, nat>,
    chans: map<nat, Option<Answer>>,   // each Call's channel, with room for one
    delivery: Option<Delivery>,        // looked up, not yet sent to the channel
    seen: seq<Response>,
    since: map<nat, nat>)

  datatype Sender = ByCaller | ByReader | ByHandler

  /** A value that json.Marshal turns into text, or cannot. */
  datatype Any = Marshals(text: string) | Refuses

  datatype RPCError = RPCError(code: string, description: string, details: Any)

  /** What the version handler does with one CALL. */
  datatype Came = Returns(result: Any) | Raises(error: RPCError) | Panics

  /** The answer to a CALL; frames of Calls and the reader's complaints are Other. */
  datatype Body = CallResult(payload: string) | CallError(code: string, description: string, details: string) | Other

  datatype OutFrame = OutFrame(id: string, sender: Sender, body: Body)

  datatype Handled = Handled(id: string, came: Came)

  datatype Sent = Sent(id: string, body: Body)

  function InternalError(description: string): RPCError {
    RPCError("InternalError", description, Marshals("{}"))
  }

  /** dispatch: a panic becomes an error like any other. */
  function Dispatch(c: Came): Result<Any, RPCError> {
    match c
    case Returns(v) => Ok(v)
    case Raises(e) => Err(e)
    case Panics => Err(InternalError("handler failed"))
  }

  /** sendCallError, up to the queue: nothing if the error cannot be encoded. */
  function EncodeCallError(e: RPCError): Option<Body> {
    match e.details
    case Marshals(text) => Some(CallError(e.code, e.description, text))
    case Refuses => None
  }

  /** What handleLoop queues for a CALL, if anything. */
  function Reply(c: Came): Option<Body> {
    match Dispatch(c)
    case Err(e) => EncodeCallError(e)
    case Ok(v) =>
      match v
      case Marshals(text) => Some(CallResult(text))
      case Refuses => EncodeCallError(InternalError("could not encode result"))
  }

  /** A CALL goes unanswered only if the handler refuses it with details that cannot
      be encoded; a panic or a result that cannot be encoded is answered as an
      internal error, a result that can be is what the peer gets, and any other error
      reaches it as the handler raised it. */
  lemma OnlyBadDetailsGoUnanswered(c: Came)
    ensures Reply(c).None? <==> BadDetails(c)
    ensures c.Panics? ==> Reply(c) == Some(CallError("InternalError", "handler failed", "{}"))
    ensures c.Returns? && c.result.Refuses? ==>
              Reply(c) == Some(CallError("InternalError", "could not encode result", "{}"))
    ensures forall text :: Reply(c) == Some(CallResult(text)) <==> c == Returns(Marshals(text))
    ensures forall e, text :: c == Raises(e) && e.details == Marshals(text) ==>
              Reply(c) == Some(CallError(e.code, e.description, text))
  {
  }

  datatype Handler = Idle | Handling(id: string) | Queueing(frame: OutFrame) | HandlerDone

  /** The way of an inbound CALL. inbound, handled and answered are history: the
      ids read, what the handler did with each, and what the handler loop put in
      the send queue. */
  datatype Pipe = Pipe(
    handing: Option<string>,           // the reader is blocked on the queue
    calls: seq<string>,
    handler: Handler,
    inbound: seq<string>,
    handled: seq<Handled>,
    answered: seq<Sent>)

  /** The send queue, what the writer has written, and every frame ever queued. */
  datatype Out = Out(send: seq<OutFrame>, wire: seq<OutFrame>, queued: seq<OutFrame>)

  datatype Reader = Reading | Delivering | Handing | Apologising(id: string) | ReaderDone

  datatype State = State(done: bool, table: Table, reader: Reader, pipe: Pipe, out: Out)

  datatype Step =
    | StartCall(encodes: bool)
    | Register(n: nat)
    | QueueCall(n: nat)
    | AbandonQueue(n: nat, cancelled: bool)
    | TakeAnswer(n: nat)
    | GiveUp(n: nat, why: Outcome)
    | Forget(n: nat)
    | ReadResponse(r: Response)
    | Deliver
    | ReadCall(id: string)
    | HandOver
    | ReadMalformed(errId: string)
    | Apologise(queued: bool)
    | ReaderStops
    | TakeCall
    | Finish(came: Came)
    | QueueReply
    | DropReply
    | HandlerStops
    | Write
    | Close

  predicate At(t: Table, n: nat, c: Caller) {
    n in t.callers && n in t.ids && t.callers[n] == c
  }

  predicate HasRoom(s: State) {
    |s.out.send| < SEND_BUFFER
  }

  predicate Enabled(s: State, st: Step) {
    match st
    case StartCall(_) => true
    case Register(n) => At(s.table, n, Numbered)
    case QueueCall(n) => At(s.table, n, Registered) && HasRoom(s)
    case AbandonQueue(n, cancelled) => At(s.table, n, Registered) && (cancelled || s.done)
    case TakeAnswer(n) => At(s.table, n, Waiting) && n in s.table.chans && s.table.chans[n].Some?
    case GiveUp(n, why) =>
      At(s.table, n, Waiting) && (why == TimedOut || why == Cancelled || (why == ConnClosed && s.done))
    case Forget(n) => n in s.table.callers && n in s.table.ids && s.table.callers[n].Forgetting?
    case ReadResponse(_) => s.reader == Reading
    case Deliver => s.reader == Delivering && s.table.delivery.Some?
    case ReadCall(_) => s.reader == Reading
    case HandOver => s.reader == Handing && s.pipe.handing.Some? && |s.pipe.calls| < CALL_BUFFER
    case ReadMalformed(_) => s.reader == Reading
    case Apologise(queued) => s.reader.Apologising? && (if queued then HasRoom(s) else s.done)
    case ReaderStops => s.reader == Reading || (s.reader == Handing && s.done)
    case TakeCall => s.pipe.handler == Idle && |s.pipe.calls| > 0
    case Finish(_) => s.pipe.handler.Handling?
    case QueueReply => s.pipe.handler.Queueing? && HasRoom(s)
    case DropReply => s.pipe.handler.Queueing? && s.done
    case HandlerStops => s.pipe.handler == Idle && s.done
    case Write => |s.out.send| > 0
    case Close => true
  }

  function Numbering(t: Table, encodes: bool): Table {
    var n := t.nextId + 1;
    t.(nextId := n,
       ids := t.ids[n := Itoa(n)],
       callers := t.callers[n := if encodes then Numbered else Returned(EncodeError)])
  }

  function Registering(t: Table, n: nat): Table
    requires n in t.ids
  {
    t.(pending := t.pending[t.ids[n] := n],
       chans := t.chans[n := None],
       since := t.since[n := |t.seen|],
       callers := t.callers[n := Registered])
  }

  function Moving(t: Table, n: nat, c: Caller): Table {
    t.(callers := t.callers[n := c])
  }

  function Taking(t: Table, n: nat): Table
    requires n in t.chans && t.chans[n].Some?
  {
    Moving(t.(chans := t.chans[n := None]), n, Forgetting(Answered(t.chans[n].value)))
  }

  function Forgotten(t: Table, n: nat): Table
    requires n in t.ids && n in t.callers && t.callers[n].Forgetting?
  {
    Moving(t.(pending := t.pending - {t.ids[n]}), n, Returned(t.callers[n].out))
  }

  function LookingUp(t: Table, r: Response): Table {
    t.(seen := t.seen + [r],
       delivery := if r.id in t.pending then Some(Delivery(t.pending[r.id], r.answer)) else None)
  }

  /** A non-blocking send: a full channel drops the answer. */
  function DeliveredTo(t: Table): Table
    requires t.delivery.Some?
  {
    var n := t.delivery.value.call;
    t.(delivery := None,
       chans := if n in t.chans && t.chans[n] == None
                then t.chans[n := Some(t.delivery.value.answer)] else t.chans)
  }

  function Enqueued(o: Out, f: OutFrame): Out {
    o.(send := o.send + [f], queued := o.queued + [f])
  }

  function Finished(p: Pipe, came: Came): Pipe
    requires p.handler.Handling?
  {
    var id := p.handler.id;
    var handled := p.handled + [Handled(id, came)];
    match Reply(came)
    case Some(body) => p.(handler := Queueing(OutFrame(id, ByHandler, body)), handled := handled)
    case None => p.(handler := Idle, handled := handled)
  }

  function Apply(s: State, st: Step): State
    requires Enabled(s, st)
  {
    match st
    case StartCall(encodes) => s.(table := Numbering(s.table, encodes))
    case Register(n) => s.(table := Registering(s.table, n))
    case QueueCall(n) =>
      s.(table := Moving(s.table, n, Waiting), out := Enqueued(s.out, OutFrame(s.table.ids[n], ByCaller, Other)))
    case AbandonQueue(n, cancelled) =>
      s.(table := Moving(s.table, n, Forgetting(if cancelled then Cancelled else ConnClosed)))
    case TakeAnswer(n) => s.(table := Taking(s.table, n))
    case GiveUp(n, why) => s.(table := Moving(s.table, n, Forgetting(why)))
    case Forget(n) => s.(table := Forgotten(s.table, n))
    case ReadResponse(r) =>
      s.(table := LookingUp(s.table, r), reader := if r.id in s.table.pending then Delivering else Reading)
    case Deliver => s.(table := DeliveredTo(s.table), reader := Reading)
    case ReadCall(id) =>
      s.(reader := Handing, pipe := s.pipe.(handing := Some(id), inbound := s.pipe.inbound + [id]))
    case HandOver =>
      s.(reader := Reading,
         pipe := s.pipe.(handing := None, calls := s.pipe.calls + [s.pipe.handing.value]))
    case ReadMalformed(errId) => s.(reader := Apologising(errId))
    case Apologise(queued) =>
      s.(reader := Reading, out := if queued then Enqueued(s.out, OutFrame(s.reader.id, ByReader, Other)) else s.out)
    case ReaderStops => s.(reader := ReaderDone, done := true)
    case TakeCall =>
      s.(pipe := s.pipe.(handler := Handling(s.pipe.calls[0]), calls := s.pipe.calls[1..]))
    case Finish(came) => s.(pipe := Finished(s.pipe, came))
    case QueueReply =>
      var f := s.pipe.handler.frame;
      s.(pipe := s.pipe.(handler := Idle, answered := s.pipe.answered + [Sent(f.id, f.body)]),
         out := Enqueued(s.out, f))
    case DropReply => s.(pipe := s.pipe.(handler := Idle))
    case HandlerStops => s.(pipe := s.pipe.(handler := HandlerDone))
    case Write =>
      s.(out := s.out.(wire := s.out.wire + [s.out.send[0]], send := s.out.send[1..]))
    case Close => s.(done := true)
  }

  const Start: State :=
    State(false, Table(0, map[], map[], map[], map[], None, [], map[]), Reading,
          Pipe(None, [], Idle, [], [], []), Out([], [], []))

  ghost predicate Run(b: seq<State>, ss: seq<Step>) {
    |b| == |ss| + 1 && b[0] == Start &&
    forall k :: 0 <= k < |ss| ==> Enabled(b[k], ss[k]) && b[k + 1] == Apply(b[k], ss[k])
  }

  // ----- request correlation ----------------------------------------------

  /** The first answer to id among the responses from index lo on. */
  function First(rs: seq<Response>, lo: nat, id: string): Option<Answer>
    decreases |rs|
  {
    if |rs| <= lo then None
    else
      var before := First(rs[..|rs| - 1], lo, id);
      if before.Some? then before
      else if rs[|rs| - 1].id == id then Some(rs[|rs| - 1].answer)
      else None
  }

  lemma FirstAppend(rs: seq<Response>, r: Response, lo: nat, id: string)
    requires lo <= |rs|
    ensures First(rs + [r], lo, id) ==
            if First(rs, lo, id).Some? then First(rs, lo, id)
            else if r.id == id then Some(r.answer) else None
  {
    assert (rs + [r])[..|rs|] == rs;
  }

  lemma {:induction false} FirstIsFirst(rs: seq<Response>, lo: nat, id: string)
    requires First(rs, lo, id).Some?
    ensures exists k :: lo <= k < |rs| && rs[k] == Response(id, First(rs, lo, id).value)
                        && forall j :: lo <= j < k ==> rs[j].id != id
  {
    var init := rs[..|rs| - 1];
    if First(init, lo, id).Some? {
      FirstIsFirst(init, lo, id);
      var k :| lo <= k < |init| && init[k] == Response(id, First(init, lo, id).value)
               && forall j :: lo <= j < k ==> init[j].id != id;
      assert rs[k] == init[k] && forall j :: lo <= j < k ==> rs[j] == init[j];
    } else {
      NoFirst(init, lo, id);
      var k := |rs| - 1;
      assert rs[k] == Response(id, First(rs, lo, id).value);
      assert forall j :: lo <= j < k ==> rs[j] == init[j];
    }
  }

  lemma {:induction false} NoFirst(rs: seq<Response>, lo: nat, id: string)
    requires First(rs, lo, id) == None
    ensures forall j :: lo <= j < |rs| ==> rs[j].id != id
  {
    if |rs| > lo {
      var init := rs[..|rs| - 1];
      NoFirst(init, lo, id);
      assert forall j :: lo <= j < |init| ==> rs[j] == init[j];
    }
  }

  /** A Call holds its entry from registering until its deferred forget. */
  predicate HoldsEntry(c: Caller) {
    c.Registered? || c.Waiting? || c.Forgetting?
  }

  ghost predicate IdsInv(t: Table) {
    && t.callers.Keys == t.ids.Keys
    && (forall n :: n in t.ids ==> 1 <= n <= t.nextId && t.ids[n] == Itoa(n))
  }

  ghost predicate OneId(t: Table) {
    forall m, n :: m in t.ids && n in t.ids && t.ids[m] == t.ids[n] ==> m == n
  }

  lemma IdsAreDistinct(t: Table)
    requires IdsInv(t)
    ensures OneId(t)
  {
    forall m, n | m in t.ids && n in t.ids && t.ids[m] == t.ids[n]
      ensures m == n
    {
      ItoaInjective(m, n);
    }
  }

  /** A Call has an entry in the pending table exactly while HoldsEntry. */
  ghost predicate EntriesInv(t: Table) {
    && t.callers.Keys == t.ids.Keys
    && (forall id :: id in t.pending ==>
          t.pending[id] in t.callers && HoldsEntry(t.callers[t.pending[id]]) && id == t.ids[t.pending[id]])
    && (forall n :: n in t.callers && HoldsEntry(t.callers[n]) ==>
          t.ids[n] in t.pending && t.pending[t.ids[n]] == n)
    && (t.delivery.Some? ==>
          t.delivery.value.call in t.callers && !t.callers[t.delivery.value.call].Numbered?)
  }

  ghost predicate Got(t: Table, n: nat, a: Answer)
    requires n in t.ids
  {
    n in t.since && t.since[n] <= |t.seen| && First(t.seen, t.since[n], t.ids[n]) == Some(a)
  }

  /** The first answer to n's id since it registered has not come, is in n's
      channel, or is on its way there. */
  ghost predicate Progress(t: Table, n: nat)
    requires n in t.ids
  {
    && n in t.since && n in t.chans && t.since[n] <= |t.seen|
    && match First(t.seen, t.since[n], t.ids[n])
       case None => t.chans[n] == None && !(t.delivery.Some? && t.delivery.value.call == n)
       case Some(a) => t.chans[n] == Some(a) || (t.chans[n] == None && t.delivery == Some(Delivery(n, a)))
  }

  ghost predicate AnswerInv(t: Table, n: nat)
    requires n in t.callers && n in t.ids
  {
    match t.callers[n]
    case Numbered => true
    case Registered => Progress(t, n)
    case Waiting => Progress(t, n)
    case Forgetting(out) => out.Answered? ==> Got(t, n, out.answer)
    case Returned(out) => out.Answered? ==> Got(t, n, out.answer)
  }

  ghost predicate TableInv(t: Table) {
    && IdsInv(t)
    && EntriesInv(t)
    && forall n :: n in t.callers ==> AnswerInv(t, n)
  }

  lemma NumberingAnswers(t: Table, encodes: bool, m: nat)
    requires m in t.callers && m in t.ids && m <= t.nextId && AnswerInv(t, m)
    ensures AnswerInv(Numbering(t, encodes), m)
  {
  }

  lemma NumberingEntries(t: Table, encodes: bool)
    requires EntriesInv(t) && t.nextId + 1 !in t.ids
    ensures EntriesInv(Numbering(t, encodes))
  {
  }

  lemma NumberingKeeps(t: Table, encodes: bool)
    requires TableInv(t)
    ensures TableInv(Numbering(t, encodes))
  {
    NumberingEntries(t, encodes);
    forall m | m in t.callers
      ensures AnswerInv(Numbering(t, encodes), m)
    {
      NumberingAnswers(t, encodes, m);
    }
  }

  lemma RegisteringEntries(t: Table, n: nat)
    requires OneId(t) && EntriesInv(t) && At(t, n, Numbered)
    ensures EntriesInv(Registering(t, n))
  {
  }

  lemma RegisteringAnswer(t: Table, n: nat, m: nat)
    requires At(t, n, Numbered) && EntriesInv(t) && m in t.callers && AnswerInv(t, m)
    ensures AnswerInv(Registering(t, n), m)
  {
    assert First(t.seen, |t.seen|, t.ids[n]) == None;
  }

  lemma RegisteringKeeps(t: Table, n: nat)
    requires TableInv(t) && At(t, n, Numbered)
    ensures TableInv(Registering(t, n))
  {
    IdsAreDistinct(t);
    RegisteringEntries(t, n);
    forall m | m in t.callers
      ensures AnswerInv(Registering(t, n), m)
    {
      RegisteringAnswer(t, n, m);
    }
  }

  lemma MovingKeeps(t: Table, n: nat, c: Caller)
    requires TableInv(t) && n in t.callers
    requires t.callers[n].Registered? || t.callers[n].Waiting?
    requires c.Waiting? || (c.Forgetting? && !c.out.Answered?)
    ensures TableInv(Moving(t, n, c))
  {
    var u := Moving(t, n, c);
    assert forall m :: m in t.callers ==> AnswerInv(t, m) && AnswerInv(u, m);
  }

  lemma TakingKeeps(t: Table, n: nat)
    requires TableInv(t) && At(t, n, Waiting) && n in t.chans && t.chans[n].Some?
    ensures TableInv(Taking(t, n))
  {
    var u := Taking(t, n);
    assert AnswerInv(t, n);
    assert Got(u, n, t.chans[n].value);
    assert forall m :: m in t.callers ==> AnswerInv(t, m) && AnswerInv(u, m);
  }

  lemma ForgottenEntries(t: Table, n: nat)
    requires OneId(t) && EntriesInv(t) && n in t.callers && n in t.ids && t.callers[n].Forgetting?
    ensures EntriesInv(Forgotten(t, n))
  {
  }

  lemma ForgottenAnswer(t: Table, n: nat, m: nat)
    requires n in t.callers && n in t.ids && t.callers[n].Forgetting?
    requires m in t.callers && m in t.ids && AnswerInv(t, m)
    ensures AnswerInv(Forgotten(t, n), m)
  {
  }

  lemma ForgottenKeeps(t: Table, n: nat)
    requires TableInv(t) && n in t.callers && n in t.ids && t.callers[n].Forgetting?
    ensures TableInv(Forgotten(t, n))
  {
    IdsAreDistinct(t);
    ForgottenEntries(t, n);
    forall m | m in t.callers
      ensures AnswerInv(Forgotten(t, n), m)
    {
      ForgottenAnswer(t, n, m);
    }
  }

  lemma LookingUpKeeps(t: Table, r: Response)
    requires TableInv(t) && t.delivery == None
    ensures TableInv(LookingUp(t, r))
  {
    IdsAreDistinct(t);
    var u := LookingUp(t, r);
    forall m | m in t.callers
      ensures AnswerInv(u, m)
    {
      assert AnswerInv(t, m);
      if m in t.since && t.since[m] <= |t.seen| {
        FirstAppend(t.seen, r, t.since[m], t.ids[m]);
      }
    }
  }

  lemma DeliveredToKeeps(t: Table)
    requires TableInv(t) && t.delivery.Some?
    ensures TableInv(DeliveredTo(t))
  {
    var u := DeliveredTo(t);
    assert forall m :: m in t.callers ==> AnswerInv(t, m) && AnswerInv(u, m);
  }

  ghost predicate CallInv(s: State) {
    TableInv(s.table) && (s.reader != Delivering ==> s.table.delivery == None)
  }

  lemma CallInvPreserved(s: State, st: Step)
    requires CallInv(s) && Enabled(s, st)
    ensures CallInv(Apply(s, st))
  {
    match st
    case StartCall(encodes) => NumberingKeeps(s.table, encodes);
    case Register(n) => RegisteringKeeps(s.table, n);
    case QueueCall(n) => MovingKeeps(s.table, n, Waiting);
    case AbandonQueue(n, cancelled) =>
      MovingKeeps(s.table, n, Forgetting(if cancelled then Cancelled else ConnClosed));
    case TakeAnswer(n) => TakingKeeps(s.table, n);
    case GiveUp(n, why) => MovingKeeps(s.table, n, Forgetting(why));
    case Forget(n) => ForgottenKeeps(s.table, n);
    case ReadResponse(r) => LookingUpKeeps(s.table, r);
    case Deliver => DeliveredToKeeps(s.table);
    case _ =>
  }

  lemma {:induction false} RunCallInv(b: seq<State>, ss: seq<Step>, k: nat)
    requires Run(b, ss) && k < |b|
    ensures CallInv(b[k])
  {
    if k > 0 {
      RunCallInv(b, ss, k - 1);
      CallInvPreserved(b[k - 1], ss[k - 1]);
    }
  }

  /** Call returns an answer only from a response carrying its own message id,
      and always the first one looked up since it registered: what came before,
      came again later or carried another id has no say. */
  lemma AnswerIsTheFirstOwn(b: seq<State>, ss: seq<Step>, k: nat, n: nat)
    requires Run(b, ss) && k < |b|
    requires n in b[k].table.callers
    requires b[k].table.callers[n].Returned? && b[k].table.callers[n].out.Answered?
    ensures n in b[k].table.since
    ensures var t := b[k].table;
            exists i :: t.since[n] <= i < |t.seen|
              && t.seen[i] == Response(Itoa(n), t.callers[n].out.answer)
              && forall j :: t.since[n] <= j < i ==> t.seen[j].id != Itoa(n)
  {
    RunCallInv(b, ss, k);
    var t := b[k].table;
    assert AnswerInv(t, n);
    FirstIsFirst(t.seen, t.since[n], Itoa(n));
  }

  ghost function Running(t: Table): set<nat> {
    set n | n in t.callers && HoldsEntry(t.callers[n])
  }

  /** The pending table holds exactly the ids of the Calls still running, so
      PendingCount counts them and is zero when there are none. */
  lemma PendingIsExact(b: seq<State>, ss: seq<Step>, k: nat)
    requires Run(b, ss) && k < |b|
    ensures b[k].table.pending.Keys == set n | n in Running(b[k].table) :: Itoa(n)
    ensures |b[k].table.pending| == |Running(b[k].table)|
  {
    RunCallInv(b, ss, k);
    var t := b[k].table;
    var running := Running(t);
    IdsAreDistinct(t);
    EntriesCount(t);
    assert (set n | n in running :: t.ids[n]) == set n | n in running :: Itoa(n);
  }

  lemma EntriesCount(t: Table)
    requires EntriesInv(t) && OneId(t)
    ensures t.pending.Keys == set n | n in Running(t) :: t.ids[n]
    ensures |t.pending| == |Running(t)|
  {
    var image := set n | n in Running(t) :: t.ids[n];
    forall id
      ensures id in t.pending <==> id in image
    {
      if id in t.pending {
        assert t.pending[id] in Running(t);
      }
    }
    assert t.pending.Keys == image;
    ImageSize(Running(t), t.ids);
    assert |t.pending| == |t.pending.Keys|;
  }

  lemma {:induction false} ImageSize(ns: set<nat>, ids: map<nat, string>)
    requires ns <= ids.Keys
    requires forall m, n :: m in ids && n in ids && ids[m] == ids[n] ==> m == n
    ensures |set n | n in ns :: ids[n]| == |ns|
  {
    var image := set n | n in ns :: ids[n];
    if ns != {} {
      var m :| m in ns;
      ImageSize(ns - {m}, ids);
      assert image == (set n | n in ns - {m} :: ids[n]) + {ids[m]};
    }
  }

  /** A response nobody is waiting for, or that repeats one already delivered,
      leaves no trace beyond having been read. */
  lemma UselessResponseChangesNothing(b: seq<State>, ss: seq<Step>, k: nat, r: Response)
    requires Run(b, ss) && k < |b| && b[k].reader == Reading
    requires var t := b[k].table;
             forall n :: n in Running(t) && Itoa(n) == r.id ==> n in t.chans && t.chans[n].Some?
    ensures var s := b[k];
            var t := Apply(s, ReadResponse(r));
            (if t.reader == Delivering then Apply(t, Deliver) else t) ==
            s.(table := s.table.(seen := s.table.seen + [r]))
  {
    RunCallInv(b, ss, k);
    var t := b[k].table;
    if r.id in t.pending {
      assert t.pending[r.id] in Running(t);
    }
  }

  // ----- late answers -------------------------------------------------------

  /** What a Call is going to return, once that is settled. */
  function Settled(t: Table, n: nat): Option<Outcome> {
    if n !in t.callers then None
    else
      match t.callers[n]
      case Numbered => None
      case Registered => None
      case Waiting => None
      case Forgetting(out) => Some(out)
      case Returned(out) => Some(out)
  }

  lemma StepSettles(s: State, st: Step, n: nat)
    requires CallInv(s) && Enabled(s, st) && Settled(s.table, n).Some?
    ensures Settled(Apply(s, st).table, n) == Settled(s.table, n)
  {
  }

  /** From the moment a Call leaves its last select, by an answer, its timeout, a
      closed connection or its context, what it returns is fixed, whatever
      responses arrive before and after its deferred forget. */
  lemma {:induction false} OutcomeIsFixed(b: seq<State>, ss: seq<Step>, j: nat, k: nat, n: nat)
    requires Run(b, ss) && j <= k < |b| && Settled(b[j].table, n).Some?
    ensures Settled(b[k].table, n) == Settled(b[j].table, n)
  {
    if j < k {
      OutcomeIsFixed(b, ss, j, k - 1, n);
      RunCallInv(b, ss, k - 1);
      StepSettles(b[k - 1], ss[k - 1], n);
    }
  }

  // ----- answers to inbound CALLs ------------------------------------------

  function HandledIds(hs: seq<Handled>): seq<string> {
    if hs == [] then [] else HandledIds(hs[..|hs| - 1]) + [hs[|hs| - 1].id]
  }

  /** The answers, in order, to the given CALLs. */
  function Replies(hs: seq<Handled>): seq<Sent> {
    if hs == [] then []
    else
      var before, last := Replies(hs[..|hs| - 1]), hs[|hs| - 1];
      match Reply(last.came)
      case Some(body) => before + [Sent(last.id, body)]
      case None => before
  }

  function SentIds(q: seq<Sent>): seq<string> {
    seq(|q|, i requires 0 <= i < |q| => q[i].id)
  }

  function FromHandler(fs: seq<OutFrame>): seq<Sent> {
    if fs == [] then []
    else
      var before, last := FromHandler(fs[..|fs| - 1]), fs[|fs| - 1];
      if last.sender == ByHandler then before + [Sent(last.id, last.body)] else before
  }

  lemma HandledAppend(hs: seq<Handled>, h: Handled)
    ensures HandledIds(hs + [h]) == HandledIds(hs) + [h.id]
    ensures Replies(hs + [h]) ==
            Replies(hs) + if Reply(h.came).Some? then [Sent(h.id, Reply(h.came).value)] else []
  {
    assert (hs + [h])[..|hs|] == hs;
  }

  lemma FromHandlerAppend(fs: seq<OutFrame>, f: OutFrame)
    ensures FromHandler(fs + [f]) == FromHandler(fs) + if f.sender == ByHandler then [Sent(f.id, f.body)] else []
  {
    assert (fs + [f])[..|fs|] == fs;
  }

  function BeingHandled(p: Pipe): seq<string> {
    if p.handler.Handling? then [p.handler.id] else []
  }

  function BeingQueued(p: Pipe): seq<Sent> {
    if p.handler.Queueing? then [Sent(p.handler.frame.id, p.handler.frame.body)] else []
  }

  function BeingHanded(p: Pipe): seq<string> {
    if p.handing.Some? then [p.handing.value] else []
  }

  /** The CALLs not yet handled, oldest first. */
  function Backlog(p: Pipe): seq<string> {
    BeingHandled(p) + (p.calls + BeingHanded(p))
  }

  ghost predicate OutInv(o: Out, answered: seq<Sent>) {
    o.wire + o.send == o.queued && FromHandler(o.queued) == answered
  }

  ghost predicate PipeInv(p: Pipe) {
    && !p.handler.HandlerDone?
    && HandledIds(p.handled) + Backlog(p) == p.inbound
    && p.answered + BeingQueued(p) == Replies(p.handled)
  }

  lemma EnqueuedKeeps(o: Out, f: OutFrame, answered: seq<Sent>)
    requires OutInv(o, answered)
    ensures OutInv(Enqueued(o, f), if f.sender == ByHandler then answered + [Sent(f.id, f.body)] else answered)
  {
    FromHandlerAppend(o.queued, f);
  }

  lemma OutPreserved(s: State, st: Step)
    requires Enabled(s, st) && OutInv(s.out, s.pipe.answered)
    requires s.pipe.handler.Queueing? ==> s.pipe.handler.frame.sender == ByHandler
    ensures OutInv(Apply(s, st).out, Apply(s, st).pipe.answered)
  {
    match st
    case QueueCall(n) => EnqueuedKeeps(s.out, OutFrame(s.table.ids[n], ByCaller, Other), s.pipe.answered);
    case Apologise(_) => EnqueuedKeeps(s.out, OutFrame(s.reader.id, ByReader, Other), s.pipe.answered);
    case QueueReply => EnqueuedKeeps(s.out, s.pipe.handler.frame, s.pipe.answered);
    case Write => assert s.out.send == [s.out.send[0]] + s.out.send[1..];
    case _ =>
  }

  lemma HandOverKeeps(p: Pipe, id: string)
    requires PipeInv(p) && p.handing == Some(id)
    ensures PipeInv(p.(handing := None, calls := p.calls + [id]))
  {
    assert p.calls + [id] == (p.calls + [id]) + [];
  }

  lemma TakeCallKeeps(p: Pipe)
    requires PipeInv(p) && p.handler == Idle && |p.calls| > 0
    ensures PipeInv(p.(handler := Handling(p.calls[0]), calls := p.calls[1..]))
  {
    var q := p.(handler := Handling(p.calls[0]), calls := p.calls[1..]);
    assert Backlog(q) == Backlog(p);
  }

  lemma FinishedKeeps(p: Pipe, came: Came)
    requires PipeInv(p) && p.handler.Handling?
    ensures PipeInv(Finished(p, came))
  {
    var q := Finished(p, came);
    var id, rest := p.handler.id, p.calls + BeingHanded(p);
    HandledAppend(p.handled, Handled(id, came));
    assert HandledIds(p.handled) + ([id] + rest) == HandledIds(p.handled) + [id] + rest;
    assert Backlog(p) == [id] + rest && Backlog(q) == rest;
  }

  lemma PipePreserved(s: State, st: Step)
    requires Enabled(s, st) && PipeInv(s.pipe) && !s.done && !Apply(s, st).done
    requires s.reader == Handing <==> s.pipe.handing.Some?
    ensures PipeInv(Apply(s, st).pipe)
  {
    var p := s.pipe;
    match st
    case ReadCall(id) =>
      assert Backlog(p.(handing := Some(id), inbound := p.inbound + [id])) == Backlog(p) + [id];
    case HandOver => HandOverKeeps(p, p.handing.value);
    case TakeCall => TakeCallKeeps(p);
    case Finish(came) => FinishedKeeps(p, came);
    case _ =>
  }

  ghost predicate OrderInv(s: State) {
    && (s.pipe.handler.Queueing? ==> s.pipe.handler.frame.sender == ByHandler)
    && OutInv(s.out, s.pipe.answered)
    && (!s.done ==> PipeInv(s.pipe) && (s.reader == Handing <==> s.pipe.handing.Some?))
  }

  lemma OrderPreserved(s: State, st: Step)
    requires OrderInv(s) && Enabled(s, st)
    ensures OrderInv(Apply(s, st))
  {
    OutPreserved(s, st);
    if !s.done && !Apply(s, st).done {
      PipePreserved(s, st);
      HandingPreserved(s, st);
    }
    SenderPreserved(s, st);
  }

  lemma HandingPreserved(s: State, st: Step)
    requires Enabled(s, st) && !Apply(s, st).done
    requires s.reader == Handing <==> s.pipe.handing.Some?
    ensures var t := Apply(s, st); t.reader == Handing <==> t.pipe.handing.Some?
  {
  }

  lemma SenderPreserved(s: State, st: Step)
    requires Enabled(s, st) && (s.pipe.handler.Queueing? ==> s.pipe.handler.frame.sender == ByHandler)
    ensures var h := Apply(s, st).pipe.handler; h.Queueing? ==> h.frame.sender == ByHandler
  {
  }

  lemma {:induction false} RunOrderInv(b: seq<State>, ss: seq<Step>, k: nat)
    requires Run(b, ss) && k < |b|
    ensures OrderInv(b[k])
  {
    if k > 0 {
      RunOrderInv(b, ss, k - 1);
      OrderPreserved(b[k - 1], ss[k - 1]);
    }
  }

  predicate BadDetails(c: Came) {
    c.Raises? && c.error.details.Refuses?
  }

  predicate NoBadDetails(hs: seq<Handled>) {
    forall k :: 0 <= k < |hs| ==> !BadDetails(hs[k].came)
  }

  lemma {:induction false} EveryReply(hs: seq<Handled>)
    ensures |Replies(hs)| <= |HandledIds(hs)|
    ensures NoBadDetails(hs) <==> SentIds(Replies(hs)) == HandledIds(hs)
  {
    if hs != [] {
      var init, last := hs[..|hs| - 1], hs[|hs| - 1];
      EveryReply(init);
      OnlyBadDetailsGoUnanswered(last.came);
      assert NoBadDetails(hs) <==> NoBadDetails(init) && Reply(last.came).Some?;
      var before, ids := Replies(init), HandledIds(init);
      if Reply(last.came).Some? {
        var reply := Sent(last.id, Reply(last.came).value);
        assert SentIds(before + [reply]) == SentIds(before) + [last.id];
        assert (SentIds(before) + [last.id])[..|before|] == SentIds(before);
        assert (ids + [last.id])[..|ids|] == ids;
      }
    }
  }

  /** The answer to a CALL, by what its handler did. */
  ghost predicate Fits(h: Handled, q: Sent) {
    && q.id == h.id
    && match h.came
       case Returns(result) =>
         if result.Marshals? then q.body == CallResult(result.text)
         else q.body == CallError("InternalError", "could not encode result", "{}")
       case Raises(e) => e.details.Marshals? && q.body == CallError(e.code, e.description, e.details.text)
       case Panics => q.body == CallError("InternalError", "handler failed", "{}")
  }

  /** The CALLs that get an answer: all but those refused with details that cannot be
      encoded. */
  function Answerable(hs: seq<Handled>): seq<Handled> {
    if hs == [] then []
    else
      var before, last := Answerable(hs[..|hs| - 1]), hs[|hs| - 1];
      if BadDetails(last.came) then before else before + [last]
  }

  lemma {:induction false} RepliesFit(hs: seq<Handled>)
    ensures |Replies(hs)| == |Answerable(hs)|
    ensures forall i :: 0 <= i < |Replies(hs)| ==> Fits(Answerable(hs)[i], Replies(hs)[i])
  {
    if hs != [] {
      RepliesFit(hs[..|hs| - 1]);
      OnlyBadDetailsGoUnanswered(hs[|hs| - 1].came);
    }
  }

  lemma {:induction false} AllAnswerable(hs: seq<Handled>)
    ensures NoBadDetails(hs) ==> Answerable(hs) == hs
  {
    if hs != [] {
      AllAnswerable(hs[..|hs| - 1]);
      assert hs == hs[..|hs| - 1] + [hs[|hs| - 1]];
    }
  }

  /** While the connection is open: the CALLs handled, followed by those in hand or
      in the queue, are the inbound ones in the order the peer sent them; what the
      handler loop has queued or is about to is the reply to each, in that order,
      under its id; and it is one per CALL exactly if none of them was refused with
      details that cannot be encoded. What reaches the wire keeps that order. */
  lemma AnswersFollowTheCalls(b: seq<State>, ss: seq<Step>, k: nat)
    requires Run(b, ss) && k < |b| && !b[k].done
    ensures var p := b[k].pipe;
            HandledIds(p.handled) + Backlog(p) == p.inbound
    ensures var p := b[k].pipe;
            var sent := p.answered + BeingQueued(p);
            && |sent| == |Answerable(p.handled)|
            && (forall i :: 0 <= i < |sent| ==> Fits(Answerable(p.handled)[i], sent[i]))
            && (NoBadDetails(p.handled) ==> Answerable(p.handled) == p.handled)
    ensures var p := b[k].pipe;
            NoBadDetails(p.handled) <==> SentIds(p.answered + BeingQueued(p)) + Backlog(p) == p.inbound
    ensures FromHandler(b[k].out.wire) <= b[k].pipe.answered
  {
    RunOrderInv(b, ss, k);
    var p := b[k].pipe;
    EveryReply(p.handled);
    RepliesFit(p.handled);
    AllAnswerable(p.handled);
    SameFront(SentIds(Replies(p.handled)), HandledIds(p.handled), Backlog(p));
    FromHandlerPrefix(b[k].out.wire, b[k].out.send);
  }

  lemma SameFront(p: seq<string>, q: seq<string>, rest: seq<string>)
    ensures p + rest == q + rest <==> p == q
  {
    if p + rest == q + rest {
      assert |p| == |q|;
      assert p == (p + rest)[..|p|] && q == (q + rest)[..|q|];
    }
  }

  lemma {:induction false} FromHandlerPrefix(fs: seq<OutFrame>, gs: seq<OutFrame>)
    ensures FromHandler(fs) <= FromHandler(fs + gs)
  {
    if gs == [] {
      assert fs + gs == fs;
    } else {
      var init := gs[..|gs| - 1];
      FromHandlerPrefix(fs, init);
      assert (fs + gs)[..|fs + gs| - 1] == fs + init;
    }
  }
}
