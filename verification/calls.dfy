/** What becomes of each Call on a connection (internal/ocpp/ocppj/conn.go): its frame
    goes out once, and nothing keeps it from returning. */
module Calls {
  import opened Common
  import opened Conn

  // ----- its frame ----------------------------------------------------------------

  /** How many CALL frames with this id there are. */
  function Frames(fs: seq<OutFrame>, id: string): nat {
    if fs == [] then 0
    else
      var last := fs[|fs| - 1];
      Frames(fs[..|fs| - 1], id) + if last.sender == ByCaller && last.id == id then 1 else 0
  }

  lemma FramesAppend(fs: seq<OutFrame>, f: OutFrame, id: string)
    ensures Frames(fs + [f], id) == Frames(fs, id) + if f.sender == ByCaller && f.id == id then 1 else 0
  {
    assert (fs + [f])[..|fs|] == fs;
  }

  /** What is known of the number of frames from how far the Call has got. */
  predicate FitsCall(c: Caller, frames: nat) {
    match c
    case Numbered => frames == 0
    case Registered => frames == 0
    case Waiting => frames == 1
    case Forgetting(out) => FitsOutcome(out, frames)
    case Returned(out) => FitsOutcome(out, frames)
  }

  predicate FitsOutcome(out: Outcome, frames: nat) {
    match out
    case Answered(_) => frames == 1
    case TimedOut => frames == 1
    case EncodeError => frames == 0
    case ConnClosed => frames <= 1
    case Cancelled => frames <= 1
  }

  ghost predicate OneSent(s: State, n: nat) {
    if n in s.table.callers then FitsCall(s.table.callers[n], Frames(s.out.queued, Itoa(n)))
    else Frames(s.out.queued, Itoa(n)) == 0
  }

  lemma QueueStands(s: State, st: Step, id: string)
    requires Enabled(s, st) && !st.QueueCall?
    requires s.pipe.handler.Queueing? ==> s.pipe.handler.frame.sender == ByHandler
    ensures Frames(Apply(s, st).out.queued, id) == Frames(s.out.queued, id)
  {
    if st.Apologise? && st.queued {
      FramesAppend(s.out.queued, OutFrame(s.reader.id, ByReader, Other), id);
    } else if st.QueueReply? {
      FramesAppend(s.out.queued, s.pipe.handler.frame, id);
    }
  }

  lemma QueueingPreserved(s: State, st: Step, n: nat)
    requires CallInv(s) && Enabled(s, st) && st.QueueCall? && OneSent(s, n)
    ensures OneSent(Apply(s, st), n)
  {
    FramesAppend(s.out.queued, OutFrame(s.table.ids[st.n], ByCaller, Other), Itoa(n));
    if Itoa(n) == Itoa(st.n) {
      ItoaInjective(n, st.n);
    }
  }

  predicate CallerStep(st: Step) {
    st.StartCall? || st.Register? || st.QueueCall? || st.AbandonQueue? || st.TakeAnswer? || st.GiveUp? || st.Forget?
  }

  lemma CallersStand(s: State, st: Step)
    requires Enabled(s, st) && !CallerStep(st)
    ensures Apply(s, st).table.callers == s.table.callers
  {
  }

  lemma CallerMoves(s: State, st: Step, n: nat, frames: nat)
    requires IdsInv(s.table) && Enabled(s, st) && CallerStep(st) && !st.QueueCall?
    requires n in s.table.callers && FitsCall(s.table.callers[n], frames)
    ensures n in Apply(s, st).table.callers && FitsCall(Apply(s, st).table.callers[n], frames)
  {
  }

  lemma CallerAppears(s: State, st: Step, n: nat)
    requires IdsInv(s.table) && Enabled(s, st) && !st.QueueCall? && n !in s.table.callers
    ensures n in Apply(s, st).table.callers ==> FitsCall(Apply(s, st).table.callers[n], 0)
  {
  }

  lemma SentPreserved(s: State, st: Step, n: nat)
    requires CallInv(s) && Enabled(s, st) && OneSent(s, n)
    requires s.pipe.handler.Queueing? ==> s.pipe.handler.frame.sender == ByHandler
    ensures OneSent(Apply(s, st), n)
  {
    if st.QueueCall? {
      QueueingPreserved(s, st, n);
    } else {
      QueueStands(s, st, Itoa(n));
      if !CallerStep(st) {
        CallersStand(s, st);
      } else if n in s.table.callers {
        CallerMoves(s, st, n, Frames(s.out.queued, Itoa(n)));
      } else {
        CallerAppears(s, st, n);
      }
    }
  }

  lemma {:induction false} RunSent(b: seq<State>, ss: seq<Step>, k: nat, n: nat)
    requires Run(b, ss) && k < |b|
    ensures OneSent(b[k], n)
  {
    if k > 0 {
      RunSent(b, ss, k - 1, n);
      RunCallInv(b, ss, k - 1);
      RunOrderInv(b, ss, k - 1);
      SentPreserved(b[k - 1], ss[k - 1], n);
    }
  }

  /** A Call puts its frame into the send queue at most once: exactly once if it
      returns an answer or times out, never if its request cannot be encoded or while
      it has not got to queueing. What has been written is what was queued, in order. */
  lemma CallsAreSentOnce(b: seq<State>, ss: seq<Step>, k: nat, n: nat)
    requires Run(b, ss) && k < |b| && n in b[k].table.callers
    ensures var s, c := b[k], b[k].table.callers[n];
            var frames := Frames(s.out.queued, Itoa(n));
            && frames <= 1
            && s.out.wire + s.out.send == s.out.queued
            && (c.Numbered? || c.Registered? || c == Returned(EncodeError) ==> frames == 0)
            && (c.Waiting? || (c.Returned? && (c.out.Answered? || c.out.TimedOut?)) ==> frames == 1)
  {
    RunSent(b, ss, k, n);
    RunOrderInv(b, ss, k);
  }

  // ----- its return -------------------------------------------------------------------

  /** Once the connection is closed a Call that has registered returns by steps of its
      own, at most two, whatever the others do; it then returns what it had, or that the
      connection is closed, and leaves no entry behind. */
  lemma ClosedCallsReturn(b: seq<State>, ss: seq<Step>, k: nat, n: nat)
    requires Run(b, ss) && k < |b| && b[k].done
    requires n in b[k].table.callers && HoldsEntry(b[k].table.callers[n])
    ensures var s, c := b[k], b[k].table.callers[n];
            if c.Forgetting? then
              Enabled(s, Forget(n)) && Gone(Apply(s, Forget(n)), n, c.out)
            else
              var leave := if c.Registered? then AbandonQueue(n, false) else GiveUp(n, ConnClosed);
              && Enabled(s, leave) && Enabled(Apply(s, leave), Forget(n))
              && Gone(Apply(Apply(s, leave), Forget(n)), n, ConnClosed)
  {
    RunCallInv(b, ss, k);
  }

  predicate Gone(s: State, n: nat, out: Outcome) {
    n in s.table.callers && s.table.callers[n] == Returned(out) && Itoa(n) !in s.table.pending
  }

  // ----- its answer ---------------------------------------------------------------------

  /** Somebody has answered n since it registered. */
  ghost predicate AnsweredSince(t: Table, n: nat) {
    n in t.since && exists i :: t.since[n] <= i < |t.seen| && t.seen[i].id == Itoa(n)
  }

  /** a is the answer of the first response to n since it registered. */
  ghost predicate FirstOwn(t: Table, n: nat, a: Answer) {
    n in t.since
    && exists i :: t.since[n] <= i < |t.seen| && t.seen[i] == Response(Itoa(n), a)
                   && forall j :: t.since[n] <= j < i ==> t.seen[j].id != Itoa(n)
  }

  lemma OnItsWay(t: Table, n: nat) returns (a: Answer)
    requires n in t.callers && n in t.ids && t.ids[n] == Itoa(n)
    requires t.callers[n] == Waiting && AnswerInv(t, n) && AnsweredSince(t, n)
    ensures FirstOwn(t, n, a) && n in t.chans
    ensures t.chans[n] == Some(a) || (t.chans[n] == None && t.delivery == Some(Delivery(n, a)))
  {
    if First(t.seen, t.since[n], Itoa(n)) == None {
      NoFirst(t.seen, t.since[n], Itoa(n));
    }
    FirstIsFirst(t.seen, t.since[n], Itoa(n));
    a := First(t.seen, t.since[n], Itoa(n)).value;
  }

  /** Deliver, if the reader has looked an answer up and not yet passed it on. */
  function Delivered(s: State): State {
    if Enabled(s, Deliver) then Apply(s, Deliver) else s
  }

  /** n can take this answer, and returns it then. */
  predicate CanTake(s: State, n: nat, a: Answer) {
    Enabled(s, TakeAnswer(n))
    && var t := Apply(s, TakeAnswer(n)).table; n in t.callers && t.callers[n] == Forgetting(Answered(a))
  }

  lemma CanTakeIt(s: State, n: nat, a: Answer)
    requires At(s.table, n, Waiting) && n in s.table.chans && s.table.chans[n] == Some(a)
    ensures CanTake(s, n, a)
  {
  }

  lemma DeliveredHasIt(s: State, n: nat, a: Answer)
    requires At(s.table, n, Waiting) && n in s.table.chans
    requires s.table.chans[n] == Some(a) || (s.table.chans[n] == None && s.table.delivery == Some(Delivery(n, a)))
    requires s.reader != Delivering ==> s.table.delivery == None
    ensures var t := Delivered(s).table; At(t, n, Waiting) && n in t.chans && t.chans[n] == Some(a)
  {
  }

  /** An answer to a waiting Call is not lost: once one has been read and the reader
      has passed it on, the Call can take the first one and return it. */
  lemma AnswersArrive(b: seq<State>, ss: seq<Step>, k: nat, n: nat) returns (a: Answer)
    requires Run(b, ss) && k < |b|
    requires n in b[k].table.callers && b[k].table.callers[n] == Waiting && AnsweredSince(b[k].table, n)
    ensures FirstOwn(b[k].table, n, a) && CanTake(Delivered(b[k]), n, a)
  {
    RunCallInv(b, ss, k);
    a := OnItsWay(b[k].table, n);
    DeliveredHasIt(b[k], n, a);
    CanTakeIt(Delivered(b[k]), n, a);
  }
}
