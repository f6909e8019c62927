/** Close waits, but not for ever (internal/control/control.go): from the moment it has
    refused further calls, those in flight and their background cancels have only so
    many steps left, and there is always one they can take. */
module Closing {
  import opened Common
  import opened Core
  import opened Control
  import opened Conversation

  // ----- adding up a map ------------------------------------------------------------

  ghost function Total<K, V>(m: map<K, V>, cost: V -> nat): nat {
    if m == map[] then 0
    else
      var k :| k in m;
      cost(m[k]) + Total(m - {k}, cost)
  }

  lemma {:induction false} TotalWithout<K, V>(m: map<K, V>, k: K, cost: V -> nat)
    requires k in m
    ensures Total(m, cost) == cost(m[k]) + Total(m - {k}, cost)
  {
    var first :| first in m && Total(m, cost) == cost(m[first]) + Total(m - {first}, cost);
    if first != k {
      TotalWithout(m - {first}, k, cost);
      TotalWithout(m - {k}, first, cost);
      assert m - {first} - {k} == m - {k} - {first};
    }
  }

  lemma TotalUpdate<K, V>(m: map<K, V>, k: K, v: V, cost: V -> nat)
    requires k in m
    ensures Total(m[k := v], cost) + cost(m[k]) == Total(m, cost) + cost(v)
  {
    TotalWithout(m, k, cost);
    TotalWithout(m[k := v], k, cost);
    assert m[k := v] - {k} == m - {k};
  }

  lemma TotalAdd<K, V>(m: map<K, V>, k: K, v: V, cost: V -> nat)
    requires k !in m
    ensures Total(m[k := v], cost) == Total(m, cost) + cost(v)
  {
    TotalWithout(m[k := v], k, cost);
    assert m[k := v] - {k} == m;
  }

  lemma {:induction false} TotalAtMost<K, V>(m: map<K, V>, cost: V -> nat, bound: nat)
    requires forall v :: cost(v) <= bound
    ensures Total(m, cost) <= bound * |m|
  {
    if m != map[] {
      var k :| k in m && Total(m, cost) == cost(m[k]) + Total(m - {k}, cost);
      RemoveOne(m, k);
      TotalAtMost(m - {k}, cost, bound);
      OneTimesMore(bound, |m|);
    }
  }

  lemma OneTimesMore(bound: nat, n: nat)
    requires n > 0
    ensures bound * n == bound + bound * (n - 1)
  {
  }

  lemma NoneMeansEmpty<K, V>(m: map<K, V>)
    ensures |m| == 0 <==> m == map[]
  {
    if m != map[] {
      var k := SomeKey(m);
      NotEmpty(m, k);
    }
  }

  lemma SomeKey<K, V>(m: map<K, V>) returns (k: K)
    requires m != map[]
    ensures k in m
  {
    k :| k in m;
  }

  // ----- steps that are left ------------------------------------------------------------

  /** How many steps a Reserve call can still take, its background cancel included. */
  function Left(pc: Pc): nat {
    match pc
    case Entered => 11
    case Recording(_) => 10
    case Recorded(_) => 9
    case Awaiting(_) => 8
    case Failed(_) => 7
    case Orphaned(_) => 6
    case Accepted(_) => 3
    case Refused(_) => 3
    case Unrecorded(_) => 2
    case Saving => 2
    case Vanished => 1
    case Returning => 1
  }

  function LeftOf(bg: Bg): nat {
    match bg
    case Asking => 4
    case AwaitingCancel => 3
    case Answered => 2
    case BgReturning => 1
  }

  ghost function AllLeft(d: Desk): nat {
    Total(d.reserves, Left) + Total(d.cancels, LeftOf)
  }

  /** A step of a Reserve call that has begun, or of a background cancel. */
  predicate CallStep(st: Step) {
    (ReserveStep(st) && !st.Enter?) || st.Begin? || CancelStep(st)
  }

  lemma Moved(d: Desk, t: nat, pc: Pc)
    requires t in d.reserves && Left(pc) < Left(d.reserves[t])
    ensures AllLeft(d.(reserves := d.reserves[t := pc])) < AllLeft(d)
  {
    TotalUpdate(d.reserves, t, pc, Left);
  }

  lemma BgMoved(d: Desk, id: int, bg: Bg)
    requires id in d.cancels && LeftOf(bg) < LeftOf(d.cancels[id])
    ensures AllLeft(d.(cancels := d.cancels[id := bg])) < AllLeft(d)
  {
    TotalUpdate(d.cancels, id, bg, LeftOf);
  }

  lemma Spawned(d: Desk, t: nat, id: int)
    requires t in d.reserves && d.reserves[t] == Orphaned(id) && id !in d.cancels
    ensures AllLeft(d.(inflight := d.inflight + 1,
                       reserves := d.reserves[t := Returning],
                       cancels := d.cancels[id := Asking])) < AllLeft(d)
  {
    TotalUpdate(d.reserves, t, Returning, Left);
    TotalAdd(d.cancels, id, Asking, LeftOf);
  }

  lemma CallGone(d: Desk, t: nat)
    requires t in d.reserves
    ensures AllLeft(d.(inflight := d.inflight - 1, reserves := d.reserves - {t})) < AllLeft(d)
  {
    TotalWithout(d.reserves, t, Left);
  }

  lemma BgGone(d: Desk, id: int)
    requires id in d.cancels
    ensures AllLeft(d.(inflight := d.inflight - 1, cancels := d.cancels - {id})) < AllLeft(d)
  {
    TotalWithout(d.cancels, id, LeftOf);
  }

  /** The step takes the call from where it is to a place with fewer steps left. */
  ghost predicate GoesDown(s: State, u: State, t: nat) {
    t in s.desk.reserves && t in u.desk.reserves
    && Left(u.desk.reserves[t]) < Left(s.desk.reserves[t])
    && u.desk == s.desk.(reserves := s.desk.reserves[t := u.desk.reserves[t]])
  }

  lemma TalkGoesDown(s: State, st: Step)
    requires Enabled(s, st) && TalkStep(st) && !st.Enter?
    ensures GoesDown(s, Apply(s, st), st.t)
  {
  }

  lemma BeginGoesDown(s: State, st: Step)
    requires Enabled(s, st) && st.Begin?
    ensures GoesDown(s, Apply(s, st), st.t)
  {
  }

  lemma DecidingGoesDown(s: State, st: Step)
    requires Enabled(s, st) && ReserveStep(st) && !TalkStep(st) && !st.Spawn? && !st.Return?
    ensures GoesDown(s, Apply(s, st), st.t)
  {
  }

  lemma ReserveSpends(s: State, st: Step)
    requires OwnInv(s) && Enabled(s, st) && (ReserveStep(st) || st.Begin?) && !st.Enter?
    ensures AllLeft(Apply(s, st).desk) < AllLeft(s.desk)
  {
    if st.Spawn? {
      Spawned(s.desk, st.t, s.desk.reserves[st.t].id);
    } else if st.Return? {
      CallGone(s.desk, st.t);
    } else {
      if st.Begin? {
        BeginGoesDown(s, st);
      } else if TalkStep(st) {
        TalkGoesDown(s, st);
      } else {
        DecidingGoesDown(s, st);
      }
      Moved(s.desk, st.t, Apply(s, st).desk.reserves[st.t]);
    }
  }

  lemma CancelSpends(s: State, st: Step)
    requires OwnInv(s) && Enabled(s, st) && CancelStep(st)
    ensures AllLeft(Apply(s, st).desk) < AllLeft(s.desk)
  {
    match st
    case SendCancel(id) => BgMoved(s.desk, id, AwaitingCancel);
    case HearCancel(id) => BgMoved(s.desk, id, Answered);
    case FailCancel(id) =>
      BgMoved(s.desk, id, Answered);
    case EndOrphan(id) => BgMoved(s.desk, id, BgReturning);
    case BgReturn(id) => BgGone(s.desk, id);
  }

  lemma OthersSpendNothing(s: State, st: Step)
    requires Enabled(s, st) && !CallStep(st) && s.desk.closed
    ensures Apply(s, st).desk.reserves == s.desk.reserves && Apply(s, st).desk.cancels == s.desk.cancels
  {
  }

  lemma StepSpends(s: State, st: Step)
    requires OwnInv(s) && Enabled(s, st) && s.desk.closed
    ensures AllLeft(Apply(s, st).desk) + (if CallStep(st) then 1 else 0) <= AllLeft(s.desk)
  {
    if CancelStep(st) {
      CancelSpends(s, st);
    } else if CallStep(st) {
      ReserveSpends(s, st);
    } else {
      OthersSpendNothing(s, st);
    }
  }

  lemma StaysRefusing(s: State, st: Step)
    requires Enabled(s, st) && s.desk.closed
    ensures Apply(s, st).desk.closed
  {
    if CallStep(st) {
      CallsStayRefused(s, st);
    }
  }

  lemma CallsStayRefused(s: State, st: Step)
    requires Enabled(s, st) && s.desk.closed && CallStep(st)
    ensures Apply(s, st).desk.closed
  {
  }

  // ----- over whole runs --------------------------------------------------------------------

  function CallSteps(ss: seq<Step>, k: nat, j: nat): nat
    requires k <= j <= |ss|
    decreases j
  {
    if j == k then 0 else CallSteps(ss, k, j - 1) + if CallStep(ss[j - 1]) then 1 else 0
  }

  lemma RunSpends(b: seq<State>, ss: seq<Step>, j: nat)
    requires Run(b, ss) && j < |ss| && b[j].desk.closed
    ensures b[j + 1].desk.closed
    ensures AllLeft(b[j + 1].desk) + (if CallStep(ss[j]) then 1 else 0) <= AllLeft(b[j].desk)
  {
    RunInv(b, ss, j);
    StepSpends(b[j], ss[j]);
    StaysRefusing(b[j], ss[j]);
  }

  lemma {:induction false} StaysClosing(b: seq<State>, ss: seq<Step>, k: nat, j: nat)
    requires Run(b, ss) && k <= j < |b| && b[k].desk.closed
    ensures b[j].desk.closed
    decreases j
  {
    if k < j {
      StaysClosing(b, ss, k, j - 1);
      RunSpends(b, ss, j - 1);
    }
  }

  /** A number that goes down by one at least with every call step bounds them. */
  lemma {:induction false} StepsAdd(left: seq<nat>, ss: seq<Step>, k: nat, j: nat)
    requires k <= j <= |ss| && |left| == |ss| + 1
    requires forall i :: k <= i < j ==> left[i + 1] + (if CallStep(ss[i]) then 1 else 0) <= left[i]
    ensures left[j] + CallSteps(ss, k, j) <= left[k]
    decreases j
  {
    if k < j {
      StepsAdd(left, ss, k, j - 1);
      assert left[j - 1 + 1] + (if CallStep(ss[j - 1]) then 1 else 0) <= left[j - 1];
    }
  }

  lemma StepsSpend(b: seq<State>, ss: seq<Step>, k: nat, j: nat)
    requires Run(b, ss) && k <= j < |b| && b[k].desk.closed
    ensures CallSteps(ss, k, j) <= AllLeft(b[k].desk)
  {
    ghost var left := seq(|b|, i requires 0 <= i < |b| => AllLeft(b[i].desk));
    forall i | k <= i < j
      ensures left[i + 1] + (if CallStep(ss[i]) then 1 else 0) <= left[i]
    {
      StaysClosing(b, ss, k, i);
      RunSpends(b, ss, i);
    }
    StepsAdd(left, ss, k, j);
  }

  lemma AllLeftAtMost(d: Desk)
    requires CounterInv(d)
    ensures AllLeft(d) <= 11 * d.inflight
  {
    TotalAtMost(d.reserves, Left, 11);
    TotalAtMost(d.cancels, LeftOf, 4);
  }

  /** Once Close has begun, the Reserve calls in flight and the background cancels,
      those yet to start included, take at most eleven steps for each unit of the
      counter, whatever the station, the connection and the timers do. */
  lemma CloseWaitsFinitely(b: seq<State>, ss: seq<Step>, k: nat, j: nat)
    requires Run(b, ss) && k <= j < |b| && b[k].desk.closed
    ensures CallSteps(ss, k, j) <= 11 * b[k].desk.inflight
  {
    StepsSpend(b, ss, k, j);
    RunInv(b, ss, k);
    AllLeftAtMost(b[k].desk);
  }

  /** The next step of a Reserve call that depends on nobody else: where it waits, it
      can time out. */
  function NextOf(t: nat, pc: Pc): Step {
    match pc
    case Entered => RefuseLocally(t)
    case Recording(_) => Write(t, false)
    case Unrecorded(_) => Forget(t)
    case Recorded(_) => FailReserve(t)
    case Awaiting(_) => FailReserve(t)
    case Accepted(_) => ActivateIt(t)
    case Refused(_) => EndRefused(t)
    case Failed(_) => OrphanIt(t)
    case Orphaned(_) => Spawn(t)
    case Saving => Saved(t)
    case Vanished => Return(t)
    case Returning => Return(t)
  }

  function NextOfBg(id: int, bg: Bg): Step {
    match bg
    case Asking => FailCancel(id)
    case AwaitingCancel => FailCancel(id)
    case Answered => EndOrphan(id)
    case BgReturning => BgReturn(id)
  }

  lemma NextIsEnabled(s: State, t: nat)
    requires OwnInv(s) && t in s.desk.reserves
    ensures var next := NextOf(t, s.desk.reserves[t]); CallStep(next) && Enabled(s, next)
  {
  }

  lemma NextOfBgIsEnabled(s: State, id: int)
    requires id in s.desk.cancels
    ensures var next := NextOfBg(id, s.desk.cancels[id]); CallStep(next) && Enabled(s, next)
  {
  }

  /** And as long as the counter is not zero one of them can go on, so that Close
      does return. */
  lemma SomebodyCanGoOn(b: seq<State>, ss: seq<Step>, k: nat) returns (next: Step)
    requires Run(b, ss) && k < |b| && b[k].desk.inflight != 0
    ensures CallStep(next) && Enabled(b[k], next)
  {
    RunInv(b, ss, k);
    var d := b[k].desk;
    NoneMeansEmpty(d.reserves);
    NoneMeansEmpty(d.cancels);
    if d.reserves != map[] {
      var t := SomeKey(d.reserves);
      next := NextOf(t, d.reserves[t]);
      NextIsEnabled(b[k], t);
    } else {
      var id := SomeKey(d.cancels);
      next := NextOfBg(id, d.cancels[id]);
      NextOfBgIsEnabled(b[k], id);
    }
  }

  lemma ZeroMeansNobody(d: Desk)
    requires CounterInv(d)
    ensures d.inflight == 0 <==> d.reserves == map[] && d.cancels == map[]
  {
    NoneMeansEmpty(d.reserves);
    NoneMeansEmpty(d.cancels);
  }

  /** When the counter has come to zero after Close has begun, Close can return. */
  lemma CloseCanReturn(b: seq<State>, ss: seq<Step>, k: nat)
    requires Run(b, ss) && k < |b| && b[k].desk.closed
    ensures b[k].desk.inflight == 0 <==> Enabled(b[k], CloseReturns)
    ensures b[k].desk.inflight == 0 <==> b[k].desk.reserves == map[] && b[k].desk.cancels == map[]
  {
    RunInv(b, ss, k);
    ZeroMeansNobody(b[k].desk);
  }
}
