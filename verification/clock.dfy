/** The manually advanced clock (internal/clocktest/clock.go). Callbacks are data:
    Advance returns the ones to run, in order, and its caller runs them. */
module ManualClock {
  import opened Common

  /** A pending call. fired counts how often an Advance has handed it out to be run;
      cancelled says that a Stop has returned true. */
  class Timer<F> {
    const at: int
    const fn: F
    var stopped: bool
    ghost var fired: nat
    ghost var cancelled: bool

    ghost predicate Valid()
      reads this
    {
      && (stopped <==> fired == 1 || cancelled)
      && fired <= 1
      && !(fired == 1 && cancelled)
    }

    constructor (at: int, fn: F)
      ensures Valid() && this.at == at && this.fn == fn
      ensures !stopped && fired == 0 && !cancelled
    {
      this.at, this.fn := at, fn;
      stopped, fired, cancelled := false, 0, false;
    }

    /** False means that the timer had already fired or been stopped. */
    method Stop() returns (did: bool)
      requires Valid()
      modifies this`stopped, this`cancelled
      ensures Valid() && stopped
      ensures did == !old(stopped)
      ensures cancelled == (old(cancelled) || did)
    {
      if stopped {
        return false;
      }
      stopped, cancelled := true, true;
      return true;
    }
  }

  // ----- sorting by deadline --------------------------------------------------

  function Insert<F>(s: seq<Timer<F>>, t: Timer<F>): seq<Timer<F>> {
    if s == [] || s[|s| - 1].at <= t.at then s + [t]
    else Insert(s[..|s| - 1], t) + [s[|s| - 1]]
  }

  /** What sort.SliceStable makes of a list of timers. */
  function ByDeadline<F>(s: seq<Timer<F>>): seq<Timer<F>> {
    if s == [] then [] else Insert(ByDeadline(s[..|s| - 1]), s[|s| - 1])
  }

  ghost predicate Ordered<F>(s: seq<Timer<F>>) {
    forall i, j :: 0 <= i < j < |s| ==> s[i].at <= s[j].at
  }

  /** The timers with one deadline, in the order of the list. */
  function For<F>(s: seq<Timer<F>>, at: int): seq<Timer<F>> {
    if s == [] then []
    else For(s[..|s| - 1], at) + if s[|s| - 1].at == at then [s[|s| - 1]] else []
  }

  lemma ForAppend<F>(s: seq<Timer<F>>, t: Timer<F>, at: int)
    ensures For(s + [t], at) == For(s, at) + if t.at == at then [t] else []
  {
    assert (s + [t])[..|s|] == s;
  }

  lemma {:induction false} InsertAdds<F>(s: seq<Timer<F>>, t: Timer<F>)
    ensures multiset(Insert(s, t)) == multiset(s) + multiset{t}
  {
    if s != [] && s[|s| - 1].at > t.at {
      InsertAdds(s[..|s| - 1], t);
      assert s == s[..|s| - 1] + [s[|s| - 1]];
    }
  }

  lemma {:induction false} InsertOrders<F>(s: seq<Timer<F>>, t: Timer<F>, most: int)
    requires Ordered(s) && t.at <= most && forall i :: 0 <= i < |s| ==> s[i].at <= most
    ensures Ordered(Insert(s, t))
    ensures forall i :: 0 <= i < |Insert(s, t)| ==> Insert(s, t)[i].at <= most
  {
    if s != [] && s[|s| - 1].at > t.at {
      InsertOrders(s[..|s| - 1], t, s[|s| - 1].at);
    }
  }

  lemma {:induction false} InsertKeepsOrder<F>(s: seq<Timer<F>>, t: Timer<F>, at: int)
    ensures For(Insert(s, t), at) == For(s, at) + if t.at == at then [t] else []
  {
    if s == [] || s[|s| - 1].at <= t.at {
      ForAppend(s, t, at);
    } else {
      var init, last := s[..|s| - 1], s[|s| - 1];
      InsertKeepsOrder(init, t, at);
      ForAppend(Insert(init, t), last, at);
    }
  }

  lemma {:induction false} DeadlineOrdered<F>(s: seq<Timer<F>>)
    ensures Ordered(ByDeadline(s))
  {
    if s != [] {
      DeadlineOrdered(s[..|s| - 1]);
      var q, last := ByDeadline(s[..|s| - 1]), s[|s| - 1];
      InsertOrders(q, last, if q == [] then last.at else Max(q[|q| - 1].at, last.at));
    }
  }

  lemma {:induction false} DeadlinePermutes<F>(s: seq<Timer<F>>)
    ensures multiset(ByDeadline(s)) == multiset(s)
  {
    if s != [] {
      var init, last := s[..|s| - 1], s[|s| - 1];
      DeadlinePermutes(init);
      InsertAdds(ByDeadline(init), last);
      assert s == init + [last];
    }
  }

  lemma {:induction false} DeadlineStable<F>(s: seq<Timer<F>>, at: int)
    ensures For(ByDeadline(s), at) == For(s, at)
  {
    if s != [] {
      DeadlineStable(s[..|s| - 1], at);
      InsertKeepsOrder(ByDeadline(s[..|s| - 1]), s[|s| - 1], at);
    }
  }

  /** Firing order: by deadline, and first come first served among equal deadlines;
      no other order is both. */
  lemma DeadlineOrder<F>(s: seq<Timer<F>>, q: seq<Timer<F>>)
    ensures q == ByDeadline(s) <==> Ordered(q) && SameFor(q, s)
  {
    var p := ByDeadline(s);
    DeadlineOrdered(s);
    forall at
      ensures For(p, at) == For(s, at)
    {
      DeadlineStable(s, at);
    }
    if Ordered(q) && SameFor(q, s) {
      assert SameFor(p, q);
      SameOrder(p, q);
    }
  }

  ghost predicate SameFor<F>(p: seq<Timer<F>>, q: seq<Timer<F>>) {
    forall at :: For(p, at) == For(q, at)
  }

  lemma {:induction false} SameOrder<F>(p: seq<Timer<F>>, q: seq<Timer<F>>)
    requires Ordered(p) && Ordered(q) && SameFor(p, q)
    ensures p == q
  {
    if p == [] || q == [] {
      BothEmpty(p, q);
    } else {
      SameLast(p, q);
      var p', q' := p[..|p| - 1], q[..|q| - 1];
      forall at
        ensures For(p', at) == For(q', at)
      {
        AllButLast(p, at);
        AllButLast(q, at);
        assert For(p, at) == For(q, at);
      }
      assert SameFor(p', q');
      SameOrder(p', q');
      assert p == p' + [p[|p| - 1]];
      assert q == q' + [q[|q| - 1]];
    }
  }

  lemma BothEmpty<F>(p: seq<Timer<F>>, q: seq<Timer<F>>)
    requires (p == [] || q == []) && SameFor(p, q)
    ensures p == q
  {
    if p != [] {
      LastOf(p);
      assert false;
    }
    if q != [] {
      LastOf(q);
      assert false;
    }
  }

  lemma SameLast<F>(p: seq<Timer<F>>, q: seq<Timer<F>>)
    requires p != [] && q != [] && Ordered(p) && Ordered(q) && SameFor(p, q)
    ensures p[|p| - 1] == q[|q| - 1]
  {
    var d, e := p[|p| - 1].at, q[|q| - 1].at;
    assert For(p, d) == For(q, d) && For(p, e) == For(q, e);
    LastOf(p);
    LastOf(q);
    NoneLater(p, e);
    NoneLater(q, d);
  }

  lemma LastOf<F>(s: seq<Timer<F>>)
    requires s != []
    ensures var t := s[|s| - 1];
            For(s, t.at) != [] && For(s, t.at)[|For(s, t.at)| - 1] == t
  {
  }

  lemma {:induction false} NoneLater<F>(s: seq<Timer<F>>, at: int)
    requires s != [] && Ordered(s) && For(s, at) != []
    ensures at <= s[|s| - 1].at
  {
    if s[|s| - 1].at != at {
      NoneLater(s[..|s| - 1], at);
    }
  }

  lemma AllButLast<F>(s: seq<Timer<F>>, at: int)
    requires s != []
    ensures For(s[..|s| - 1], at) ==
            if s[|s| - 1].at == at then For(s, at)[..|For(s, at)| - 1] else For(s, at)
  {
  }

  lemma SameMembers<T>(p: seq<T>, q: seq<T>)
    requires multiset(p) == multiset(q)
    ensures forall x :: x in p <==> x in q
    ensures Distinct(p) <==> Distinct(q)
  {
    DistinctCounts(p);
    DistinctCounts(q);
    forall x
      ensures x in p <==> x in q
    {
      assert x in p <==> x in multiset(p);
      assert x in q <==> x in multiset(q);
    }
  }

  // ----- the clock ------------------------------------------------------------

  /** The timers of a list that have come due, among those not stopped. */
  ghost function DueBy<F>(ts: seq<Timer<F>>, live: set<Timer<F>>, now: int): (due: seq<Timer<F>>)
    ensures forall t :: t in due ==> t in ts && t in live && t.at <= now
    ensures forall t :: t in ts && t in live && t.at <= now ==> t in due
  {
    if ts == [] then []
    else
      var t := ts[|ts| - 1];
      DueBy(ts[..|ts| - 1], live, now) + if t in live && t.at <= now then [t] else []
  }

  /** The timers of a list that are still to come. */
  ghost function After<F>(ts: seq<Timer<F>>, live: set<Timer<F>>, now: int): (pending: seq<Timer<F>>)
    ensures forall t :: t in pending ==> t in ts && t in live && t.at > now
    ensures forall t :: t in ts && t in live && t.at > now ==> t in pending
  {
    if ts == [] then []
    else
      var t := ts[|ts| - 1];
      After(ts[..|ts| - 1], live, now) + if t in live && t.at > now then [t] else []
  }

  lemma {:induction false} DistinctCounts<T>(s: seq<T>)
    ensures Distinct(s) <==> forall x :: multiset(s)[x] <= 1
  {
    if s != [] {
      var init, last := s[..|s| - 1], s[|s| - 1];
      DistinctCounts(init);
      assert s == init + [last];
      assert multiset(s) == multiset(init) + multiset{last};
      if Distinct(s) {
        assert last !in init;
        forall x
          ensures multiset(s)[x] <= 1
        {
        }
      }
      if forall x :: multiset(s)[x] <= 1 {
        forall x
          ensures multiset(init)[x] <= 1
        {
          assert multiset(s)[x] <= 1;
        }
        assert multiset(s)[last] <= 1;
        assert last !in multiset(init);
      }
    }
  }

  /** sort.SliceStable. */
  method SliceStable<F>(s: seq<Timer<F>>) returns (q: seq<Timer<F>>)
    ensures q == ByDeadline(s)
    ensures Ordered(q)
    ensures forall t :: t in q <==> t in s
    ensures Distinct(s) ==> Distinct(q)
  {
    q := ByDeadline(s);
    DeadlineOrdered(s);
    DeadlinePermutes(s);
    SameMembers(q, s);
  }

  class Clock<F> {
    var now: int
    var timers: seq<Timer<F>>
    /** Every timer scheduled so far. */
    ghost var all: set<Timer<F>>

    ghost predicate Valid()
      reads this, all
    {
      && Distinct(timers)
      && (forall t :: t in timers ==> t in all)
      && (forall t :: t in all ==> t.Valid() && (!t.stopped ==> t in timers))
    }

    constructor (start: int)
      ensures Valid() && now == start && timers == [] && all == {}
    {
      now, timers, all := start, [], {};
    }

    method AfterFunc(d: int, fn: F) returns (t: Timer<F>)
      requires Valid()
      modifies this`timers, this`all
      ensures Valid() && fresh(t)
      ensures t.at == now + d && t.fn == fn && !t.stopped && t.fired == 0
      ensures timers == old(timers) + [t] && all == old(all) + {t}
    {
      t := new Timer(now + d, fn);
      timers := timers + [t];
      all := all + {t};
    }

    /** The timers that may still fire. */
    ghost function Live(): set<Timer<F>>
      reads this`all, all`stopped
    {
      set t | t in all && !t.stopped
    }

    /** Moves the clock and returns the timers to run, in order. Whatever is due
        and was not stopped is returned, marked as stopped, and never again. */
    method Advance(d: int) returns (due: seq<Timer<F>>)
      requires Valid()
      modifies this`now, this`timers, all`stopped, all`fired
      ensures Valid() && now == old(now) + d
      ensures due == ByDeadline(DueBy(old(timers), old(Live()), now))
      ensures timers == After(old(timers), old(Live()), now)
      ensures Distinct(due) && Ordered(due)
      ensures forall t :: t in due <==> t in old(Live()) && t.at <= now
      ensures forall t :: t in all ==> t.stopped == (old(t.stopped) || t.at <= now)
      ensures forall t :: t in all ==> t.fired == old(t.fired) + if t in due then 1 else 0
    {
      now := now + d;
      var found, pending := Collect();
      timers := pending;
      due := SliceStable(found);
    }

    /** The loop of Advance. */
    method Collect() returns (due: seq<Timer<F>>, pending: seq<Timer<F>>)
      requires Valid()
      modifies all`stopped, all`fired
      ensures due == DueBy(timers, old(Live()), now) && pending == After(timers, old(Live()), now)
      ensures Distinct(due) && Distinct(pending)
      ensures forall t :: t in all ==> t.Valid()
      ensures forall t :: t in all ==> t.stopped == (old(t.stopped) || t.at <= now)
      ensures forall t :: t in all ==> t.fired == old(t.fired) + if t in due then 1 else 0
    {
      due, pending := [], [];
      ghost var live := Live();
      var k := 0;
      while k < |timers|
        invariant 0 <= k <= |timers|
        invariant due == DueBy(timers[..k], live, now) && pending == After(timers[..k], live, now)
        invariant Distinct(due) && Distinct(pending)
        invariant forall t :: t in all ==> t.stopped == (old(t.stopped) || t in due)
        invariant forall t :: t in all ==> t.fired == old(t.fired) + if t in due then 1 else 0
      {
        var t := timers[k];
        assert timers[..k + 1][..k] == timers[..k];
        assert t !in timers[..k];
        if t.stopped {
        } else if t.at <= now {
          t.stopped := true;
          t.fired := t.fired + 1;
          due := due + [t];
        } else {
          pending := pending + [t];
        }
        k := k + 1;
      }
      assert timers[..k] == timers;
    }

    /** How many timers are scheduled and neither fired nor stopped. */
    method Pending() returns (n: nat)
      requires Valid()
      ensures n == |Live()|
    {
      n := 0;
      ghost var counted: set<Timer<F>> := {};
      var k := 0;
      while k < |timers|
        invariant 0 <= k <= |timers|
        invariant forall t :: t in counted <==> t in timers[..k] && !t.stopped
        invariant n == |counted|
      {
        var t := timers[k];
        assert t !in timers[..k];
        if !t.stopped {
          n := n + 1;
          counted := counted + {t};
        }
        k := k + 1;
      }
      assert counted == Live();
    }
  }
}
