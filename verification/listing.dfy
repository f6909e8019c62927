/** Lists put in order by an integer key, as persistableLocked does with
    sort.Slice, and the lists that must come out. */
module Listing {
  import opened Common
  import opened Core
  import opened Durable
  import Contents

  function InsertBy<T(!new)>(s: seq<T>, x: T, key: T -> int): seq<T> {
    if s == [] || key(s[|s| - 1]) <= key(x) then s + [x]
    else InsertBy(s[..|s| - 1], x, key) + [s[|s| - 1]]
  }

  function SortBy<T(!new)>(s: seq<T>, key: T -> int): seq<T> {
    if s == [] then [] else InsertBy(SortBy(s[..|s| - 1], key), s[|s| - 1], key)
  }

  ghost predicate UpBy<T(!new)>(s: seq<T>, key: T -> int) {
    forall i, j :: 0 <= i < j < |s| ==> key(s[i]) < key(s[j])
  }

  ghost predicate ApartBy<T(!new)>(s: seq<T>, key: T -> int) {
    forall i, j :: 0 <= i < j < |s| ==> key(s[i]) != key(s[j])
  }

  lemma {:induction false} InsertMembers<T(!new)>(s: seq<T>, x: T, key: T -> int)
    ensures forall y :: y in InsertBy(s, x, key) <==> y == x || y in s
  {
    if s != [] && key(s[|s| - 1]) > key(x) {
      var init, last := s[..|s| - 1], s[|s| - 1];
      InsertMembers(init, x, key);
      assert forall y :: y in s <==> y in init || y == last;
    }
  }

  lemma {:induction false} InsertUp<T(!new)>(s: seq<T>, x: T, key: T -> int)
    requires UpBy(s, key) && forall y :: y in s ==> key(y) != key(x)
    ensures UpBy(InsertBy(s, x, key), key)
  {
    if s != [] && key(s[|s| - 1]) > key(x) {
      var init, last := s[..|s| - 1], s[|s| - 1];
      InsertUp(init, x, key);
      InsertMembers(init, x, key);
      var q := InsertBy(init, x, key);
      forall i | 0 <= i < |q|
        ensures key(q[i]) < key(last)
      {
        assert q[i] in q;
        if q[i] != x {
          assert q[i] in init;
          var k :| 0 <= k < |init| && init[k] == q[i];
          assert key(s[k]) < key(last);
        }
      }
    }
  }

  /** Sorting elements with different keys gives them in increasing order. */
  lemma {:induction false} SortUp<T(!new)>(s: seq<T>, key: T -> int)
    requires ApartBy(s, key)
    ensures UpBy(SortBy(s, key), key)
    ensures forall y :: y in SortBy(s, key) <==> y in s
  {
    if s != [] {
      var init, last := s[..|s| - 1], s[|s| - 1];
      SortUp(init, key);
      forall y | y in SortBy(init, key)
        ensures key(y) != key(last)
      {
        assert y in init;
        var k :| 0 <= k < |init| && init[k] == y;
        assert key(s[k]) != key(s[|s| - 1]);
      }
      InsertUp(SortBy(init, key), last, key);
      InsertMembers(SortBy(init, key), last, key);
      assert forall y :: y in s <==> y in init || y == last;
    }
  }

  // ----- reservations -------------------------------------------------------------

  function IdOf(r: Contents.Reservation): int {
    r.id
  }

  /** The stored forms of the active reservations, in any order. */
  ghost predicate ListsActive(s: seq<Contents.Reservation>, rs: map<int, Entry>) {
    && ApartBy(s, IdOf)
    && forall r :: r in s <==> r.id in rs && rs[r.id].res.status == Active && r == Stored(rs[r.id].res)
  }

  lemma ActiveInOrder(s: seq<Contents.Reservation>, rs: map<int, Entry>)
    requires ListsActive(s, rs)
    requires forall id :: id in rs ==> rs[id].res.id == id
    ensures SortBy(s, IdOf) == Ascending(ActiveStored(rs))
  {
    SortUp(s, IdOf);
    var q, m := SortBy(s, IdOf), ActiveStored(rs);
    forall i | 0 <= i < |q|
      ensures q[i].id in m && m[q[i].id] == q[i]
    {
      assert q[i] in s;
    }
    forall id | id in m
      ensures exists k :: 0 <= k < |q| && q[k].id == id
    {
      assert m[id] in q;
      var k :| 0 <= k < |q| && q[k] == m[id];
    }
    assert forall i, j :: 0 <= i < j < |q| ==> IdOf(q[i]) < IdOf(q[j]);
    AscendingById(m, q);
  }

  // ----- transactions -------------------------------------------------------------

  /** A running transaction with its charge point, as the map cpOf remembers it. */
  datatype Session = Session(cp: string, tx: Transaction)

  function SeqOf(s: Session): int {
    s.tx.seqNo
  }

  /** The running transactions, in any order. */
  ghost predicate ListsRunning(s: seq<Session>, txs: Transactions) {
    && ApartBy(s, SeqOf)
    && forall x :: x in s <==> Running(txs, x.cp, x.tx.id) && x.tx == txs[x.cp][x.tx.id]
  }

  function StoredSessions(s: seq<Session>): (q: seq<Contents.Transaction>)
    ensures |q| == |s|
    ensures forall i :: 0 <= i < |s| ==> q[i] == StoredTx(s[i].cp, s[i].tx)
  {
    seq(|s|, i requires 0 <= i < |s| => StoredTx(s[i].cp, s[i].tx))
  }

  lemma Numbered(q: seq<Session>, txs: Transactions, txSeq: nat, n: int) returns (k: nat)
    requires TxsOk(txs, txSeq) && n in RunningSeqs(txs)
    requires forall x :: x in q <==> Running(txs, x.cp, x.tx.id) && x.tx == txs[x.cp][x.tx.id]
    ensures k < |q| && SeqOf(q[k]) == n
  {
    SomeRunsAs(txs, n);
    var cp, id :| RunsAs(txs, n, cp, id);
    assert HasTx(txs, cp, id);
    var x := Session(cp, txs[cp][id]);
    assert x in q;
    k :| 0 <= k < |q| && q[k] == x;
  }

  lemma RunningInOrder(s: seq<Session>, txs: Transactions, txSeq: nat)
    requires ListsRunning(s, txs) && TxsOk(txs, txSeq)
    ensures StoredSessions(SortBy(s, SeqOf)) == Ascending(RunningBySeq(txs))
  {
    SortUp(s, SeqOf);
    var q, m := SortBy(s, SeqOf), RunningBySeq(txs);
    var keys := seq(|q|, i requires 0 <= i < |q| => SeqOf(q[i]));
    forall i | 0 <= i < |q|
      ensures keys[i] in m && m[keys[i]] == StoredSessions(q)[i]
    {
      assert q[i] in s;
      RunningIs(txs, txSeq, q[i].cp, q[i].tx.id);
    }
    forall n
      ensures n in keys <==> n in m.Keys
    {
      if n in RunningSeqs(txs) {
        var k := Numbered(q, txs, txSeq, n);
        assert keys[k] == n;
      }
    }
    assert forall i, j :: 0 <= i < j < |q| ==> SeqOf(q[i]) < SeqOf(q[j]);
    SortedUnique(Sorted(m.Keys), keys);
    AscendingIs(m, keys, StoredSessions(q));
  }
}
