/** Vocabulary shared by every module: optional values, results, instants,
    case-folded tags, decimal ids and ascending enumerations of finite maps. */
module Common {

  datatype Option<+T> = None | Some(value: T)

  datatype Result<+T, +E> = Ok(value: T) | Err(error: E)

  /** An instant, together with whether it is held in UTC. Comparisons look at
      the instant only. */
  datatype Stamp = Stamp(at: int, utc: bool)

  function Utc(t: Stamp): Stamp {
    t.(utc := true)
  }

  function Max(a: int, b: int): int {
    if a < b then b else a
  }

  // ----- RFID tags -------------------------------------------------------

  function FoldChar(c: char): char {
    if 'A' <= c <= 'Z' then (c as int + 32) as char else c
  }

  /** Tags compare without regard to (ASCII) letter case. */
  predicate EqualFold(a: string, b: string) {
    |a| == |b| && forall k :: 0 <= k < |a| ==> FoldChar(a[k]) == FoldChar(b[k])
  }

  /** Two characters are alike if they are the same or the two cases of one letter. */
  predicate Alike(a: char, b: char) {
    || a == b
    || ('A' <= a <= 'Z' && b as int == a as int + 32)
    || ('A' <= b <= 'Z' && a as int == b as int + 32)
  }

  lemma EqualFoldIs(a: string, b: string)
    ensures EqualFold(a, b) <==> |a| == |b| && forall k :: 0 <= k < |a| ==> Alike(a[k], b[k])
  {
    if |a| == |b| && !EqualFold(a, b) {
      var k :| 0 <= k < |a| && FoldChar(a[k]) != FoldChar(b[k]);
      assert !Alike(a[k], b[k]);
    }
  }

  // ----- decimal ids -----------------------------------------------------

  predicate IsDigit(c: char) {
    '0' <= c <= '9'
  }

  function DigitChar(d: nat): char
    requires d < 10
  {
    ('0' as int + d) as char
  }

  /** The decimal form of an id, as strconv.Itoa and FormatUint write it. */
  function Itoa(n: nat): string {
    if n < 10 then [DigitChar(n)] else Itoa(n / 10) + [DigitChar(n % 10)]
  }

  function DigitsValue(s: string): Option<nat> {
    if |s| == 0 || !IsDigit(s[|s| - 1]) then None
    else
      var d := s[|s| - 1] as int - '0' as int;
      if |s| == 1 then Some(d)
      else
        match DigitsValue(s[..|s| - 1])
        case None => None
        case Some(v) => Some(10 * v + d)
  }

  /** strconv.Atoi: an optional sign followed by decimal digits. */
  function Atoi(s: string): Option<int> {
    if |s| > 0 && (s[0] == '-' || s[0] == '+') then
      match DigitsValue(s[1..])
      case None => None
      case Some(v) =>
        var n: int := v;
        Some(if s[0] == '-' then -n else n)
    else
      match DigitsValue(s)
      case None => None
      case Some(v) => Some(v)
  }

  lemma {:induction false} DigitsOfItoa(n: nat)
    ensures |Itoa(n)| > 0
    ensures IsDigit(Itoa(n)[0])
    ensures DigitsValue(Itoa(n)) == Some(n)
  {
    if n >= 10 {
      DigitsOfItoa(n / 10);
      var s := Itoa(n);
      assert s[..|s| - 1] == Itoa(n / 10);
    }
  }

  /** An id written in decimal reads back as itself. */
  lemma AtoiOfItoa(n: nat)
    ensures Atoi(Itoa(n)) == Some(n)
  {
    DigitsOfItoa(n);
  }

  lemma AtoiOfNegative(n: nat)
    ensures Atoi("-" + Itoa(n)) == Some(-(n as int))
  {
    var s, digits := "-" + Itoa(n), Itoa(n);
    DigitsOfItoa(n);
    assert s[0] == '-' && s[1..] == digits;
  }

  /** The digits are the usual ones, most significant first. */
  lemma DecimalExamples()
    ensures Itoa(0) == "0" && Itoa(7) == "7" && Itoa(10) == "10" && Itoa(209) == "209"
    ensures Atoi("-12") == Some(-12) && Atoi("+12") == Some(12) && Atoi("012") == Some(12)
    ensures Atoi("") == None && Atoi("-") == None && Atoi("1a") == None && Atoi("tx") == None
  {
    assert Itoa(20) == "20" && Itoa(209) == "209";
    assert "12"[..1] == "1" && "012"[..2] == "01" && "01"[..1] == "0";
    assert "-12"[1..] == "12" && "+12"[1..] == "12" && "-"[1..] == "";
    assert DigitsValue("1") == Some(1) && DigitsValue("12") == Some(12);
    assert DigitsValue("0") == Some(0) && DigitsValue("01") == Some(1) && DigitsValue("012") == Some(12);
  }

  /** So two different counters never share a message or transaction id. */
  lemma ItoaInjective(m: nat, n: nat)
    requires Itoa(m) == Itoa(n)
    ensures m == n
  {
    DigitsOfItoa(m);
    DigitsOfItoa(n);
  }

  // ----- sequences -------------------------------------------------------

  ghost predicate Distinct<T>(s: seq<T>) {
    forall i, j :: 0 <= i < j < |s| ==> s[i] != s[j]
  }

  function Members<T>(s: seq<T>): set<T> {
    set x | x in s
  }

  lemma AllButFirst<T>(s: seq<T>, k: nat)
    requires Distinct(s) && k < |s|
    ensures s[k] in Members(s[k..])
    ensures Members(s[k + 1..]) == Members(s[k..]) - {s[k]}
  {
    assert s[k..] == [s[k]] + s[k + 1..];
    assert s[k] !in s[k + 1..];
  }

  ghost predicate Increasing(s: seq<int>) {
    forall i, j :: 0 <= i < j < |s| ==> s[i] < s[j]
  }

  // ----- ascending enumeration of a finite set of integers ----------------

  lemma {:induction false} LeastExists(s: set<int>)
    requires s != {}
    ensures exists m :: m in s && forall x :: x in s ==> m <= x
  {
    assert (forall y :: y !in s) ==> s == {};
    var y :| y in s;
    var rest := s - {y};
    assert forall x :: x in s ==> x == y || x in rest;
    if rest != {} {
      LeastExists(rest);
      var m :| m in rest && forall x :: x in rest ==> m <= x;
      var k := if y < m then y else m;
      assert k in s;
    }
  }

  ghost function Least(s: set<int>): (m: int)
    requires s != {}
    ensures m in s && forall x :: x in s ==> m <= x
  {
    LeastExists(s);
    var m :| m in s && forall x :: x in s ==> m <= x;
    m
  }

  /** The members of a set in ascending order. */
  ghost function Sorted(s: set<int>): (q: seq<int>)
    ensures Increasing(q)
    ensures forall x :: x in q <==> x in s
  {
    if s == {} then []
    else
      var m := Least(s);
      [m] + Sorted(s - {m})
  }

  lemma HasFirst<T>(q: seq<T>)
    requires q != []
    ensures exists x :: x in q
  {
    assert q[0] in q;
  }

  lemma {:induction false} SortedSize(s: set<int>)
    ensures |Sorted(s)| == |s|
  {
    if s != {} {
      SortedSize(s - {Least(s)});
    }
  }

  /** An increasing sequence is determined by its members, so any way of sorting
      gives the same list. */
  lemma {:induction false} SortedUnique(q: seq<int>, r: seq<int>)
    requires Increasing(q) && Increasing(r)
    requires forall x :: x in q <==> x in r
    ensures q == r
  {
    if |q| == 0 {
      if r != [] {
        HasFirst(r);
        assert false;
      }
    } else {
      assert q[0] in r && r != [];
      assert r[0] in q;
      assert q[0] == r[0];
      forall x
        ensures x in q[1..] <==> x in r[1..]
      {
        assert x in q <==> x in r;
        assert x in q <==> x == q[0] || x in q[1..];
        assert x in r <==> x == r[0] || x in r[1..];
      }
      SortedUnique(q[1..], r[1..]);
      assert q == [q[0]] + q[1..] && r == [r[0]] + r[1..];
    }
  }

  /** The values of a finite map in ascending order of their keys. */
  ghost function Ascending<T>(m: map<int, T>): (q: seq<T>)
    ensures |q| == |Sorted(m.Keys)|
    ensures forall i :: 0 <= i < |q| ==> Sorted(m.Keys)[i] in m && q[i] == m[Sorted(m.Keys)[i]]
  {
    var ks := Sorted(m.Keys);
    assert forall i :: 0 <= i < |ks| ==> ks[i] in m.Keys;
    seq(|ks|, i requires 0 <= i < |ks| => m[ks[i]])
  }

  lemma AscendingIs<T>(m: map<int, T>, keys: seq<int>, values: seq<T>)
    requires Sorted(m.Keys) == keys && |values| == |keys|
    requires forall i :: 0 <= i < |keys| ==> keys[i] in m && m[keys[i]] == values[i]
    ensures Ascending(m) == values
  {
  }

  /** 1, 2, ..., n. */
  function CountUp(n: nat): (q: seq<int>)
    ensures |q| == n && forall i :: 0 <= i < n ==> q[i] == i + 1
  {
    seq(n, i => i + 1)
  }

  /** The numbers from lo up to but not including hi. */
  function Range(lo: nat, hi: nat): (r: set<nat>)
    ensures forall i :: i in r <==> lo <= i < hi
    decreases hi
  {
    if lo >= hi then {} else Range(lo, hi - 1) + {hi - 1}
  }

  // ----- maps ------------------------------------------------------------

  lemma RemoveOne<K, V>(m: map<K, V>, k: K)
    requires k in m
    ensures |m - {k}| == |m| - 1
  {
    assert (m - {k}).Keys == m.Keys - {k};
    assert |(m - {k}).Keys| == |m - {k}|;
    assert |m.Keys| == |m|;
  }
}
