/** The advisory lock beside the state file (internal/state/lock_unix.go), as a
    machine whose steps are the system calls of any number of competing claims.
    A claim is one LockPath call together with the Lock it returns: the kernel
    ties a flock to the open file description, so two claims compete whether or
    not they belong to the same process. */
module LockFile {
  import opened Common

  /** A file, for as long as some descriptor is open on it or a name leads to it.
      os.SameFile compares these. */
  type Inode = nat

  datatype Claim =
    | Trying              // at the top of the retry loop
    | Opened(ino: Inode)
    | Flocked(ino: Inode)
    | Stale(ino: Inode)   // the comparison failed: about to close and retry
    | Denied(ino: Inode)  // flock failed: about to close and give up
    | Held(ino: Inode)    // LockPath has returned the Lock
    | Leaving(ino: Inode) // Release has removed the name and will close
    | ErrLocked           // LockPath has returned an error
    | Gone                // released, or the process died

  /** path is what "<state>.lock" names; flocks says which claim's descriptor
      holds the exclusive flock of an inode. */
  datatype State = State(
    path: Option<Inode>,
    nextIno: Inode,
    flocks: map<Inode, nat>,
    claims: map<nat, Claim>)

  datatype Step =
    | Arrive(p: nat)             // LockPath is called
    | Open(p: nat)               // open with O_CREATE
    | Flock(p: nat)              // flock with LOCK_EX | LOCK_NB
    | Compare(p: nat, ok: bool)  // stat both; ok is false when a stat call fails
    | Close(p: nat)
    | Unlink(p: nat, ok: bool)   // Release begins; ok is false when remove fails
    | Die(p: nat)                // the kernel closes the descriptor

  predicate HasDescriptor(c: Claim) {
    c.Opened? || c.Flocked? || c.Stale? || c.Denied? || c.Held? || c.Leaving?
  }

  predicate Enabled(s: State, st: Step) {
    match st
    case Arrive(p) => p !in s.claims
    case Open(p) => p in s.claims && s.claims[p] == Trying
    case Flock(p) => p in s.claims && s.claims[p].Opened?
    case Compare(p, _) => p in s.claims && s.claims[p].Flocked?
    case Close(p) => p in s.claims && (s.claims[p].Stale? || s.claims[p].Denied? || s.claims[p].Leaving?)
    case Unlink(p, _) => p in s.claims && s.claims[p].Held?
    case Die(p) => p in s.claims
  }

  /** Closing a descriptor drops the flock it holds, if it holds it. */
  function Unlocked(s: State, p: nat): map<Inode, nat> {
    map i | i in s.flocks && s.flocks[i] != p :: s.flocks[i]
  }

  function Apply(s: State, st: Step): State
    requires Enabled(s, st)
  {
    match st
    case Arrive(p) => s.(claims := s.claims[p := Trying])
    case Open(p) =>
      (match s.path
       case Some(i) => s.(claims := s.claims[p := Opened(i)])
       case None =>
         s.(path := Some(s.nextIno), nextIno := s.nextIno + 1, claims := s.claims[p := Opened(s.nextIno)]))
    case Flock(p) =>
      var i := s.claims[p].ino;
      if i in s.flocks then s.(claims := s.claims[p := Denied(i)])
      else s.(flocks := s.flocks[i := p], claims := s.claims[p := Flocked(i)])
    case Compare(p, ok) =>
      var i := s.claims[p].ino;
      s.(claims := s.claims[p := if ok && s.path == Some(i) then Held(i) else Stale(i)])
    case Close(p) =>
      s.(flocks := Unlocked(s, p),
         claims := s.claims[p := match s.claims[p]
                                 case Stale(_) => Trying
                                 case Denied(_) => ErrLocked
                                 case _ => Gone])
    case Unlink(p, ok) =>
      s.(path := if ok then None else s.path, claims := s.claims[p := Leaving(s.claims[p].ino)])
    case Die(p) => s.(flocks := Unlocked(s, p), claims := s.claims[p := Gone])
  }

  /** Any lock file an earlier run left behind may be there at the start. */
  ghost predicate Init(s: State) {
    s.claims == map[] && s.flocks == map[] && (s.path.Some? ==> s.path.value < s.nextIno)
  }

  /** b lists the states of a run and ss the steps between them. */
  ghost predicate Run(b: seq<State>, ss: seq<Step>) {
    |b| == |ss| + 1 && Init(b[0]) &&
    forall k :: 0 <= k < |ss| ==> Enabled(b[k], ss[k]) && b[k + 1] == Apply(b[k], ss[k])
  }

  ghost predicate InodesInv(s: State) {
    && (s.path.Some? ==> s.path.value < s.nextIno)
    && (forall p :: p in s.claims && HasDescriptor(s.claims[p]) ==> s.claims[p].ino < s.nextIno)
  }

  /** A claim past its flock call owns the flock of its inode, and nobody else does. */
  ghost predicate FlocksInv(s: State) {
    && (forall p ::
          p in s.claims
          && (s.claims[p].Flocked? || s.claims[p].Stale? || s.claims[p].Held? || s.claims[p].Leaving?)
          ==> s.claims[p].ino in s.flocks && s.flocks[s.claims[p].ino] == p)
    && (forall i :: i in s.flocks ==>
          s.flocks[i] in s.claims && HasDescriptor(s.claims[s.flocks[i]])
          && !s.claims[s.flocks[i]].Opened? && !s.claims[s.flocks[i]].Denied?
          && s.claims[s.flocks[i]].ino == i)
  }

  ghost predicate HeldInv(s: State) {
    forall p :: p in s.claims && s.claims[p].Held? ==> s.path == Some(s.claims[p].ino)
  }

  ghost predicate Inv(s: State) {
    InodesInv(s) && FlocksInv(s) && HeldInv(s)
  }

  lemma InodesPreserved(s: State, st: Step)
    requires InodesInv(s) && Enabled(s, st)
    ensures InodesInv(Apply(s, st))
  {
  }

  lemma FlocksPreserved(s: State, st: Step)
    requires FlocksInv(s) && Enabled(s, st)
    ensures FlocksInv(Apply(s, st))
  {
  }

  lemma HeldPreserved(s: State, st: Step)
    requires Inv(s) && Enabled(s, st)
    ensures HeldInv(Apply(s, st))
  {
  }

  lemma InvPreserved(s: State, st: Step)
    requires Inv(s) && Enabled(s, st)
    ensures Inv(Apply(s, st))
  {
    InodesPreserved(s, st);
    FlocksPreserved(s, st);
    HeldPreserved(s, st);
  }

  lemma {:induction false} RunInv(b: seq<State>, ss: seq<Step>, k: nat)
    requires Run(b, ss) && k < |b|
    ensures Inv(b[k])
  {
    if k > 0 {
      RunInv(b, ss, k - 1);
      InvPreserved(b[k - 1], ss[k - 1]);
    }
  }

  /** Whatever the interleaving of open, flock, stat, unlink, close and process
      death, at most one claim is between a successful LockPath and its Release,
      and the inode it locked is the one the path names. */
  lemma MutualExclusion(b: seq<State>, ss: seq<Step>, k: nat, p: nat, q: nat)
    requires Run(b, ss) && k < |b|
    requires p in b[k].claims && b[k].claims[p].Held?
    requires q in b[k].claims && b[k].claims[q].Held?
    ensures p == q
    ensures b[k].path == Some(b[k].claims[p].ino)
  {
    RunInv(b, ss, k);
  }

  /** While a lock is held nobody can take it: every other attempt that completes
      its flock call is denied or is told by the comparison to look again. */
  lemma HolderKeepsTheLock(b: seq<State>, ss: seq<Step>, k: nat, p: nat)
    requires Run(b, ss) && k < |ss|
    requires p in b[k].claims && b[k].claims[p].Held?
    requires !(ss[k].p == p && (ss[k].Unlink? || ss[k].Die?))
    ensures b[k + 1].claims[p] == b[k].claims[p]
    ensures b[k + 1].path == b[k].path
    ensures var t := b[k + 1]; forall q :: q in t.claims && t.claims[q].Held? ==> q == p
  {
    RunInv(b, ss, k);
    RunInv(b, ss, k + 1);
  }

  // ----- a process running alone ------------------------------------------

  /** LockPath has returned to this caller. */
  predicate Returned(c: Claim) {
    c.Held? || c.ErrLocked? || c.Gone?
  }

  /** The next thing LockPath does for p when no system call fails. */
  function NextCall(s: State, p: nat): Step
    requires p in s.claims && !Returned(s.claims[p])
  {
    match s.claims[p]
    case Trying => Open(p)
    case Opened(_) => Flock(p)
    case Flocked(_) => Compare(p, true)
    case _ => Close(p)
  }

  /** n calls of p while everybody else stands still. */
  function Alone(s: State, p: nat, n: nat): (t: State)
    requires p in s.claims
    ensures p in t.claims
    decreases n
  {
    if n == 0 || Returned(s.claims[p]) then s
    else Alone(Apply(s, NextCall(s, p)), p, n - 1)
  }

  /** How often p goes back to the top of the loop in its next n calls. */
  function Retries(s: State, p: nat, n: nat): nat
    requires p in s.claims
    decreases n
  {
    if n == 0 || Returned(s.claims[p]) then 0
    else (if s.claims[p].Stale? then 1 else 0) + Retries(Apply(s, NextCall(s, p)), p, n - 1)
  }

  /** From the top of the loop three calls decide: open, flock and either the
      comparison, which finds the file just opened, or the close that gives up. */
  lemma AloneFromTheTop(s: State, p: nat)
    requires Inv(s) && p in s.claims && s.claims[p].Trying?
    ensures var t := Alone(s, p, 3).claims[p]; t.Held? || t.ErrLocked?
    ensures Alone(s, p, 3).claims[p].ErrLocked? <==> s.path.Some? && s.path.value in s.flocks
    ensures forall n: nat :: n >= 3 ==> Alone(s, p, n) == Alone(s, p, 3) && Retries(s, p, n) == 0
  {
    var s1 := Apply(s, Open(p));
    var s2 := Apply(s1, Flock(p));
    var s3 := Apply(s2, NextCall(s2, p));
    InvPreserved(s, Open(p));
    InvPreserved(s1, Flock(p));
    assert Alone(s2, p, 1) == s3;
    assert Alone(s1, p, 2) == s3;
    assert Alone(s, p, 3) == s3;
    forall n: nat | n >= 3
      ensures Alone(s, p, n) == s3 && Retries(s, p, n) == 0
    {
      assert Returned(s3.claims[p]);
      assert Alone(s3, p, n - 3) == s3 && Retries(s3, p, n - 3) == 0;
      assert Alone(s2, p, n - 2) == s3 && Retries(s2, p, n - 2) == 0;
      assert Alone(s1, p, n - 1) == s3 && Retries(s1, p, n - 1) == 0;
    }
  }

  /** Left alone anywhere inside LockPath, a claim returns the lock or ErrLocked
      after at most seven system calls and at most one retry. */
  lemma AloneReturns(s: State, p: nat)
    requires Inv(s) && p in s.claims && !Returned(s.claims[p]) && !s.claims[p].Leaving?
    ensures var t := Alone(s, p, 7).claims[p]; t.Held? || t.ErrLocked?
    ensures Retries(s, p, 7) <= 1
  {
    AloneCountdown(s, p, 7);
  }

  function Rank(c: Claim): nat {
    match c
    case Trying => 3
    case Opened(_) => 6
    case Flocked(_) => 5
    case Stale(_) => 4
    case Denied(_) => 1
    case _ => 0
  }

  lemma {:induction false} AloneCountdown(s: State, p: nat, n: nat)
    requires Inv(s) && p in s.claims && !s.claims[p].Leaving? && !s.claims[p].Gone?
    requires Rank(s.claims[p]) <= n
    ensures var t := Alone(s, p, n).claims[p]; t.Held? || t.ErrLocked?
    ensures Retries(s, p, n) <= 1
    decreases n
  {
    var c := s.claims[p];
    if c.Trying? {
      AloneFromTheTop(s, p);
    } else if !Returned(c) {
      var s' := Apply(s, NextCall(s, p));
      InvPreserved(s, NextCall(s, p));
      AloneCountdown(s', p, n - 1);
      if c.Stale? {
        AloneFromTheTop(s', p);
      }
    }
  }
}
