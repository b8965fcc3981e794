/** One lock of a batch of distributed reader/writer locks, each atomic operation a step of one thread
    (src/platform_linux/platform.c). */
module BatchRwlock {

  /** Where a thread is in its use of the lock. The first five hold nothing: the reader's counter may be up, but
      only in passing, until it has seen the write lock free a second time. */
  datatype Phase =
    | Out
    | Spinning              // get: about to test the write lock
    | Entering              // get: about to count itself
    | Rechecking            // get: counted, about to test the write lock again
    | Leaving               // get: the second test failed, about to uncount itself
    | Reading
    | ClaimDropping         // try_claim: claim taken, about to give up its own read count
    | Claimed
    | Draining(next: nat)   // lock: write lock set, the counters below `next` were seen zero
    | Writing
    | Releasing             // unclaim: counted as a reader again, about to release the claim

  datatype Lock = Lock(claim: bool, lock: bool, readCounter: seq<int>, phases: seq<Phase>)

  /** What a thread asks of the lock; Continue is the next operation of a call already begun. */
  datatype Request = Continue | Get | Unget | TryClaim | SetLock | Unlock | Unclaim

  // The counters are bytes.
  function Add(c: int): int { (c + 1) % 256 }
  function Sub(c: int): int { (c - 1) % 256 }

  function To(l: Lock, t: nat, p: Phase): Lock
    requires t < |l.phases|
  {
    l.(phases := l.phases[t := p])
  }

  function Count(l: Lock, t: nat, c: int): Lock
    requires t < |l.readCounter|
  {
    l.(readCounter := l.readCounter[t := c])
  }

  /** One atomic operation of thread t. A request that does not fit the phase, or has to wait, changes nothing. */
  function Step(l: Lock, t: nat, req: Request): Lock
    requires t < |l.phases| == |l.readCounter|
  {
    match l.phases[t]
    case Out => if req.Get? then To(l, t, Spinning) else l
    case Spinning => if l.lock then l else To(l, t, Entering)
    case Entering => To(Count(l, t, Add(l.readCounter[t])), t, Rechecking)
    case Rechecking => To(l, t, if l.lock then Leaving else Reading)
    case Leaving => To(Count(l, t, Sub(l.readCounter[t])), t, Spinning)
    case Reading =>
      if req.Unget? then To(Count(l, t, Sub(l.readCounter[t])), t, Out)
      else if req.TryClaim? && !l.claim then To(l.(claim := true), t, ClaimDropping)
      else l
    case ClaimDropping => To(Count(l, t, Sub(l.readCounter[t])), t, Claimed)
    case Claimed =>
      if req.SetLock? then To(l.(lock := true), t, Draining(0))
      else if req.Unclaim? then To(Count(l, t, Add(l.readCounter[t])), t, Releasing)
      else l
    case Draining(next) =>
      if next < |l.readCounter| && l.readCounter[next] != 0 then l
      else To(l, t, if next + 1 < |l.readCounter| then Draining(next + 1) else Writing)
    case Writing => if req.Unlock? then To(l.(lock := false), t, Claimed) else l
    case Releasing => To(l.(claim := false), t, Reading)
  }

  function Init(n: nat): Lock {
    Lock(false, false, seq(n, i => 0), seq(n, i => Out))
  }

  // --------------------------------------------------------------- invariant

  predicate Counted(p: Phase) {
    p.Rechecking? || p.Leaving? || p.Reading? || p.ClaimDropping? || p.Releasing?
  }

  function Expected(p: Phase): int {
    if Counted(p) then 1 else 0
  }

  /** The read lock is held: the second test of the write lock has passed. */
  predicate HoldsRead(p: Phase) {
    p.Reading? || p.ClaimDropping? || p.Releasing?
  }

  predicate HoldsClaim(p: Phase) {
    p.ClaimDropping? || p.Claimed? || p.Draining? || p.Writing? || p.Releasing?
  }

  predicate HoldsLock(p: Phase) {
    p.Draining? || p.Writing?
  }

  ghost predicate Shaped(l: Lock) {
    |l.readCounter| == |l.phases|
  }

  ghost predicate CountersExact(l: Lock)
    requires Shaped(l)
  {
    forall t :: 0 <= t < |l.phases| ==> l.readCounter[t] == Expected(l.phases[t])
  }

  ghost predicate OneClaim(l: Lock) {
    && (forall t, u :: 0 <= t < u < |l.phases| ==> !(HoldsClaim(l.phases[t]) && HoldsClaim(l.phases[u])))
    && (forall t :: 0 <= t < |l.phases| && HoldsClaim(l.phases[t]) ==> l.claim)
    && (l.claim ==> exists t :: 0 <= t < |l.phases| && HoldsClaim(l.phases[t]))
  }

  ghost predicate LockExact(l: Lock) {
    && (forall t :: 0 <= t < |l.phases| && HoldsLock(l.phases[t]) ==> l.lock)
    && (l.lock ==> exists t :: 0 <= t < |l.phases| && HoldsLock(l.phases[t]))
  }

  /** Thread u has been passed by t's drain. */
  predicate Passed(p: Phase, u: nat) {
    p.Writing? || (p.Draining? && u < p.next)
  }

  ghost predicate Drained(l: Lock) {
    forall t, u :: 0 <= t < |l.phases| && 0 <= u < |l.phases| && Passed(l.phases[t], u) ==> !HoldsRead(l.phases[u])
  }

  ghost predicate Inv(l: Lock) {
    Shaped(l) && CountersExact(l) && OneClaim(l) && LockExact(l) && Drained(l)
  }

  lemma InitHolds(n: nat)
    ensures Inv(Init(n))
  {
  }

  /** What a step of thread t may do, phase by phase forgotten. */
  ghost predicate Effect(l: Lock, l': Lock, t: nat) {
    && Shaped(l) && t < |l.phases| == |l'.phases| && Shaped(l')
    && var p, p' := l.phases[t], l'.phases[t];
    && l'.phases == l.phases[t := p'] && l'.readCounter == l.readCounter[t := l'.readCounter[t]]
    && (l.readCounter[t] == Expected(p) ==> l'.readCounter[t] == Expected(p'))
    && l'.claim == (if HoldsClaim(p) then HoldsClaim(p') else l.claim || HoldsClaim(p'))
    && (HoldsClaim(p') && !HoldsClaim(p) ==> !l.claim)
    && l'.lock == (if HoldsLock(p) then HoldsLock(p') && l.lock else l.lock || HoldsLock(p'))
    && (HoldsLock(p') && !HoldsLock(p) ==> HoldsClaim(p))
    && (HoldsRead(p') && !HoldsRead(p) ==> !l.lock || HoldsClaim(p))
    && forall u :: 0 <= u < |l.phases| && Passed(p', u) && !Passed(p, u) ==> l.readCounter[u] == 0
  }

  lemma StepEffect(l: Lock, t: nat, req: Request)
    requires t < |l.phases| && Shaped(l) && (HoldsClaim(l.phases[t]) ==> l.claim)
    requires HoldsLock(l.phases[t]) ==> l.lock
    ensures Effect(l, Step(l, t, req), t)
  {
    StepLocal(l, t, req);
    StepCounter(l, t, req);
    StepFlags(l, t, req);
    hide Step;
  }

  lemma StepLocal(l: Lock, t: nat, req: Request)
    requires t < |l.phases| && Shaped(l)
    ensures var l' := Step(l, t, req); Shaped(l') && |l'.phases| == |l.phases|
    ensures var l' := Step(l, t, req);
      l'.phases == l.phases[t := l'.phases[t]] && l'.readCounter == l.readCounter[t := l'.readCounter[t]]
  {
  }

  lemma StepCounter(l: Lock, t: nat, req: Request)
    requires t < |l.phases| && Shaped(l) && |Step(l, t, req).phases| == |Step(l, t, req).readCounter| == |l.phases|
    ensures var p, l' := l.phases[t], Step(l, t, req); var p' := l'.phases[t];
      && (l.readCounter[t] == Expected(p) ==> l'.readCounter[t] == Expected(p'))
      && forall u :: 0 <= u < |l.phases| && Passed(p', u) && !Passed(p, u) ==> l.readCounter[u] == 0
  {
    match l.phases[t] {
      case Out =>
      case Spinning =>
      case Entering =>
      case Rechecking =>
      case Leaving =>
      case Reading =>
      case ClaimDropping =>
      case Claimed =>
      case Draining(_) =>
      case Writing =>
      case Releasing =>
    }
  }

  lemma StepFlags(l: Lock, t: nat, req: Request)
    requires t < |l.phases| && Shaped(l) && (HoldsClaim(l.phases[t]) ==> l.claim)
    requires (HoldsLock(l.phases[t]) ==> l.lock) && |Step(l, t, req).phases| == |l.phases|
    ensures var p, l' := l.phases[t], Step(l, t, req); var p' := l'.phases[t];
      && l'.claim == (if HoldsClaim(p) then HoldsClaim(p') else l.claim || HoldsClaim(p'))
      && (HoldsClaim(p') && !HoldsClaim(p) ==> !l.claim)
      && l'.lock == (if HoldsLock(p) then HoldsLock(p') && l.lock else l.lock || HoldsLock(p'))
      && (HoldsLock(p') && !HoldsLock(p) ==> HoldsClaim(p))
      && (HoldsRead(p') && !HoldsRead(p) ==> !l.lock || HoldsClaim(p))
  {
  }

  lemma CountersKept(l: Lock, l': Lock, t: nat)
    requires Effect(l, l', t) && CountersExact(l)
    ensures CountersExact(l')
  {
  }

  lemma ClaimKept(l: Lock, l': Lock, t: nat)
    requires Effect(l, l', t) && OneClaim(l)
    ensures OneClaim(l')
  {
    var p' := l'.phases[t];
    forall u | 0 <= u < |l.phases| && u != t ensures l'.phases[u] == l.phases[u] {
    }
    if l'.claim && !HoldsClaim(p') {
      var u :| 0 <= u < |l.phases| && HoldsClaim(l.phases[u]);
      assert HoldsClaim(l'.phases[u]);
    }
  }

  lemma LockKept(l: Lock, l': Lock, t: nat)
    requires Effect(l, l', t) && OneClaim(l) && LockExact(l)
    ensures LockExact(l')
  {
    var p' := l'.phases[t];
    forall u | 0 <= u < |l.phases| && u != t ensures l'.phases[u] == l.phases[u] {
    }
    if l'.lock && !HoldsLock(p') {
      var u :| 0 <= u < |l.phases| && HoldsLock(l.phases[u]);
      assert HoldsLock(l'.phases[u]);
    }
    forall u | 0 <= u < |l.phases| && u != t && HoldsLock(l.phases[u]) ensures !HoldsLock(l.phases[t]) {
      assert HoldsClaim(l.phases[u]);
    }
  }

  lemma DrainKept(l: Lock, l': Lock, t: nat)
    requires Effect(l, l', t) && Inv(l)
    ensures Drained(l')
  {
    forall u | 0 <= u < |l.phases| && u != t ensures l'.phases[u] == l.phases[u] {
    }
    forall a, u | 0 <= a < |l.phases| && 0 <= u < |l.phases| && Passed(l'.phases[a], u)
      ensures !HoldsRead(l'.phases[u])
    {
      if a != t && u == t {
        assert HoldsLock(l.phases[a]) && HoldsClaim(l.phases[a]);
      }
    }
  }

  lemma StepShape(l: Lock, t: nat, req: Request)
    requires t < |l.phases| && Shaped(l)
    ensures Shaped(Step(l, t, req)) && |Step(l, t, req).phases| == |l.phases|
  {
    StepLocal(l, t, req);
  }

  /** Every step keeps the invariant. */
  lemma StepKeeps(l: Lock, t: nat, req: Request)
    requires t < |l.phases| && Inv(l)
    ensures Inv(Step(l, t, req)) && Effect(l, Step(l, t, req), t)
  {
    hide Step, Effect, Drained, CountersExact;
    var l' := Step(l, t, req);
    StepShape(l, t, req);
    StepEffect(l, t, req);
    CountersKept(l, l', t);
    ClaimKept(l, l', t);
    LockKept(l, l', t);
    DrainKept(l, l', t);
  }

  // ----------------------------------------------------------------- results

  /** A lock after some operations of some threads, in any order. */
  function Run(l: Lock, ops: seq<(nat, Request)>): (r: Lock)
    requires Shaped(l) && forall i :: 0 <= i < |ops| ==> ops[i].0 < |l.phases|
    ensures Shaped(r) && |r.phases| == |l.phases|
    decreases |ops|
  {
    if ops == [] then l
    else
      var before := Run(l, ops[..|ops| - 1]);
      var last := ops[|ops| - 1];
      StepShape(before, last.0, last.1);
      Step(before, last.0, last.1)
  }

  lemma {:induction false} RunKeeps(n: nat, ops: seq<(nat, Request)>)
    requires forall i :: 0 <= i < |ops| ==> ops[i].0 < n
    ensures Shaped(Init(n)) && Inv(Run(Init(n), ops))
    decreases |ops|
  {
    InitHolds(n);
    if ops != [] {
      RunKeeps(n, ops[..|ops| - 1]);
      var last := ops[|ops| - 1];
      StepKeeps(Run(Init(n), ops[..|ops| - 1]), last.0, last.1);
    }
  }

  /** In every run a thread that has finished `lock` is alone: no other holds the read lock, the claim or the write
      lock. */
  lemma {:induction false} WriterExcludes(n: nat, ops: seq<(nat, Request)>, t: nat, u: nat)
    requires forall i :: 0 <= i < |ops| ==> ops[i].0 < n
    requires t < n && u < n && t != u && Run(Init(n), ops).phases[t].Writing?
    ensures var p := Run(Init(n), ops).phases[u]; !HoldsRead(p) && !HoldsClaim(p) && !HoldsLock(p)
  {
    RunKeeps(n, ops);
    Alone(Run(Init(n), ops), t, u);
  }

  lemma Alone(l: Lock, t: nat, u: nat)
    requires Inv(l) && t < |l.phases| && u < |l.phases| && t != u && l.phases[t].Writing?
    ensures !HoldsRead(l.phases[u]) && !HoldsClaim(l.phases[u]) && !HoldsLock(l.phases[u])
  {
    assert Passed(l.phases[t], u) && HoldsClaim(l.phases[t]);
  }

  /** What the source asserts along the way holds in every run: a thread's counter is zero before it counts itself
      and one before it uncounts itself, and the write lock is free before a claimant sets it. */
  lemma {:induction false} AssertionsHold(n: nat, ops: seq<(nat, Request)>, t: nat)
    requires (forall i :: 0 <= i < |ops| ==> ops[i].0 < n) && t < n
    ensures var l := Run(Init(n), ops);
      && (l.phases[t].Entering? ==> l.readCounter[t] == 0)
      && (l.phases[t].Leaving? || l.phases[t].Reading? || l.phases[t].ClaimDropping? ==> l.readCounter[t] == 1)
      && (l.phases[t].Claimed? ==> l.claim && !l.lock)
  {
    RunKeeps(n, ops);
    var l := Run(Init(n), ops);
    assert forall u :: 0 <= u < |l.phases| && HoldsLock(l.phases[u]) ==> HoldsClaim(l.phases[u]);
    assert l.phases[t].Claimed? ==> HoldsClaim(l.phases[t]);
  }

  // ------------------------------------------------------------ what is granted

  /** A thread gets its read lock whenever nobody has the write lock, claimed or not. */
  lemma ReadsGranted(l: Lock, t: nat)
    requires Inv(l) && t < |l.phases| && l.phases[t].Out? && !l.lock
    ensures Step(Step(Step(Step(l, t, Get), t, Continue), t, Continue), t, Continue)
         == l.(phases := l.phases[t := Reading], readCounter := l.readCounter[t := 1])
  {
    assert l.readCounter[t] == 0;
  }

  /** A reader gets the claim whenever nobody has it. */
  lemma ClaimsGranted(l: Lock, t: nat)
    requires Inv(l) && t < |l.phases| && l.phases[t].Reading? && !l.claim
    ensures Step(Step(l, t, TryClaim), t, Continue)
         == l.(claim := true, phases := l.phases[t := Claimed], readCounter := l.readCounter[t := 0])
  {
    assert l.readCounter[t] == 1;
  }

  function Continued(l: Lock, t: nat, k: nat): (r: Lock)
    requires t < |l.phases| == |l.readCounter|
    ensures |r.phases| == |l.phases| == |r.readCounter|
  {
    if k == 0 then l else Step(Continued(l, t, k - 1), t, Continue)
  }

  /** The claim becomes the write lock as soon as no reader is left, after one look at each counter. */
  lemma LockGranted(l: Lock, t: nat)
    requires Inv(l) && t < |l.phases| && l.phases[t].Claimed?
    requires forall u :: 0 <= u < |l.phases| ==> l.readCounter[u] == 0
    ensures Continued(Step(l, t, SetLock), t, |l.phases|) == l.(lock := true, phases := l.phases[t := Writing])
  {
    DrainsTo(l, t, |l.phases|);
  }

  lemma {:induction false} DrainsTo(l: Lock, t: nat, k: nat)
    requires Inv(l) && t < |l.phases| && l.phases[t].Claimed? && k <= |l.phases|
    requires forall u :: 0 <= u < |l.phases| ==> l.readCounter[u] == 0
    ensures Continued(Step(l, t, SetLock), t, k)
         == l.(lock := true, phases := l.phases[t := if k < |l.phases| then Draining(k) else Writing])
  {
    if k > 0 {
      DrainsTo(l, t, k - 1);
    }
  }

  /** And back: the claim, the read lock, nothing. */
  lemma GivesBack(l: Lock, t: nat)
    requires Inv(l) && t < |l.phases| && l.phases[t].Writing?
    ensures Step(Step(Step(Step(l, t, Unlock), t, Unclaim), t, Continue), t, Unget)
         == l.(claim := false, lock := false, phases := l.phases[t := Out])
  {
    assert l.readCounter[t] == 0;
  }
}
