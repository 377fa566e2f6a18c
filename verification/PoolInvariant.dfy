/** What every interleaving of the pool's steps keeps. */
module PoolInvariant {
  import opened Wrappers
  import opened PoolSteps

  // ---- The invariant ----

  function InHand(pc: Pc, r: nat): nat {
    if Owns(pc) == Some(r) then 1 else 0
  }

  // How many threads have runner r in hand.
  function InHands(threads: seq<Pc>, r: nat): nat {
    if threads == [] then 0 else InHands(threads[..|threads| - 1], r) + InHand(threads[|threads| - 1], r)
  }

  // How many idle slots runner r sits in.
  function InChan(chan: seq<nat>, r: nat): nat {
    if chan == [] then 0 else InChan(chan[..|chan| - 1], r) + (if chan[|chan| - 1] == r then 1 else 0)
  }

  predicate Alive(s: Pool, r: nat) {
    r < |s.runners| && s.runners[r].closes == 0
  }

  // How many places, idle slots and hands together, a runner is in.
  function Places(s: Pool, r: nat): nat {
    InChan(s.chan, r) + InHands(s.threads, r)
  }

  ghost predicate Conserved(s: Pool) {
    1 <= s.size && |s.chan| + Load(s.threads) <= s.size
  }

  // An open runner is in exactly one place, a closed one in none.
  ghost predicate Placed(s: Pool) {
    forall r: nat :: Places(s, r) == if Alive(s, r) then 1 else 0
  }

  predicate UsesLeft(pc: Pc) {
    pc.AcqGot? || pc.AcqRollback? || pc.AcqPassed? || pc.Created? || pc.FillCreated?
  }

  ghost predicate UsesGood(s: Pool) {
    && (forall r :: 0 <= r < |s.runners| ==> s.runners[r].uses <= MAX_RUNNER_USES)
    && (forall i :: 0 <= i < |s.chan| ==> !Exhausted(s, s.chan[i]))
    && (forall t :: 0 <= t < |s.threads| && UsesLeft(s.threads[t]) ==> !Exhausted(s, s.threads[t].r))
  }

  // A runner is closed at most once, and twice only in a draining pool.
  ghost predicate ClosesGood(s: Pool) {
    forall r :: 0 <= r < |s.runners| ==> s.runners[r].closes <= if s.draining then 2 else 1
  }

  ghost predicate ActiveGood(s: Pool) {
    s.active == Held(s.threads) - s.rolledBack
  }

  predicate DrainingPc(pc: Pc) {
    pc.AcqNil? || pc.AcqRollback? || pc.SigClosing? || pc.DrainWait? || pc.DrainClosing? || pc.DrainSweep? || pc.Crashed?
  }

  predicate BeforeClose(pc: Pc) {
    pc.DrainWait? || pc.DrainClosing?
  }

  ghost predicate Flags(s: Pool) {
    && (s.drained || s.chanClosed || s.rolledBack > 0 ==> s.draining)
    && (forall t :: 0 <= t < |s.threads| && DrainingPc(s.threads[t]) ==> s.draining)
    && (forall t :: 0 <= t < |s.threads| && BeforeClose(s.threads[t]) ==> !s.chanClosed)
    && (forall t, u :: 0 <= t < u < |s.threads| ==> !(BeforeClose(s.threads[t]) && BeforeClose(s.threads[u])))
  }

  ghost predicate Inv(s: Pool) {
    Conserved(s) && Placed(s) && UsesGood(s) && ClosesGood(s) && ActiveGood(s) && Flags(s)
  }

  // ---- Sums over threads and the channel ----

  function HeldOne(pc: Pc): nat {
    if pc.Holding? then 1 else 0
  }

  lemma {:induction false} SumsUpdate(threads: seq<Pc>, t: nat, pc: Pc)
    requires t < |threads|
    ensures Load(threads[t := pc]) == Load(threads) - Weight(threads[t]) + Weight(pc)
    ensures Held(threads[t := pc]) == Held(threads) - HeldOne(threads[t]) + HeldOne(pc)
    ensures Load(threads) >= Weight(threads[t])
    ensures Held(threads) >= HeldOne(threads[t])
  {
    var last := |threads| - 1;
    var moved := threads[t := pc];
    if t == last {
      assert moved[..last] == threads[..last];
    } else {
      assert moved[..last] == threads[..last][t := pc];
      SumsUpdate(threads[..last], t, pc);
    }
  }

  lemma {:induction false} InHandsUpdate(threads: seq<Pc>, t: nat, pc: Pc, r: nat)
    requires t < |threads|
    ensures InHands(threads[t := pc], r) == InHands(threads, r) - InHand(threads[t], r) + InHand(pc, r)
    ensures InHands(threads, r) >= InHand(threads[t], r)
  {
    var last := |threads| - 1;
    var moved := threads[t := pc];
    if t == last {
      assert moved[..last] == threads[..last];
    } else {
      assert moved[..last] == threads[..last][t := pc];
      InHandsUpdate(threads[..last], t, pc, r);
    }
  }

  lemma SumsAppend(threads: seq<Pc>, pc: Pc)
    ensures Load(threads + [pc]) == Load(threads) + Weight(pc)
    ensures Held(threads + [pc]) == Held(threads) + HeldOne(pc)
    ensures forall r :: InHands(threads + [pc], r) == InHands(threads, r) + InHand(pc, r)
  {
    assert (threads + [pc])[..|threads|] == threads;
  }

  lemma InChanPush(chan: seq<nat>, x: nat, r: nat)
    ensures InChan(chan + [x], r) == InChan(chan, r) + (if x == r then 1 else 0)
  {
    assert (chan + [x])[..|chan|] == chan;
  }

  lemma {:induction false} InChanPop(chan: seq<nat>, r: nat)
    requires chan != []
    ensures InChan(chan, r) == InChan(chan[1..], r) + (if chan[0] == r then 1 else 0)
  {
    if |chan| > 1 {
      InChanPop(chan[..|chan| - 1], r);
      assert chan[1..][..|chan| - 2] == chan[..|chan| - 1][1..];
    }
  }

  lemma {:induction false} InChanAt(chan: seq<nat>, i: nat)
    requires i < |chan|
    ensures InChan(chan, chan[i]) >= 1
    ensures forall j :: i < j < |chan| && chan[i] == chan[j] ==> InChan(chan, chan[i]) >= 2
  {
    if i < |chan| - 1 {
      InChanAt(chan[..|chan| - 1], i);
    }
  }

  // ---- What Placed means ----

  lemma HandAlive(s: Pool, t: nat)
    requires Placed(s) && t < |s.threads| && Owns(s.threads[t]).Some?
    ensures Alive(s, Owns(s.threads[t]).value)
  {
    var r := Owns(s.threads[t]).value;
    InHandsUpdate(s.threads, t, Done, r);
    assert Places(s, r) >= 1;
  }

  // Two threads never have the same runner in hand; a runner in hand is open and not idle.
  lemma HandsApart(s: Pool, t: nat)
    requires Placed(s) && t < |s.threads| && Owns(s.threads[t]).Some?
    ensures Alive(s, Owns(s.threads[t]).value)
    ensures forall i :: 0 <= i < |s.chan| ==> s.chan[i] != Owns(s.threads[t]).value
    ensures forall u :: 0 <= u < |s.threads| && u != t ==> Owns(s.threads[u]) != Owns(s.threads[t])
  {
    var r := Owns(s.threads[t]).value;
    InHandsUpdate(s.threads, t, Done, r);
    assert Places(s, r) == 1;
    forall i | 0 <= i < |s.chan|
      ensures s.chan[i] != r
    {
      InChanAt(s.chan, i);
    }
    forall u | 0 <= u < |s.threads| && u != t
      ensures Owns(s.threads[u]) != Some(r)
    {
      InHandsUpdate(s.threads[t := Done], u, Done, r);
    }
  }

  // Idle runners are open, and no runner is idle twice.
  lemma ChanApart(s: Pool)
    requires Placed(s)
    ensures forall i, j :: 0 <= i < j < |s.chan| ==> s.chan[i] != s.chan[j]
    ensures forall i :: 0 <= i < |s.chan| ==> Alive(s, s.chan[i])
  {
    forall i | 0 <= i < |s.chan|
      ensures Alive(s, s.chan[i])
      ensures forall j :: i < j < |s.chan| ==> s.chan[i] != s.chan[j]
    {
      InChanAt(s.chan, i);
      assert Places(s, s.chan[i]) <= 1;
    }
  }

  lemma ChanAlive(s: Pool, i: nat)
    requires Placed(s) && i < |s.chan|
    ensures Alive(s, s.chan[i])
  {
    InChanAt(s.chan, i);
    assert Places(s, s.chan[i]) >= 1;
  }

  // A step that counts no use, and makes no exhausted runner available, keeps UsesGood.
  lemma UsesFrame(s: Pool, s': Pool, t: nat, pushed: nat)
    requires UsesGood(s) && t < |s.threads|
    requires |s.runners| <= |s'.runners|
    requires forall y :: 0 <= y < |s.runners| ==> s'.runners[y].uses == s.runners[y].uses
    requires forall y :: |s.runners| <= y < |s'.runners| ==> s'.runners[y].uses == 0
    requires |s'.threads| == |s.threads| && s'.threads == s.threads[t := s'.threads[t]]
    requires UsesLeft(s'.threads[t]) ==> !Exhausted(s', s'.threads[t].r)
    requires s'.chan == s.chan || (s.chan != [] && s'.chan == s.chan[1..])
             || (s'.chan == s.chan + [pushed] && !Exhausted(s', pushed))
    ensures UsesGood(s')
  {
  }

  // A step that raises no flag and puts no thread before the close keeps Flags.
  lemma FlagsFrame(s: Pool, s': Pool, t: nat)
    requires Flags(s) && t < |s.threads| == |s'.threads|
    requires s'.threads == s.threads[t := s'.threads[t]]
    requires s'.draining == s.draining && s'.chanClosed == s.chanClosed && s'.drained == s.drained
    requires s'.rolledBack > 0 ==> s.draining
    requires DrainingPc(s'.threads[t]) ==> s.draining
    requires !BeforeClose(s'.threads[t])
    ensures Flags(s')
  {
  }

  // ---- One step ----

  lemma AcquireKeepsFlags(s: Pool, t: nat, c: Choice)
    requires Flags(s) && t < |s.threads|
    ensures Flags(AcquireStep(s, t, c))
  {
    match s.threads[t] {
      case AcqStart =>
      case AcqWait =>
      case AcqGot(_) =>
      case AcqRollback(_) =>
      case _ =>
    }
  }

  lemma AcquireKeepsConserved(s: Pool, t: nat, c: Choice)
    requires Conserved(s) && ActiveGood(s) && t < |s.threads|
    ensures Conserved(AcquireStep(s, t, c)) && ActiveGood(AcquireStep(s, t, c))
  {
    hide Load, Held;
    SumsUpdate(s.threads, t, AcquireStep(s, t, c).threads[t]);
    match s.threads[t] {
      case AcqStart =>
      case AcqWait =>
      case AcqGot(_) =>
      case AcqRollback(_) =>
      case _ =>
    }
  }

  lemma AcquireKeepsPlace(s: Pool, t: nat, c: Choice, r: nat)
    requires Placed(s) && t < |s.threads|
    ensures Places(AcquireStep(s, t, c), r) == if Alive(AcquireStep(s, t, c), r) then 1 else 0
  {
    hide InHands, InChan;
    InHandsUpdate(s.threads, t, AcquireStep(s, t, c).threads[t], r);
    assert Places(s, r) == if Alive(s, r) then 1 else 0;
    match s.threads[t] {
      case AcqStart =>
      case AcqWait =>
        if s.chan != [] {
          InChanPop(s.chan, r);
        }
      case AcqGot(_) =>
      case AcqRollback(_) =>
      case _ =>
    }
  }

  lemma AcquireKeepsUses(s: Pool, t: nat, c: Choice)
    requires UsesGood(s) && t < |s.threads|
    ensures UsesGood(AcquireStep(s, t, c))
  {
    match s.threads[t] {
      case AcqStart =>
      case AcqWait =>
      case AcqGot(_) =>
      case AcqRollback(_) =>
      case _ =>
    }
  }

  lemma AcquireKeepsCloses(s: Pool, t: nat, c: Choice)
    requires Placed(s) && ClosesGood(s) && t < |s.threads|
    ensures ClosesGood(AcquireStep(s, t, c))
  {
    hide Placed;
    match s.threads[t] {
      case AcqStart =>
      case AcqWait =>
      case AcqGot(_) =>
      case AcqRollback(_) =>
      case _ =>
    }
  }

  lemma AcquireKeepsInv(s: Pool, t: nat, c: Choice)
    requires Inv(s) && t < |s.threads|
    ensures Inv(AcquireStep(s, t, c))
  {
    hide AcquireStep, Places, Alive;
    AcquireKeepsFlags(s, t, c);
    AcquireKeepsConserved(s, t, c);
    AcquireKeepsUses(s, t, c);
    AcquireKeepsCloses(s, t, c);
    forall r: nat
      ensures Places(AcquireStep(s, t, c), r) == if Alive(AcquireStep(s, t, c), r) then 1 else 0
    {
      AcquireKeepsPlace(s, t, c, r);
    }
  }

  lemma AdmitKeepsFlags(s: Pool, t: nat, c: Choice)
    requires Flags(s) && t < |s.threads|
    ensures Flags(AdmitStep(s, t, c))
  {
  }

  lemma AdmitKeepsConserved(s: Pool, t: nat, c: Choice)
    requires Conserved(s) && ActiveGood(s) && t < |s.threads|
    ensures Conserved(AdmitStep(s, t, c)) && ActiveGood(AdmitStep(s, t, c))
  {
    hide Load, Held;
    SumsUpdate(s.threads, t, AdmitStep(s, t, c).threads[t]);
  }

  lemma AdmitKeepsPlace(s: Pool, t: nat, c: Choice, r: nat)
    requires Placed(s) && t < |s.threads|
    ensures Places(AdmitStep(s, t, c), r) == if Alive(AdmitStep(s, t, c), r) then 1 else 0
  {
    hide InHands, InChan;
    InHandsUpdate(s.threads, t, AdmitStep(s, t, c).threads[t], r);
    assert Places(s, r) == if Alive(s, r) then 1 else 0;
  }

  lemma AdmitKeepsUses(s: Pool, t: nat, c: Choice)
    requires Placed(s) && UsesGood(s) && t < |s.threads|
    ensures UsesGood(AdmitStep(s, t, c))
  {
    hide Placed;
    if s.threads[t].AcqPassed? {
      HandsApart(s, t);
    }
  }

  lemma AdmitKeepsCloses(s: Pool, t: nat, c: Choice)
    requires Placed(s) && ClosesGood(s) && t < |s.threads|
    ensures ClosesGood(AdmitStep(s, t, c))
  {
    hide Placed;
    if s.threads[t].AcqPassed? {
      HandAlive(s, t);
    }
  }

  lemma AdmitKeepsInv(s: Pool, t: nat, c: Choice)
    requires Inv(s) && t < |s.threads|
    ensures Inv(AdmitStep(s, t, c))
  {
    hide AdmitStep, Places, Alive;
    AdmitKeepsFlags(s, t, c);
    AdmitKeepsConserved(s, t, c);
    AdmitKeepsUses(s, t, c);
    AdmitKeepsCloses(s, t, c);
    forall r: nat
      ensures Places(AdmitStep(s, t, c), r) == if Alive(AdmitStep(s, t, c), r) then 1 else 0
    {
      AdmitKeepsPlace(s, t, c, r);
    }
  }

  lemma ReleaseKeepsFlags(s: Pool, t: nat, c: Choice)
    requires Flags(s) && t < |s.threads|
    ensures Flags(ReleaseStep(s, t, c))
  {
    match s.threads[t] {
      case Holding(_) =>
      case RelDec(_, _) =>
      case _ =>
    }
  }

  lemma ReleaseKeepsConserved(s: Pool, t: nat, c: Choice)
    requires Conserved(s) && ActiveGood(s) && t < |s.threads|
    ensures Conserved(ReleaseStep(s, t, c)) && ActiveGood(ReleaseStep(s, t, c))
  {
    hide Load, Held;
    SumsUpdate(s.threads, t, ReleaseStep(s, t, c).threads[t]);
    match s.threads[t] {
      case Holding(_) =>
      case RelDec(_, _) =>
      case _ =>
    }
  }

  lemma ReleaseKeepsPlace(s: Pool, t: nat, c: Choice, r: nat)
    requires Placed(s) && t < |s.threads|
    ensures Places(ReleaseStep(s, t, c), r) == if Alive(ReleaseStep(s, t, c), r) then 1 else 0
  {
    hide InHands, InChan;
    InHandsUpdate(s.threads, t, ReleaseStep(s, t, c).threads[t], r);
    assert Places(s, r) == if Alive(s, r) then 1 else 0;
    match s.threads[t] {
      case Holding(_) =>
      case RelDec(_, _) =>
      case _ =>
    }
  }

  lemma ReleaseKeepsUses(s: Pool, t: nat, c: Choice)
    requires UsesGood(s) && t < |s.threads|
    ensures UsesGood(ReleaseStep(s, t, c))
  {
    UsesFrame(s, ReleaseStep(s, t, c), t, 0);
  }

  lemma ReleaseKeepsCloses(s: Pool, t: nat, c: Choice)
    requires Placed(s) && ClosesGood(s) && t < |s.threads|
    ensures ClosesGood(ReleaseStep(s, t, c))
  {
    hide Placed;
    match s.threads[t] {
      case Holding(_) => HandAlive(s, t);
      case RelDec(_, _) => HandAlive(s, t);
      case _ =>
    }
  }

  lemma ReleaseKeepsInv(s: Pool, t: nat, c: Choice)
    requires Inv(s) && t < |s.threads|
    ensures Inv(ReleaseStep(s, t, c))
  {
    hide ReleaseStep, Places, Alive;
    ReleaseKeepsFlags(s, t, c);
    ReleaseKeepsConserved(s, t, c);
    ReleaseKeepsUses(s, t, c);
    ReleaseKeepsCloses(s, t, c);
    forall r: nat
      ensures Places(ReleaseStep(s, t, c), r) == if Alive(ReleaseStep(s, t, c), r) then 1 else 0
    {
      ReleaseKeepsPlace(s, t, c, r);
    }
  }

  lemma SignalKeepsFlags(s: Pool, t: nat, c: Choice)
    requires Flags(s) && t < |s.threads|
    ensures Flags(SignalStep(s, t, c))
  {
    match s.threads[t] {
      case Signal(_, _) =>
      case SigClosing(_) =>
      case _ =>
    }
  }

  lemma SignalKeepsConserved(s: Pool, t: nat, c: Choice)
    requires Conserved(s) && ActiveGood(s) && t < |s.threads|
    ensures Conserved(SignalStep(s, t, c)) && ActiveGood(SignalStep(s, t, c))
  {
    hide Load, Held;
    SumsUpdate(s.threads, t, SignalStep(s, t, c).threads[t]);
    match s.threads[t] {
      case Signal(_, _) =>
      case SigClosing(_) =>
      case _ =>
    }
  }

  lemma SignalKeepsPlace(s: Pool, t: nat, c: Choice, r: nat)
    requires Placed(s) && t < |s.threads|
    ensures Places(SignalStep(s, t, c), r) == if Alive(SignalStep(s, t, c), r) then 1 else 0
  {
    hide InHands, InChan;
    InHandsUpdate(s.threads, t, SignalStep(s, t, c).threads[t], r);
    assert Places(s, r) == if Alive(s, r) then 1 else 0;
    match s.threads[t] {
      case Signal(_, _) =>
      case SigClosing(_) =>
      case _ =>
    }
  }

  lemma SignalKeepsUses(s: Pool, t: nat, c: Choice)
    requires UsesGood(s) && t < |s.threads|
    ensures UsesGood(SignalStep(s, t, c))
  {
    UsesFrame(s, SignalStep(s, t, c), t, 0);
  }

  lemma SignalKeepsCloses(s: Pool, t: nat, c: Choice)
    requires Placed(s) && ClosesGood(s) && t < |s.threads|
    ensures ClosesGood(SignalStep(s, t, c))
  {
    hide Placed;
    match s.threads[t] {
      case Signal(_, _) =>
      case SigClosing(_) =>
      case _ =>
    }
  }

  lemma SignalKeepsInv(s: Pool, t: nat, c: Choice)
    requires Inv(s) && t < |s.threads|
    ensures Inv(SignalStep(s, t, c))
  {
    hide SignalStep, Places, Alive;
    SignalKeepsFlags(s, t, c);
    SignalKeepsConserved(s, t, c);
    SignalKeepsUses(s, t, c);
    SignalKeepsCloses(s, t, c);
    forall r: nat
      ensures Places(SignalStep(s, t, c), r) == if Alive(SignalStep(s, t, c), r) then 1 else 0
    {
      SignalKeepsPlace(s, t, c, r);
    }
  }

  lemma CreateKeepsFlags(s: Pool, t: nat, c: Choice)
    requires Flags(s) && t < |s.threads|
    ensures Flags(CreateStep(s, t, c))
  {
    match s.threads[t] {
      case Owed =>
      case Creating =>
      case Fill(_) =>
      case _ =>
    }
  }

  lemma CreateKeepsConserved(s: Pool, t: nat, c: Choice)
    requires Conserved(s) && ActiveGood(s) && t < |s.threads|
    ensures Conserved(CreateStep(s, t, c)) && ActiveGood(CreateStep(s, t, c))
  {
    hide Load, Held;
    SumsUpdate(s.threads, t, CreateStep(s, t, c).threads[t]);
    match s.threads[t] {
      case Owed =>
      case Creating =>
      case Fill(_) =>
      case _ =>
    }
  }

  lemma CreateKeepsPlace(s: Pool, t: nat, c: Choice, r: nat)
    requires Placed(s) && t < |s.threads|
    ensures Places(CreateStep(s, t, c), r) == if Alive(CreateStep(s, t, c), r) then 1 else 0
  {
    hide InHands, InChan;
    InHandsUpdate(s.threads, t, CreateStep(s, t, c).threads[t], r);
    assert Places(s, r) == if Alive(s, r) then 1 else 0;
    match s.threads[t] {
      case Owed =>
      case Creating =>
      case Fill(_) =>
      case _ =>
    }
  }

  lemma CreateKeepsUses(s: Pool, t: nat, c: Choice)
    requires UsesGood(s) && t < |s.threads|
    ensures UsesGood(CreateStep(s, t, c))
  {
    UsesFrame(s, CreateStep(s, t, c), t, 0);
  }

  lemma CreateKeepsCloses(s: Pool, t: nat, c: Choice)
    requires Placed(s) && ClosesGood(s) && t < |s.threads|
    ensures ClosesGood(CreateStep(s, t, c))
  {
    hide Placed;
    match s.threads[t] {
      case Owed =>
      case Creating =>
      case Fill(_) =>
      case _ =>
    }
  }

  lemma CreateKeepsInv(s: Pool, t: nat, c: Choice)
    requires Inv(s) && t < |s.threads|
    ensures Inv(CreateStep(s, t, c))
  {
    hide CreateStep, Places, Alive;
    CreateKeepsFlags(s, t, c);
    CreateKeepsConserved(s, t, c);
    CreateKeepsUses(s, t, c);
    CreateKeepsCloses(s, t, c);
    forall r: nat
      ensures Places(CreateStep(s, t, c), r) == if Alive(CreateStep(s, t, c), r) then 1 else 0
    {
      CreateKeepsPlace(s, t, c, r);
    }
  }

  lemma SendKeepsFlags(s: Pool, t: nat, c: Choice)
    requires Flags(s) && t < |s.threads|
    ensures Flags(SendStep(s, t, c))
  {
    match s.threads[t] {
      case RelOpen(_) => FlagsFrame(s, SendStep(s, t, c), t);
      case Created(_) => FlagsFrame(s, SendStep(s, t, c), t);
      case FillCreated(_, _) => FlagsFrame(s, SendStep(s, t, c), t);
      case _ =>
    }
  }

  lemma SendKeepsConserved(s: Pool, t: nat, c: Choice)
    requires Conserved(s) && ActiveGood(s) && t < |s.threads|
    ensures Conserved(SendStep(s, t, c)) && ActiveGood(SendStep(s, t, c))
  {
    var pc := s.threads[t];
    if pc.RelOpen? {
      ReturnMoves(s, t, c);
      MovedKeepsConserved(s, SendStep(s, t, c), t);
    } else if pc.Created? {
      ReplaceMoves(s, t, c);
      MovedKeepsConserved(s, SendStep(s, t, c), t);
    } else if pc.FillCreated? {
      FillMoves(s, t, c);
      MovedKeepsConserved(s, SendStep(s, t, c), t);
    }
  }

  lemma MovedKeepsConserved(s: Pool, s': Pool, t: nat)
    requires Conserved(s) && ActiveGood(s) && SlotMoved(s, s', t)
    ensures Conserved(s') && ActiveGood(s')
  {
    hide Load, Held;
    SumsUpdate(s.threads, t, s'.threads[t]);
  }

  // s' has at most the slot of thread t more in the channel, and hands nothing out.
  ghost predicate SlotMoved(s: Pool, s': Pool, t: nat) {
    && t < |s.threads| == |s'.threads| && s'.threads == s.threads[t := s'.threads[t]]
    && |s'.chan| + Weight(s'.threads[t]) <= |s.chan| + Weight(s.threads[t])
    && HeldOne(s'.threads[t]) == HeldOne(s.threads[t])
    && s'.size == s.size && s'.active == s.active && s'.rolledBack == s.rolledBack
  }

  lemma ReturnMoves(s: Pool, t: nat, c: Choice)
    requires t < |s.threads| && s.threads[t].RelOpen?
    ensures SlotMoved(s, SendStep(s, t, c), t)
  {
  }

  lemma ReplaceMoves(s: Pool, t: nat, c: Choice)
    requires t < |s.threads| && s.threads[t].Created?
    ensures SlotMoved(s, SendStep(s, t, c), t)
  {
  }

  lemma FillMoves(s: Pool, t: nat, c: Choice)
    requires t < |s.threads| && s.threads[t].FillCreated?
    ensures SlotMoved(s, SendStep(s, t, c), t)
  {
  }

  lemma ReturnPlace(s: Pool, t: nat, c: Choice, r: nat)
    requires Conserved(s) && Placed(s) && t < |s.threads| && s.threads[t].RelOpen?
    ensures Places(SendStep(s, t, c), r) == if Alive(SendStep(s, t, c), r) then 1 else 0
  {
    hide Load, InHands, InChan;
    SumsUpdate(s.threads, t, Done);   // there is room
    InHandsUpdate(s.threads, t, SendStep(s, t, c).threads[t], r);
    assert Places(s, r) == if Alive(s, r) then 1 else 0;
    InChanPush(s.chan, s.threads[t].r, r);
  }

  lemma ReplacePlace(s: Pool, t: nat, c: Choice, r: nat)
    requires Conserved(s) && Placed(s) && t < |s.threads| && s.threads[t].Created?
    ensures Places(SendStep(s, t, c), r) == if Alive(SendStep(s, t, c), r) then 1 else 0
  {
    hide Load, InHands, InChan;
    SumsUpdate(s.threads, t, Done);   // there is room
    InHandsUpdate(s.threads, t, SendStep(s, t, c).threads[t], r);
    assert Places(s, r) == if Alive(s, r) then 1 else 0;
    InChanPush(s.chan, s.threads[t].r, r);
  }

  lemma FillPlace(s: Pool, t: nat, c: Choice, r: nat)
    requires Conserved(s) && Placed(s) && t < |s.threads| && s.threads[t].FillCreated?
    ensures Places(SendStep(s, t, c), r) == if Alive(SendStep(s, t, c), r) then 1 else 0
  {
    hide Load, InHands, InChan;
    SumsUpdate(s.threads, t, Done);   // there is room
    InHandsUpdate(s.threads, t, SendStep(s, t, c).threads[t], r);
    assert Places(s, r) == if Alive(s, r) then 1 else 0;
    InChanPush(s.chan, s.threads[t].r, r);
  }

  lemma SendKeepsPlace(s: Pool, t: nat, c: Choice, r: nat)
    requires Conserved(s) && Placed(s) && t < |s.threads|
    ensures Places(SendStep(s, t, c), r) == if Alive(SendStep(s, t, c), r) then 1 else 0
  {
    match s.threads[t] {
      case RelOpen(_) => ReturnPlace(s, t, c, r);
      case Created(_) => ReplacePlace(s, t, c, r);
      case FillCreated(_, _) => FillPlace(s, t, c, r);
      case _ => assert Places(s, r) == if Alive(s, r) then 1 else 0;
    }
  }

  lemma SendKeepsUses(s: Pool, t: nat, c: Choice)
    requires UsesGood(s) && t < |s.threads|
    ensures UsesGood(SendStep(s, t, c))
  {
    var pc := s.threads[t];
    if pc.RelOpen? || pc.Created? || pc.FillCreated? {
      SendKeepsCounts(s, t, c);
      assert UsesLeft(pc) ==> !Exhausted(s, pc.r);
      hide SendStep, Exhausted;
      UsesFrame(s, SendStep(s, t, c), t, pc.r);
    }
  }

  // A send touches no use counter, and puts at most its own runner into the channel.
  lemma SendKeepsCounts(s: Pool, t: nat, c: Choice)
    requires t < |s.threads|
    requires s.threads[t].RelOpen? || s.threads[t].Created? || s.threads[t].FillCreated?
    ensures var s', r := SendStep(s, t, c), s.threads[t].r;
      && |s'.runners| == |s.runners| && (forall y :: 0 <= y < |s.runners| ==> s'.runners[y].uses == s.runners[y].uses)
      && |s'.threads| == |s.threads| && s'.threads == s.threads[t := s'.threads[t]]
      && !UsesLeft(s'.threads[t])
      && (s'.chan == s.chan || (s'.chan == s.chan + [r] && (s.threads[t].RelOpen? ==> !Exhausted(s', r))))
      && (Exhausted(s', r) <==> Exhausted(s, r))
  {
    match s.threads[t] {
      case RelOpen(_) =>
      case Created(_) =>
      case FillCreated(_, _) =>
    }
  }

  lemma SendKeepsCloses(s: Pool, t: nat, c: Choice)
    requires Placed(s) && ClosesGood(s) && t < |s.threads|
    ensures ClosesGood(SendStep(s, t, c))
  {
    hide Placed;
    match s.threads[t] {
      case RelOpen(_) => HandAlive(s, t);
      case Created(_) => HandAlive(s, t);
      case FillCreated(_, _) => HandAlive(s, t);
      case _ =>
    }
  }

  lemma SendKeepsInv(s: Pool, t: nat, c: Choice)
    requires Inv(s) && t < |s.threads|
    ensures Inv(SendStep(s, t, c))
  {
    hide SendStep, Places, Alive;
    SendKeepsFlags(s, t, c);
    SendKeepsConserved(s, t, c);
    SendKeepsUses(s, t, c);
    SendKeepsCloses(s, t, c);
    forall r: nat
      ensures Places(SendStep(s, t, c), r) == if Alive(SendStep(s, t, c), r) then 1 else 0
    {
      SendKeepsPlace(s, t, c, r);
    }
  }

  lemma DrainKeepsFlags(s: Pool, t: nat, c: Choice)
    requires Flags(s) && t < |s.threads|
    ensures Flags(DrainStep(s, t, c))
  {
    match s.threads[t] {
      case DrainStart =>
      case DrainWait =>
      case DrainClosing =>
      case DrainSweep =>
      case _ =>
    }
  }

  lemma DrainKeepsConserved(s: Pool, t: nat, c: Choice)
    requires Conserved(s) && ActiveGood(s) && t < |s.threads|
    ensures Conserved(DrainStep(s, t, c)) && ActiveGood(DrainStep(s, t, c))
  {
    hide Load, Held;
    SumsUpdate(s.threads, t, DrainStep(s, t, c).threads[t]);
    match s.threads[t] {
      case DrainStart =>
      case DrainWait =>
      case DrainClosing =>
      case DrainSweep =>
      case _ =>
    }
  }

  lemma DrainKeepsPlace(s: Pool, t: nat, c: Choice, r: nat)
    requires Placed(s) && t < |s.threads|
    ensures Places(DrainStep(s, t, c), r) == if Alive(DrainStep(s, t, c), r) then 1 else 0
  {
    hide InHands, InChan;
    InHandsUpdate(s.threads, t, DrainStep(s, t, c).threads[t], r);
    assert Places(s, r) == if Alive(s, r) then 1 else 0;
    match s.threads[t] {
      case DrainStart =>
      case DrainWait =>
      case DrainClosing =>
      case DrainSweep =>
        if s.chan != [] {
          InChanPop(s.chan, r);
        }
      case _ =>
    }
  }

  lemma DrainKeepsUses(s: Pool, t: nat, c: Choice)
    requires UsesGood(s) && t < |s.threads|
    ensures UsesGood(DrainStep(s, t, c))
  {
    DrainKeepsCounts(s, t, c);
    hide DrainStep, Exhausted;
    UsesFrame(s, DrainStep(s, t, c), t, 0);
  }

  // Draining touches no use counter, and takes only the head of the channel.
  lemma DrainKeepsCounts(s: Pool, t: nat, c: Choice)
    requires t < |s.threads|
    ensures var s' := DrainStep(s, t, c);
      && |s'.runners| == |s.runners| && (forall y :: 0 <= y < |s.runners| ==> s'.runners[y].uses == s.runners[y].uses)
      && |s'.threads| == |s.threads| && s'.threads == s.threads[t := s'.threads[t]]
      && (UsesLeft(s'.threads[t]) ==> s'.threads[t] == s.threads[t])
      && (s'.chan == s.chan || (s.chan != [] && s'.chan == s.chan[1..]))
  {
    if s.threads[t].DrainSweep? && s.chan != [] {
      SweepKeepsCounts(s, t, c);
    }
  }

  lemma SweepKeepsCounts(s: Pool, t: nat, c: Choice)
    requires t < |s.threads| && s.threads[t].DrainSweep? && s.chan != []
    ensures var s' := DrainStep(s, t, c);
      && |s'.runners| == |s.runners| && (forall y :: 0 <= y < |s.runners| ==> s'.runners[y].uses == s.runners[y].uses)
      && s'.threads == s.threads && s'.chan == s.chan[1..]
  {
  }

  lemma DrainKeepsCloses(s: Pool, t: nat, c: Choice)
    requires Placed(s) && ClosesGood(s) && t < |s.threads|
    ensures ClosesGood(DrainStep(s, t, c))
  {
    hide Placed;
    match s.threads[t] {
      case DrainStart =>
      case DrainWait =>
      case DrainClosing =>
      case DrainSweep =>
        if s.chan != [] {
          ChanAlive(s, 0);
        }
      case _ =>
    }
  }

  lemma DrainKeepsInv(s: Pool, t: nat, c: Choice)
    requires Inv(s) && t < |s.threads|
    ensures Inv(DrainStep(s, t, c))
  {
    hide DrainStep, Places, Alive;
    DrainKeepsFlags(s, t, c);
    DrainKeepsConserved(s, t, c);
    DrainKeepsUses(s, t, c);
    DrainKeepsCloses(s, t, c);
    forall r: nat
      ensures Places(DrainStep(s, t, c), r) == if Alive(DrainStep(s, t, c), r) then 1 else 0
    {
      DrainKeepsPlace(s, t, c, r);
    }
  }

  lemma NextKeepsInv(s: Pool, e: Event)
    requires Inv(s)
    ensures Inv(Next(s, e))
  {
    hide Inv, MoveStep;
    match e
    case EnterAcquire => EnterKeepsInv(s, AcqStart);
    case EnterDrain => EnterKeepsInv(s, DrainStart);
    case Move(t, c) =>
      if t < |s.threads| {
        MoveKeepsInv(s, t, c);
      }
  }

  lemma MoveKeepsInv(s: Pool, t: nat, c: Choice)
    requires Inv(s) && t < |s.threads|
    ensures Inv(MoveStep(s, t, c))
  {
    hide Inv, AcquireStep, AdmitStep, ReleaseStep, SignalStep, CreateStep, SendStep, DrainStep;
    AcquireKeepsInv(s, t, c);
    AdmitKeepsInv(s, t, c);
    ReleaseKeepsInv(s, t, c);
    SignalKeepsInv(s, t, c);
    CreateKeepsInv(s, t, c);
    SendKeepsInv(s, t, c);
    DrainKeepsInv(s, t, c);
  }

  lemma EnterKeepsInv(s: Pool, pc: Pc)
    requires Inv(s) && (pc == AcqStart || pc == DrainStart)
    ensures Inv(s.(threads := s.threads + [pc]))
  {
    hide Held, Load, InChan, InHands;
    var s' := s.(threads := s.threads + [pc]);
    SumsAppend(s.threads, pc);
    forall r: nat
      ensures Places(s', r) == if Alive(s', r) then 1 else 0
    {
      assert Places(s', r) == Places(s, r);
    }
  }

  lemma {:induction false} RunKeepsInv(s: Pool, events: seq<Event>)
    requires Inv(s)
    ensures Inv(Run(s, events))
    decreases |events|
  {
    if events != [] {
      NextKeepsInv(s, events[0]);
      RunKeepsInv(Next(s, events[0]), events[1..]);
    }
  }
}
