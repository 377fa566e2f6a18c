/** Exactly which steps of handleMessage lose an event. */
module ConsumerDrops {
  import opened Consumer

  // Message m is the last copy of k that is not acked, and k has nothing to show for it yet.
  predicate LastCopy(s: State, m: nat, k: string) {
    && m < |s.msgs| && s.msgs[m].key == k && !s.msgs[m].malformed && !s.msgs[m].acked
    && s.effects[k] == 0 && s.dlq[k] == 0
    && forall i :: 0 <= i < |s.msgs| && i != m && s.msgs[i].key == k && !s.msgs[i].malformed ==> s.msgs[i].acked
  }

  /**
   A step drops k: the last copy is acked as a duplicate although the key's owner
   has not succeeded, or after its dead-letter publish failed.
   */
  predicate Drops(s: State, e: Event, k: string) {
    e.Move? && e.h < |s.handlers| && LastCopy(s, s.handlers[e.h].msg, k)
    && ((s.handlers[e.h].stage.Start? && e.outcome.Good? && k in s.keys)
        || (s.handlers[e.h].stage.DeadLettering? && e.outcome.Bad?))
  }

  predicate Acks(s: State, h: nat, good: bool)
    requires h < |s.handlers| && s.handlers[h].msg < |s.msgs|
  {
    match s.handlers[h].stage
    case Start => good && !s.msgs[s.handlers[h].msg].malformed && KeyOf(s, h) in s.keys
    case Processing => good
    case DeadLettering => true
    case _ => false
  }

  lemma CallEffect(s: State, h: nat, good: bool)
    requires h < |s.handlers| && s.handlers[h].msg < |s.msgs|
    ensures var s', m, k := CallStep(s, h, good), s.handlers[h].msg, KeyOf(s, h);
      && s'.msgs == s.msgs[m := s.msgs[m].(acked := s.msgs[m].acked || Acks(s, h, good))]
      && s'.effects == (if s.handlers[h].stage.Processing? && good then s.effects + multiset{k} else s.effects)
      && s'.dlq == (if s.handlers[h].stage.DeadLettering? && good && !s.msgs[m].malformed then s.dlq + multiset{k} else s.dlq)
  {
    match s.handlers[h].stage {
      case Start =>
      case Processing =>
      case Failed =>
      case Counting =>
      case DeadLettering =>
      case Finished =>
    }
  }

  lemma CallDrops(s: State, h: nat, good: bool, k: string)
    requires MsgsExist(s) && Accounted(s, k) && h < |s.handlers|
    ensures Accounted(CallStep(s, h, good), k) <==> !Drops(s, Move(h, if good then Good else Bad), k)
  {
    CallEffect(s, h, good);
    var s', m := CallStep(s, h, good), s.handlers[h].msg;
    var e := Move(h, if good then Good else Bad);
    hide CallStep;
    if Drops(s, e, k) {
      assert forall i :: 0 <= i < |s.msgs| && s'.msgs[i].key == k && !s'.msgs[i].malformed ==> s'.msgs[i].acked;
    } else if s.effects[k] == 0 && s.dlq[k] == 0 {
      var i :| 0 <= i < |s.msgs| && s.msgs[i].key == k && !s.msgs[i].malformed && !s.msgs[i].acked;
      if i == m && !LastCopy(s, m, k) {
        var other :| 0 <= other < |s.msgs| && other != m && s.msgs[other].key == k && !s.msgs[other].malformed && !s.msgs[other].acked;
        assert s'.msgs[other] == s.msgs[other];
      } else {
        assert i != m ==> s'.msgs[i] == s.msgs[i];
        assert i == m && !Acks(s, h, good) ==> !s'.msgs[i].acked && s'.msgs[i].key == k && !s'.msgs[i].malformed;
      }
    }
  }

  /** A key that is accounted for stays so by a step exactly when the step does not drop it. */
  lemma DropsExactly(s: State, e: Event, k: string)
    requires MsgsExist(s) && Accounted(s, k)
    ensures Accounted(Next(s, e), k) <==> !Drops(s, e, k)
  {
    var s' := Next(s, e);
    if e.Move? && e.h < |s.handlers| {
      CallEffect(s, e.h, true);
      CallDrops(s, e.h, true, k);
      CallDrops(s, e.h, false, k);
      hide CallStep;
      if e.outcome.Crash? || e.outcome.LateCrash? {
        assert s'.msgs == s.msgs;
        StillUnacked(s, s', k);
      }
    } else {
      assert forall i :: 0 <= i < |s.msgs| ==> s'.msgs[i] == s.msgs[i];
      StillUnacked(s, s', k);
    }
  }

  lemma StillUnacked(s: State, s': State, k: string)
    requires |s.msgs| <= |s'.msgs| && forall i :: 0 <= i < |s.msgs| ==> s'.msgs[i] == s.msgs[i]
    ensures Unacked(s, k) ==> Unacked(s', k)
  {
    if Unacked(s, k) {
      var i :| 0 <= i < |s.msgs| && s.msgs[i].key == k && !s.msgs[i].malformed && !s.msgs[i].acked;
      assert s'.msgs[i] == s.msgs[i];
    }
  }

  ghost predicate HasArrived(s: State, k: string) {
    exists m :: 0 <= m < |s.msgs| && s.msgs[m].key == k && !s.msgs[m].malformed
  }

  // At every moment of the run the key, once it has arrived, is accounted for.
  ghost predicate AlwaysAccounted(s: State, events: seq<Event>, k: string)
    decreases |events|
  {
    (HasArrived(s, k) ==> Accounted(s, k)) && (events == [] || AlwaysAccounted(Next(s, events[0]), events[1..], k))
  }

  ghost predicate NoneDrops(s: State, events: seq<Event>, k: string)
    decreases |events|
  {
    events == [] || (!Drops(s, events[0], k) && NoneDrops(Next(s, events[0]), events[1..], k))
  }

  // Messages keep their keys, and handlers their messages.
  ghost predicate Keeps(s: State, s': State) {
    && MsgsExist(s') && |s.msgs| <= |s'.msgs|
    && forall m :: 0 <= m < |s.msgs| ==> s'.msgs[m].key == s.msgs[m].key && s'.msgs[m].malformed == s.msgs[m].malformed
  }

  lemma CallKeeps(s: State, h: nat, good: bool)
    requires MsgsExist(s) && h < |s.handlers|
    ensures Keeps(s, CallStep(s, h, good)) && h < |CallStep(s, h, good).handlers|
    ensures Keeps(s, Go(CallStep(s, h, good), h, Finished).(msgs := s.msgs))
  {
    match s.handlers[h].stage {
      case Start =>
      case Processing =>
      case Failed =>
      case Counting =>
      case DeadLettering =>
      case Finished =>
    }
  }

  lemma MessagesKeep(s: State, e: Event)
    requires MsgsExist(s)
    ensures Keeps(s, Next(s, e))
  {
    match e
    case Arrive(_, _) =>
    case Deliver(_) =>
    case Purge(_) =>
    case Move(h, outcome) =>
      if h < |s.handlers| {
        CallKeeps(s, h, true);
        CallKeeps(s, h, false);
        hide CallStep;
      }
  }

  // What a step does to an event that has arrived, or arrives by it.
  lemma ArrivedStays(s: State, e: Event, k: string)
    requires MsgsExist(s)
    ensures MsgsExist(Next(s, e))
    ensures HasArrived(s, k) ==> HasArrived(Next(s, e), k)
    ensures !HasArrived(s, k) && HasArrived(Next(s, e), k) ==> Accounted(Next(s, e), k)
    ensures Drops(s, e, k) ==> HasArrived(s, k)
  {
    MessagesKeep(s, e);
    var s' := Next(s, e);
    if e.Arrive? {
      assert s'.msgs[|s.msgs|] == Message(e.key, e.malformed, false);
    } else {
      assert |s'.msgs| == |s.msgs| by {
        SameMessages(s, e);
      }
    }
    hide Next, Drops, MsgsExist;
    if HasArrived(s, k) {
      var m :| 0 <= m < |s.msgs| && s.msgs[m].key == k && !s.msgs[m].malformed;
      assert s'.msgs[m].key == k && !s'.msgs[m].malformed;
    } else {
      assert forall m :: 0 <= m < |s.msgs| ==> !(s.msgs[m].key == k && !s.msgs[m].malformed);
    }
    DropNeedsCopy(s, e, k);
  }

  lemma DropNeedsCopy(s: State, e: Event, k: string)
    ensures Drops(s, e, k) ==> HasArrived(s, k)
  {
  }

  lemma SameMessages(s: State, e: Event)
    requires !e.Arrive? && MsgsExist(s)
    ensures |Next(s, e).msgs| == |s.msgs|
  {
    if e.Move? && e.h < |s.handlers| {
      CallEffect(s, e.h, true);
      CallEffect(s, e.h, false);
    }
  }

  lemma {:induction false} DroppedExactlyFrom(s: State, events: seq<Event>, k: string)
    requires MsgsExist(s) && (HasArrived(s, k) ==> Accounted(s, k))
    ensures AlwaysAccounted(s, events, k) <==> NoneDrops(s, events, k)
    decreases |events|
  {
    hide MsgsExist, Accounted, HasArrived, Drops, Next;
    if events != [] {
      var e := events[0];
      ArrivedStays(s, e, k);
      if HasArrived(s, k) {
        DropsExactly(s, e, k);
      }
      if !Drops(s, e, k) {
        DroppedExactlyFrom(Next(s, e), events[1..], k);
      }
    }
  }

  /**
   Over every run, with crashes, early redeliveries, purged keys and failures of
   every call: at every moment an event that has arrived has succeeded, was
   dead-lettered or has an unacked message exactly when no step drops it.
   */
  lemma DroppedExactly(events: seq<Event>, k: string)
    ensures AlwaysAccounted(Empty, events, k) <==> NoneDrops(Empty, events, k)
  {
    DroppedExactlyFrom(Empty, events, k);
  }
}
