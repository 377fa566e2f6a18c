/**
 Replay of dead-lettered messages, internal/adapter/nats/dlq_replay.go. The
 channel is a finite sequence of messages that then closes; cancellation,
 publish outcomes and fresh IDs are given by position in that sequence.
 */
module DlqReplay {
  const UNLIMITED_REPLAY_BOUND: int := 1_000_000

  datatype Payload = Payload(msgId: string, subject: string, entityId: string, original: string)

  datatype Message = Malformed | Parsed(payload: Payload)

  datatype Options = Options(limit: int, filterSubject: string, filterEntity: string, dryRun: bool, delay: int)

  // The broker's answer to a re-publish: stored, acknowledged as a duplicate of a
  // message it has seen in its window and not stored, or refused.
  datatype Answer = Stored | Duplicate | Refused

  datatype Publication = Publication(subject: string, msgId: string, body: string)

  datatype Stop = Finished | Cancelled | PublishFailed(subject: string) | SubscribeFailed

  datatype Tally = Tally(replayed: nat, skipped: nat, errors: nat, matched: seq<Payload>)

  datatype World = World(
    cancelled: nat -> bool,         // the select before this message takes the cancellation
    cancelledInDelay: nat -> bool,  // cancelled in the pause after this message
    publish: nat -> Answer,
    newId: nat -> string)

  predicate OccursAt(s: string, part: string, i: nat) {
    i + |part| <= |s| && s[i..i + |part|] == part
  }

  predicate Contains(s: string, part: string) {
    exists i :: 0 <= i <= |s| && OccursAt(s, part, i)
  }

  /** A filter left empty matches everything, as the subject filter would anyway. */
  predicate MatchesFilter(p: Payload, opts: Options)
    ensures MatchesFilter(p, opts) <==>
      Contains(p.subject, opts.filterSubject) && (opts.filterEntity == "" || p.entityId == opts.filterEntity)
  {
    assert OccursAt(p.subject, "", 0);
    if opts.filterSubject != "" && !Contains(p.subject, opts.filterSubject) then false
    else if opts.filterEntity != "" && p.entityId != opts.filterEntity then false
    else true
  }

  predicate Selected(m: Message, opts: Options) {
    m.Parsed? && MatchesFilter(m.payload, opts)
  }

  // The payloads that parse and pass the filter, in order.
  function Matching(ms: seq<Message>, opts: Options): (r: seq<Payload>)
    ensures |r| <= |ms|
  {
    if ms == [] then []
    else
      var n := |ms| - 1;
      var before := Matching(ms[..n], opts);
      if Selected(ms[n], opts) then before + [ms[n].payload] else before
  }

  function CountMalformed(ms: seq<Message>): nat {
    if ms == [] then 0 else CountMalformed(ms[..|ms| - 1]) + if ms[|ms| - 1].Malformed? then 1 else 0
  }

  // What is sent for a payload at a position: its own ID if it has one.
  function Outgoing(p: Payload, i: nat, w: World): Publication {
    Publication(p.subject, if p.msgId != "" then p.msgId else w.newId(i), p.original)
  }

  function Publications(ms: seq<Message>, opts: Options, w: World): seq<Publication> {
    if ms == [] then []
    else
      var n := |ms| - 1;
      var before := Publications(ms[..n], opts, w);
      if Selected(ms[n], opts) then before + [Outgoing(ms[n].payload, n, w)] else before
  }

  function CountTrue(acks: seq<bool>): (n: nat)
    ensures n <= |acks|
  {
    if acks == [] then 0 else CountTrue(acks[..|acks| - 1]) + if acks[|acks| - 1] then 1 else 0
  }

  lemma CountTrueSnoc(acks: seq<bool>, b: bool)
    ensures CountTrue(acks + [b]) == CountTrue(acks) + if b then 1 else 0
  {
    assert (acks + [b])[..|acks|] == acks;
  }

  lemma {:induction false} MatchingPrefix(ms: seq<Message>, k: nat, opts: Options)
    requires k <= |ms|
    ensures |Matching(ms[..k], opts)| <= |Matching(ms, opts)|
    ensures Matching(ms[..k], opts) == Matching(ms, opts)[..|Matching(ms[..k], opts)|]
  {
    if k < |ms| {
      var n := |ms| - 1;
      assert ms[..n][..k] == ms[..k];
      MatchingPrefix(ms[..n], k, opts);
    } else {
      assert ms[..k] == ms;
    }
  }

  // The messages still in the stream: those given back, and those not received.
  function Left(ms: seq<Message>, acks: seq<bool>): seq<Message>
    requires |acks| <= |ms|
  {
    GivenBack(ms[..|acks|], acks) + ms[|acks|..]
  }

  function GivenBack(ms: seq<Message>, acks: seq<bool>): seq<Message>
    requires |ms| == |acks|
  {
    if ms == [] then []
    else
      var n := |ms| - 1;
      var before := GivenBack(ms[..n], acks[..n]);
      if acks[n] then before else before + [ms[n]]
  }

  function IsPayload(m: Message, p: Payload): nat {
    if m == Parsed(p) then 1 else 0
  }

  function CountPayload(ms: seq<Message>, p: Payload): nat {
    if ms == [] then 0 else CountPayload(ms[..|ms| - 1], p) + IsPayload(ms[|ms| - 1], p)
  }

  lemma {:induction false} CountPayloadConcat(a: seq<Message>, b: seq<Message>, p: Payload)
    ensures CountPayload(a + b, p) == CountPayload(a, p) + CountPayload(b, p)
  {
    if b == [] {
      assert a + b == a;
    } else {
      var n := |b| - 1;
      assert (a + b)[..|a + b| - 1] == a + b[..n];
      CountPayloadConcat(a, b[..n], p);
    }
  }

  // Which messages are acknowledged: all that are malformed or selected.
  ghost predicate AcksSelected(ms: seq<Message>, acks: seq<bool>, opts: Options) {
    |acks| == |ms| && forall i :: 0 <= i < |acks| ==> acks[i] == (ms[i].Malformed? || Selected(ms[i], opts))
  }

  lemma {:induction false} ReceivedConserved(ms: seq<Message>, acks: seq<bool>, opts: Options, p: Payload)
    requires AcksSelected(ms, acks, opts)
    ensures CountPayload(ms, p) == multiset(Matching(ms, opts))[p] + CountPayload(GivenBack(ms, acks), p)
  {
    if ms != [] {
      var n := |ms| - 1;
      ReceivedConserved(ms[..n], acks[..n], opts, p);
      var back := GivenBack(ms[..n], acks[..n]);
      if !acks[n] {
        CountPayloadConcat(back, [ms[n]], p);
        assert CountPayload([ms[n]], p) == IsPayload(ms[n], p) by {
          assert [ms[n]][..0] == [];
        }
      }
    }
  }

  /**
   After k messages without a publish error: the matched payloads are those that
   parse and pass the filter, all re-published but in a dry run, and
   acknowledged with the malformed ones; the others are given back.
   */
  ghost predicate Handled(ms: seq<Message>, opts: Options, w: World, t: Tally, published: seq<Publication>, acks: seq<bool>) {
    && AcksSelected(ms, acks, opts)
    && t.matched == Matching(ms, opts) && t.replayed == |t.matched| && t.errors == 0
    && CountTrue(acks) == CountMalformed(ms) + t.replayed
    && |acks| == CountTrue(acks) + t.skipped
    && published == if opts.dryRun then [] else Publications(ms, opts, w)
  }

  // What the handling of one more message adds, when its publish, if any, succeeds.
  function Add(t: Tally, m: Message, opts: Options): Tally {
    if m.Malformed? then t
    else if MatchesFilter(m.payload, opts) then t.(matched := t.matched + [m.payload], replayed := t.replayed + 1)
    else t.(skipped := t.skipped + 1)
  }

  lemma HandledStep(ms: seq<Message>, opts: Options, w: World, t: Tally, published: seq<Publication>, acks: seq<bool>, m: Message)
    requires Handled(ms, opts, w, t, published, acks)
    ensures Handled(ms + [m], opts, w, Add(t, m, opts),
                    if Selected(m, opts) && !opts.dryRun then published + [Outgoing(m.payload, |ms|, w)] else published,
                    acks + [m.Malformed? || Selected(m, opts)])
  {
    hide Matching, Publications, CountMalformed, CountTrue, AcksSelected;
    hide MatchesFilter, Outgoing;
    SnocCounts(ms, opts, w, m);
    SnocAcks(ms, acks, opts, m);
    CountTrueSnoc(acks, m.Malformed? || Selected(m, opts));
  }

  lemma SnocCounts(ms: seq<Message>, opts: Options, w: World, m: Message)
    ensures Matching(ms + [m], opts) == if Selected(m, opts) then Matching(ms, opts) + [m.payload] else Matching(ms, opts)
    ensures Publications(ms + [m], opts, w) ==
      if Selected(m, opts) then Publications(ms, opts, w) + [Outgoing(m.payload, |ms|, w)] else Publications(ms, opts, w)
    ensures CountMalformed(ms + [m]) == CountMalformed(ms) + if m.Malformed? then 1 else 0
  {
    hide MatchesFilter, Outgoing;
    assert (ms + [m])[..|ms|] == ms && (ms + [m])[|ms|] == m;
  }

  lemma SnocAcks(ms: seq<Message>, acks: seq<bool>, opts: Options, m: Message)
    requires AcksSelected(ms, acks, opts)
    ensures AcksSelected(ms + [m], acks + [m.Malformed? || Selected(m, opts)], opts)
  {
    hide MatchesFilter;
  }

  // How a replay ends: a publish error concerns the message received last, which is given back.
  ghost predicate Ended(ms: seq<Message>, opts: Options, w: World, t: Tally, stop: Stop, published: seq<Publication>, acks: seq<bool>) {
    && |acks| <= |ms|
    && if !stop.PublishFailed? then Handled(ms[..|acks|], opts, w, t, published, acks)
       else
         var k := |acks| - 1;
         && 0 <= k && !acks[k] && Selected(ms[k], opts) && w.publish(k).Refused? && !opts.dryRun && stop.subject == ms[k].payload.subject
         && t.replayed < |t.matched| && t.errors == 1 && t.matched == t.matched[..t.replayed] + [ms[k].payload]
         && Handled(ms[..k], opts, w, t.(matched := t.matched[..t.replayed], errors := 0), published, acks[..k])
  }

  /**
   The books of a replay, however it ended: every received message is
   acknowledged or given back; matched counts the payload that could not be
   re-published too.
   */
  lemma ReplayAccounts(ms: seq<Message>, opts: Options, w: World, t: Tally, stop: Stop, published: seq<Publication>, acks: seq<bool>)
    requires Ended(ms, opts, w, t, stop, published, acks)
    ensures t.matched == Matching(ms[..|acks|], opts) && |t.matched| == t.replayed + t.errors
    ensures t.errors == if stop.PublishFailed? then 1 else 0
    ensures CountTrue(acks) == CountMalformed(ms[..|acks|]) + t.replayed
    ensures |acks| - CountTrue(acks) == t.skipped + t.errors
    ensures published == if opts.dryRun then [] else Publications(ms[..|acks| - t.errors], opts, w)
  {
    if stop.PublishFailed? {
      var k := |acks| - 1;
      assert ms[..k + 1] == ms[..k] + [ms[k]] && ms[..k + 1][..k] == ms[..k];
      assert acks == acks[..k] + [false];
      CountTrueSnoc(acks[..k], false);
    }
  }

  // The payloads that the broker has stored.
  function StoredFrom(ms: seq<Message>, opts: Options, w: World): seq<Payload> {
    if ms == [] then []
    else
      var n := |ms| - 1;
      var before := StoredFrom(ms[..n], opts, w);
      if Selected(ms[n], opts) && !opts.dryRun && w.publish(n).Stored? then before + [ms[n].payload] else before
  }

  // Every message that was selected has been stored.
  predicate AllStored(ms: seq<Message>, opts: Options, w: World) {
    forall i :: 0 <= i < |ms| && Selected(ms[i], opts) ==> !opts.dryRun && w.publish(i).Stored?
  }

  lemma {:induction false} StoredExactly(ms: seq<Message>, opts: Options, w: World)
    ensures AllStored(ms, opts, w) ==> StoredFrom(ms, opts, w) == Matching(ms, opts)
    ensures !AllStored(ms, opts, w) ==> |StoredFrom(ms, opts, w)| < |Matching(ms, opts)|
    ensures |StoredFrom(ms, opts, w)| <= |Matching(ms, opts)|
  {
    if ms != [] {
      var n := |ms| - 1;
      StoredExactly(ms[..n], opts, w);
      hide MatchesFilter;
      assert forall i :: 0 <= i < n ==> ms[..n][i] == ms[i];
    }
  }

  // Of the messages received, those before one whose re-publish was refused.
  function Answered(ms: seq<Message>, t: Tally, acks: seq<bool>): seq<Message>
    requires t.errors <= |acks| <= |ms|
  {
    ms[..|acks| - t.errors]
  }

  // What an ended replay did with the messages it answered.
  lemma EndedShape(ms: seq<Message>, opts: Options, w: World, t: Tally, stop: Stop, published: seq<Publication>, acks: seq<bool>)
    requires Ended(ms, opts, w, t, stop, published, acks)
    ensures t.errors <= |acks| <= |ms| && t.errors <= 1 && t.replayed <= |t.matched|
    ensures t.matched[..t.replayed] == Matching(Answered(ms, t, acks), opts)
    ensures AcksSelected(Answered(ms, t, acks), acks[..|acks| - t.errors], opts)
    ensures t.errors == 1 ==> !acks[|acks| - 1]
  {
    hide Matching, Publications, CountMalformed, CountTrue;
    assert t.matched[..|t.matched|] == t.matched;
    assert acks[..|acks|] == acks;
  }

  // What left the stream acknowledged is what was matched and answered, payload by payload.
  lemma ReplayedOrLeft(ms: seq<Message>, opts: Options, w: World, t: Tally, stop: Stop, published: seq<Publication>, acks: seq<bool>, p: Payload)
    requires Ended(ms, opts, w, t, stop, published, acks)
    ensures t.errors <= |acks| <= |ms|
    ensures CountPayload(ms, p) == multiset(Matching(Answered(ms, t, acks), opts))[p] + CountPayload(Left(ms, acks), p)
  {
    hide Ended, Matching, GivenBack, CountPayload, AcksSelected, Left;
    EndedShape(ms, opts, w, t, stop, published, acks);
    var k := |acks| - t.errors;
    var back := GivenBack(ms[..k], acks[..k]);
    ReceivedConserved(ms[..k], acks[..k], opts, p);
    LeftIs(ms, acks, k);
    assert ms == ms[..k] + ms[k..];
    CountPayloadConcat(ms[..k], ms[k..], p);
    CountPayloadConcat(back, ms[k..], p);
  }

  // Every payload that was in the stream has been stored again or is still there.
  ghost predicate Conserved(ms: seq<Message>, opts: Options, w: World, t: Tally, acks: seq<bool>)
    requires t.errors <= |acks| <= |ms|
  {
    forall p: Payload ::
      CountPayload(ms, p) == multiset(StoredFrom(Answered(ms, t, acks), opts, w))[p] + CountPayload(Left(ms, acks), p)
  }

  /**
   However a replay ended, no payload is lost exactly when it was no dry run over
   a match and no re-publish was taken for a duplicate: in both cases the message
   is acknowledged although nothing was stored.
   */
  lemma ReplayConserves(ms: seq<Message>, opts: Options, w: World, t: Tally, stop: Stop, published: seq<Publication>, acks: seq<bool>)
    requires Ended(ms, opts, w, t, stop, published, acks)
    ensures t.errors <= |acks| <= |ms|
    ensures Conserved(ms, opts, w, t, acks) <==> AllStored(Answered(ms, t, acks), opts, w)
  {
    var done := Answered(ms, t, acks);
    EndedShape(ms, opts, w, t, stop, published, acks);
    StoredExactly(done, opts, w);
    forall p: Payload
      ensures CountPayload(ms, p) == multiset(Matching(done, opts))[p] + CountPayload(Left(ms, acks), p)
    {
      ReplayedOrLeft(ms, opts, w, t, stop, published, acks, p);
    }
    hide Matching, StoredFrom, Left, CountPayload, AllStored, Ended;
    if Conserved(ms, opts, w, t, acks) {
      forall p: Payload
        ensures multiset(Matching(done, opts))[p] == multiset(StoredFrom(done, opts, w))[p]
      {
        assert CountPayload(ms, p) == multiset(StoredFrom(done, opts, w))[p] + CountPayload(Left(ms, acks), p);
      }
      SameSize(Matching(done, opts), StoredFrom(done, opts, w));
    }
  }

  lemma SameSize(a: seq<Payload>, b: seq<Payload>)
    requires forall p: Payload :: multiset(a)[p] == multiset(b)[p]
    ensures |a| == |b|
  {
    assert multiset(a) == multiset(b);
    assert |multiset(a)| == |a| && |multiset(b)| == |b|;
  }

  /** The smallest loss: a dry run over one matching message leaves the stream empty and publishes nothing. */
  lemma DryRunLoses(p: Payload, opts: Options, w: World)
    requires opts.dryRun && MatchesFilter(p, opts)
    ensures Ended([Parsed(p)], opts, w, Tally(1, 0, 0, [p]), Finished, [], [true])
    ensures Left([Parsed(p)], [true]) == [] && !Conserved([Parsed(p)], opts, w, Tally(1, 0, 0, [p]), [true])
  {
    OneMatchEnds(p, opts, w);
    ReplayConserves([Parsed(p)], opts, w, Tally(1, 0, 0, [p]), Finished, [], [true]);
    NothingLeft(p);
    assert Answered([Parsed(p)], Tally(1, 0, 0, [p]), [true])[0] == Parsed(p);
  }

  /**
   The other one: a dead letter replayed while the broker still knows its message
   ID is acknowledged as a duplicate, not stored, and gone from the stream.
   */
  lemma DuplicateLoses(p: Payload, opts: Options, w: World)
    requires !opts.dryRun && MatchesFilter(p, opts) && w.publish(0).Duplicate?
    ensures Ended([Parsed(p)], opts, w, Tally(1, 0, 0, [p]), Finished, [Outgoing(p, 0, w)], [true])
    ensures Left([Parsed(p)], [true]) == [] && !Conserved([Parsed(p)], opts, w, Tally(1, 0, 0, [p]), [true])
  {
    OneMatchEnds(p, opts, w);
    ReplayConserves([Parsed(p)], opts, w, Tally(1, 0, 0, [p]), Finished, [Outgoing(p, 0, w)], [true]);
    NothingLeft(p);
    assert Answered([Parsed(p)], Tally(1, 0, 0, [p]), [true])[0] == Parsed(p);
  }

  lemma NothingLeft(p: Payload)
    ensures Left([Parsed(p)], [true]) == []
  {
    assert [true][..0] == [] && [Parsed(p)][..0] == [] && [Parsed(p)][1..] == [] && [Parsed(p)][..1] == [Parsed(p)];
    assert GivenBack([Parsed(p)], [true]) == GivenBack([], []) == [];
  }

  lemma OneMatchEnds(p: Payload, opts: Options, w: World)
    requires MatchesFilter(p, opts)
    ensures Ended([Parsed(p)], opts, w, Tally(1, 0, 0, [p]), Finished, if opts.dryRun then [] else [Outgoing(p, 0, w)], [true])
  {
    hide MatchesFilter, Handled;
    NothingHandled(opts, w);
    HandledStep([], opts, w, Tally(0, 0, 0, []), [], [], Parsed(p));
    assert [] + [Parsed(p)] == [Parsed(p)] && [] + [p] == [p] && [] + [true] == [true];
    assert [] + [Outgoing(p, 0, w)] == [Outgoing(p, 0, w)];
    assert [Parsed(p)][..1] == [Parsed(p)];
  }

  // A re-published message has the payload's subject, body and, if it has one, ID.
  predicate Carries(out: Publication, p: Payload) {
    out.subject == p.subject && out.body == p.original && (p.msgId != "" ==> out.msgId == p.msgId)
  }

  lemma LeftIs(ms: seq<Message>, acks: seq<bool>, k: nat)
    requires k <= |acks| <= |ms| && (k == |acks| || (k == |acks| - 1 && !acks[k]))
    ensures Left(ms, acks) == GivenBack(ms[..k], acks[..k]) + ms[k..]
  {
    if k == |acks| {
      assert acks[..k] == acks;
    } else {
      assert ms[..k + 1][..k] == ms[..k];
    }
  }

  // Nothing stopped the replay early.
  ghost predicate Undisturbed(ms: seq<Message>, opts: Options, w: World) {
    forall i :: 0 <= i <= |ms| ==> !w.cancelled(i) && !w.cancelledInDelay(i) && (opts.dryRun || !w.publish(i).Refused?)
  }

  /**
   The replay loop. `acks` says of each received message, in order, whether it
   was acknowledged or given back. It ends when the limit is reached or the
   channel is closed, unless something stops it.
   */
  method ReplayFromChannel(ms: seq<Message>, opts: Options, limit: int, w: World)
    returns (t: Tally, stop: Stop, published: seq<Publication>, acks: seq<bool>)
    ensures Ended(ms, opts, w, t, stop, published, acks) && !stop.SubscribeFailed?
    ensures limit >= 0 ==> |t.matched| <= limit
    ensures forall i :: 0 <= i < |acks| ==> !w.cancelled(i)
    ensures stop == Finished ==> t.replayed >= limit || (|acks| == |ms| && !w.cancelled(|ms|))
    ensures stop == Cancelled ==>
      || w.cancelled(|acks|)
      || (|acks| > 0 && Selected(ms[|acks| - 1], opts) && opts.delay > 0 && t.replayed < limit && w.cancelledInDelay(|acks| - 1))
    ensures Undisturbed(ms, opts, w) ==> stop == Finished
  {
    hide Handled, MatchesFilter;
    t := Tally(0, 0, 0, []);
    published, acks := [], [];
    NothingHandled(opts, w);
    var processed, i := 0, 0;
    while processed < limit
      invariant 0 <= i <= |ms| && |acks| == i && processed == t.replayed == |t.matched| && (limit >= 0 ==> processed <= limit)
      invariant Handled(ms[..i], opts, w, t, published, acks)
      invariant forall j :: 0 <= j < i ==> !w.cancelled(j)
      decreases |ms| - i
    {
      if w.cancelled(i) {
        return t, Cancelled, published, acks;
      }
      if i == |ms| {
        return t, Finished, published, acks;
      }
      var m := ms[i];
      HandledStep(ms[..i], opts, w, t, published, acks, m);
      assert ms[..i] + [m] == ms[..i + 1];
      i := i + 1;
      if m.Malformed? {
        acks := acks + [true];
        continue;
      }
      if !MatchesFilter(m.payload, opts) {
        t := t.(skipped := t.skipped + 1);
        acks := acks + [false];
        continue;
      }
      ghost var before := t;
      t := t.(matched := t.matched + [m.payload]);
      if opts.dryRun {
        acks := acks + [true];
        t := t.(replayed := t.replayed + 1);
        processed := processed + 1;
        continue;
      }
      var msgId := if m.payload.msgId == "" then w.newId(i - 1) else m.payload.msgId;
      if w.publish(i - 1).Refused? {
        ghost var was := acks;
        acks := acks + [false];
        t := t.(errors := t.errors + 1);
        HandledNoErrors(ms[..i - 1], opts, w, before, published, was);
        assert acks[..i - 1] == was && t.matched[..t.replayed] == before.matched;
        return t, PublishFailed(m.payload.subject), published, acks;
      }
      published := published + [Publication(m.payload.subject, msgId, m.payload.original)];
      acks := acks + [true];
      t := t.(replayed := t.replayed + 1);
      processed := processed + 1;
      if opts.delay > 0 && processed < limit && w.cancelledInDelay(i - 1) {
        return t, Cancelled, published, acks;
      }
    }
    return t, Finished, published, acks;
  }

  lemma NothingHandled(opts: Options, w: World)
    ensures Handled([], opts, w, Tally(0, 0, 0, []), [], [])
  {
  }

  lemma HandledNoErrors(ms: seq<Message>, opts: Options, w: World, t: Tally, published: seq<Publication>, acks: seq<bool>)
    requires Handled(ms, opts, w, t, published, acks)
    ensures t.errors == 0
  {
  }

  /**
   ReplayDLQMessages: a limit that is not positive stands for a million. When
   nothing interferes the payloads matched are exactly the first ones, up to the
   limit, of all that parse and match.
   */
  method ReplayDLQMessages(ms: seq<Message>, opts: Options, subscribes: bool, w: World)
    returns (t: Tally, stop: Stop, published: seq<Publication>, acks: seq<bool>)
    ensures !subscribes <==> stop == SubscribeFailed
    ensures !subscribes ==> t == Tally(0, 0, 0, []) && published == [] && acks == []
    ensures subscribes ==> Ended(ms, opts, w, t, stop, published, acks)
    ensures subscribes ==> |t.matched| <= |Matching(ms, opts)| && t.matched == Matching(ms, opts)[..|t.matched|]
    ensures subscribes && Undisturbed(ms, opts, w) ==>
      var limit := if opts.limit <= 0 then UNLIMITED_REPLAY_BOUND else opts.limit;
      stop == Finished && t.errors == 0 && |t.matched| == t.replayed == if |Matching(ms, opts)| < limit then |Matching(ms, opts)| else limit
  {
    var limit := if opts.limit <= 0 then UNLIMITED_REPLAY_BOUND else opts.limit;
    if !subscribes {
      return Tally(0, 0, 0, []), SubscribeFailed, [], [];
    }
    t, stop, published, acks := ReplayFromChannel(ms, opts, limit, w);
    ReplayAccounts(ms, opts, w, t, stop, published, acks);
    MatchingPrefix(ms, |acks|, opts);
    assert |acks| == |ms| ==> ms[..|acks|] == ms;
  }

  // The re-published messages carry the matched payloads, in order.
  lemma {:induction false} PublicationsMatch(ms: seq<Message>, opts: Options, w: World)
    ensures |Publications(ms, opts, w)| == |Matching(ms, opts)|
    ensures forall j :: 0 <= j < |Matching(ms, opts)| ==> Carries(Publications(ms, opts, w)[j], Matching(ms, opts)[j])
    ensures forall j :: 0 <= j < |Matching(ms, opts)| && Matching(ms, opts)[j].msgId == "" ==>
      exists i: nat :: i < |ms| && Publications(ms, opts, w)[j].msgId == w.newId(i)
  {
    if ms != [] {
      PublicationsMatch(ms[..|ms| - 1], opts, w);
    }
  }
}
