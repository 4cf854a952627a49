/**
 What a received frame does to everybody, in terms of queues and documents alone, and what a client is
 handed over a whole run: first in, first out.
 */
module CoeditFrames {
  import opened Wrappers
  import opened CoeditHub
  import opened CoeditRegistration

  const TAG_SYNC_STEP1: nat := 0
  const TAG_SYNC_STEP2: nat := 1
  const TAG_SYNC_UPDATE: nat := 2
  const TAG_AWARENESS_UPDATE: nat := 3

  /** A received frame after its tag byte; `doc` is None when the payload does not decode. */
  datatype Received = Empty | Tagged(tag: nat, doc: Option<Doc>, bytes: nat)

  /** The step a received frame stands for. */
  function EventOf(i: SubId, f: Received): Event {
    if f.Empty? then ReceiveMalformed(i)
    else if f.tag == TAG_SYNC_STEP1 && f.doc.Some? then ReceiveStep1(i, f.doc.value)
    else if (f.tag == TAG_SYNC_UPDATE || f.tag == TAG_SYNC_STEP2) && f.doc.Some? then ReceiveUpdate(i, f.doc.value)
    else if f.tag == TAG_AWARENESS_UPDATE then ReceiveAwareness(i, f.bytes)
    else ReceiveMalformed(i)
  }

  /** Every other subscriber of the list with fewer than 256 frames queued gets this one at the end of its queue. */
  predicate GetsFrame(s: Server, j: SubId, i: SubId) {
    && j in s.subs && i in s.subs && s.subs[i].hub in s.hubs
    && j != i && j in s.hubs[s.subs[i].hub].subscribers && |s.subs[j].outbound| < 256
  }

  /** An awareness frame goes to the others and changes nothing else; one with a full queue misses it. */
  ghost predicate RelaysAwareness(s: Server, t: Server, i: SubId, bytes: nat) {
    && t == s.(subs := t.subs) && t.subs.Keys == s.subs.Keys
    && (forall j :: j in s.subs ==>
          t.subs[j] == if GetsFrame(s, j, i)
                       then s.subs[j].(outbound := s.subs[j].outbound + [AwarenessUpdate(bytes)]) else s.subs[j])
  }

  /** An update joins the document, marks the hub dirty with its author, and goes to the others; one with a full queue
      is recorded as having missed it. */
  ghost predicate RelaysUpdate(s: Server, t: Server, i: SubId, payload: Doc)
    requires i in s.subs && s.subs[i].hub in s.hubs
  {
    var h := s.subs[i].hub;
    && t == s.(subs := t.subs, hubs := t.hubs) && t.subs.Keys == s.subs.Keys
    && t.hubs == s.hubs[h := s.hubs[h].(doc := s.hubs[h].doc + payload, dirty := true, author := Some(s.subs[i].user))]
    && t.subs[i] == s.subs[i].(accepted := s.subs[i].accepted + payload)
    && (forall j :: j in s.subs && j != i ==>
          t.subs[j] == if GetsFrame(s, j, i)
                       then s.subs[j].(outbound := s.subs[j].outbound + [SyncUpdate(payload)])
                       else if j in s.hubs[h].subscribers then s.subs[j].(overflowed := true)
                       else s.subs[j])
  }

  /** A state vector is answered, to its sender alone, with what the document holds beyond it. */
  ghost predicate Answers(s: Server, t: Server, i: SubId, sv: Doc)
    requires i in s.subs && s.subs[i].hub in s.hubs
  {
    var answer := SyncStep2(s.hubs[s.subs[i].hub].doc - sv);
    && t == s.(subs := t.subs) && t.subs.Keys == s.subs.Keys
    && (forall j :: j in s.subs && j != i ==> t.subs[j] == s.subs[j])
    && (var was, now := s.subs[i], t.subs[i];
        now == if |was.outbound| < 256
               then was.(outbound := was.outbound + [answer], overflowed := now.overflowed)
               else was.(awaiting := Some(answer), overflowed := now.overflowed))
  }

  /** What each tag byte means: 0 asks for the rest of the document, 1 and 2 bring an update, 3 is presence; empty
      frames, payloads that do not decode and other tags change nothing. */
  ghost predicate FrameEffect(s: Server, t: Server, i: SubId, f: Received)
    requires i in s.subs && s.subs[i].hub in s.hubs
  {
    if f.Tagged? && f.tag == 0 && f.doc.Some? then Answers(s, t, i, f.doc.value)
    else if f.Tagged? && (f.tag == 1 || f.tag == 2) && f.doc.Some? then RelaysUpdate(s, t, i, f.doc.value)
    else if f.Tagged? && f.tag == 3 then RelaysAwareness(s, t, i, f.bytes)
    else t == s
  }

  lemma UpdateEffect(s: Server, i: SubId, payload: Doc)
    requires Registration(s) && Receiving(s, i)
    ensures RelaysUpdate(s, Apply(s, ReceiveUpdate(i, payload)), i, payload)
  {
    assert Listed(s, i);
  }

  lemma AwarenessEffect(s: Server, i: SubId, bytes: nat)
    requires Registration(s) && Receiving(s, i)
    ensures RelaysAwareness(s, Apply(s, ReceiveAwareness(i, bytes)), i, bytes)
  {
  }

  lemma AnswerEffect(s: Server, i: SubId, sv: Doc)
    requires Receiving(s, i)
    ensures Answers(s, Apply(s, ReceiveStep1(i, sv)), i, sv)
  {
  }

  lemma StepHasEffect(s: Server, i: SubId, f: Received)
    requires Registration(s) && Receiving(s, i)
    ensures FrameEffect(s, Apply(s, EventOf(i, f)), i, f)
  {
    if f.Tagged? {
      if f.tag == 0 && f.doc.Some? { AnswerEffect(s, i, f.doc.value); }
      if (f.tag == 1 || f.tag == 2) && f.doc.Some? { UpdateEffect(s, i, f.doc.value); }
      if f.tag == 3 { AwarenessEffect(s, i, f.bytes); }
    }
  }

  // Over a run

  /** The frames one step puts into the queue of i. */
  function Queues(s: Server, e: Event, i: SubId): seq<Frame>
    requires Enabled(s, e) && i in s.subs
  {
    if e.ReceiveAwareness? && GetsFrame(s, i, e.i) then [AwarenessUpdate(e.bytes)]
    else if e.ReceiveUpdate? && GetsFrame(s, i, e.i) then [SyncUpdate(e.payload)]
    else if e.ReceiveStep1? && e.i == i && |s.subs[i].outbound| < 256 then [SyncStep2(s.hubs[s.subs[i].hub].doc - e.sv)]
    else if e.ResumePut? && e.i == i then [s.subs[i].awaiting.value]
    else []
  }

  /** The frame one step hands to client i. */
  function Hands(s: Server, e: Event, i: SubId): seq<Frame>
    requires Enabled(s, e) && i in s.subs
  {
    if e.PumpTake? && e.i == i then [s.subs[i].outbound[0]] else []
  }

  /** Subscriber i does not leave during the run. */
  ghost predicate Stays(es: seq<Event>, i: SubId) {
    forall k :: 0 <= k < |es| ==> es[k] != Release(i)
  }

  lemma StepKeepsSubscriber(s: Server, e: Event, i: SubId)
    requires Enabled(s, e) && i in s.subs && e != Release(i)
    ensures i in Apply(s, e).subs
  {
  }

  ghost function Queued(s: Server, es: seq<Event>, i: SubId): seq<Frame>
    requires ValidRun(s, es) && i in s.subs && Stays(es, i)
    decreases |es|
  {
    if es == [] then []
    else
      StepKeepsSubscriber(s, es[0], i);
      Queues(s, es[0], i) + Queued(Apply(s, es[0]), es[1..], i)
  }

  ghost function Handed(s: Server, es: seq<Event>, i: SubId): seq<Frame>
    requires ValidRun(s, es) && i in s.subs && Stays(es, i)
    decreases |es|
  {
    if es == [] then []
    else
      StepKeepsSubscriber(s, es[0], i);
      Hands(s, es[0], i) + Handed(Apply(s, es[0]), es[1..], i)
  }

  lemma FrameStepIsFifo(s: Server, e: Event, i: SubId)
    requires Registration(s) && Enabled(s, e) && i in s.subs
    requires e.ReceiveStep1? || e.ReceiveUpdate? || e.ReceiveAwareness? || e.PumpTake? || e.ResumePut?
    ensures s.subs[i].outbound + Queues(s, e, i) == Hands(s, e, i) + Apply(s, e).subs[i].outbound
  {
    match e
    case ReceiveUpdate(j, payload) => UpdateEffect(s, j, payload);
    case ReceiveAwareness(j, bytes) => AwarenessEffect(s, j, bytes);
    case ReceiveStep1(j, sv) => AnswerEffect(s, j, sv);
    case PumpTake(j) =>
    case ResumePut(j) =>
  }

  lemma OtherStepIsFifo(s: Server, e: Event, i: SubId)
    requires Registration(s) && Enabled(s, e) && i in s.subs && e != Release(i)
    requires !(e.ReceiveStep1? || e.ReceiveUpdate? || e.ReceiveAwareness? || e.PumpTake? || e.ResumePut?)
    ensures s.subs[i].outbound == Apply(s, e).subs[i].outbound
  {
  }

  /** What waits at first and what is queued later is what the client is handed, in that order, and what still waits. */
  lemma {:induction false} RunIsFifo(s: Server, es: seq<Event>, i: SubId)
    requires Registration(s) && ValidRun(s, es) && i in s.subs && Stays(es, i)
    ensures i in After(s, es).subs
    ensures s.subs[i].outbound + Queued(s, es, i) == Handed(s, es, i) + After(s, es).subs[i].outbound
    decreases |es|
  {
    if es != [] {
      var e, t := es[0], Apply(s, es[0]);
      StepKeepsSubscriber(s, e, i);
      StepKeepsRegistration(s, e);
      OneStepIsFifo(s, e, i);
      RunIsFifo(t, es[1..], i);
      FifoChain(s.subs[i].outbound, Queues(s, e, i), Hands(s, e, i), t.subs[i].outbound,
                Queued(t, es[1..], i), Handed(t, es[1..], i), After(t, es[1..]).subs[i].outbound);
    }
  }

  lemma OneStepIsFifo(s: Server, e: Event, i: SubId)
    requires Registration(s) && Enabled(s, e) && i in s.subs && e != Release(i)
    ensures i in Apply(s, e).subs
    ensures s.subs[i].outbound + Queues(s, e, i) == Hands(s, e, i) + Apply(s, e).subs[i].outbound
  {
    StepKeepsSubscriber(s, e, i);
    if e.ReceiveStep1? || e.ReceiveUpdate? || e.ReceiveAwareness? || e.PumpTake? || e.ResumePut? {
      FrameStepIsFifo(s, e, i);
    } else {
      OtherStepIsFifo(s, e, i);
    }
  }

  lemma FifoChain<T>(q: seq<T>, a: seq<T>, b: seq<T>, r: seq<T>, c: seq<T>, d: seq<T>, w: seq<T>)
    requires q + a == b + r && r + c == d + w
    ensures q + (a + c) == (b + d) + w
  {
    assert q + (a + c) == (q + a) + c;
    assert (b + r) + c == b + (r + c);
    assert b + (d + w) == (b + d) + w;
  }

  // Presence over a run

  /** The payloads of the awareness frames, in order. */
  function Presence(q: seq<Frame>): seq<nat> {
    if q == [] then [] else (if q[0].AwarenessUpdate? then [q[0].payload] else []) + Presence(q[1..])
  }

  lemma {:induction false} PresenceConcat(a: seq<Frame>, b: seq<Frame>)
    ensures Presence(a + b) == Presence(a) + Presence(b)
  {
    if a == [] {
      assert a + b == b;
    } else {
      assert (a + b)[1..] == a[1..] + b;
      PresenceConcat(a[1..], b);
    }
  }

  /** What the others sent to i as presence, in order, without what met a full queue. */
  ghost function PresenceSent(s: Server, es: seq<Event>, i: SubId): seq<nat>
    requires ValidRun(s, es) && i in s.subs && Stays(es, i)
    decreases |es|
  {
    if es == [] then []
    else
      StepKeepsSubscriber(s, es[0], i);
      (if es[0].ReceiveAwareness? && GetsFrame(s, i, es[0].i) then [es[0].bytes] else [])
      + PresenceSent(Apply(s, es[0]), es[1..], i)
  }

  /** A handler only ever waits with a document frame. */
  predicate WaitsWithDocument(s: Server, i: SubId) {
    i in s.subs && s.subs[i].awaiting.Some? ==> !s.subs[i].awaiting.value.AwarenessUpdate?
  }

  lemma StepKeepsWaiting(s: Server, e: Event, i: SubId)
    requires Enabled(s, e) && WaitsWithDocument(s, i)
    ensures WaitsWithDocument(Apply(s, e), i)
  {
  }

  lemma QueuesPresence(s: Server, e: Event, i: SubId)
    requires Enabled(s, e) && i in s.subs && WaitsWithDocument(s, i)
    ensures Presence(Queues(s, e, i)) == if e.ReceiveAwareness? && GetsFrame(s, i, e.i) then [e.bytes] else []
  {
    assert Presence([]) == [];
  }

  lemma {:induction false} QueuedPresence(s: Server, es: seq<Event>, i: SubId)
    requires ValidRun(s, es) && i in s.subs && Stays(es, i) && WaitsWithDocument(s, i)
    ensures Presence(Queued(s, es, i)) == PresenceSent(s, es, i)
    decreases |es|
  {
    if es != [] {
      StepKeepsSubscriber(s, es[0], i);
      StepKeepsWaiting(s, es[0], i);
      QueuesPresence(s, es[0], i);
      QueuedPresence(Apply(s, es[0]), es[1..], i);
      PresenceConcat(Queues(s, es[0], i), Queued(Apply(s, es[0]), es[1..], i));
    }
  }

  /** From joining on: the presence a client has been handed and still has queued is what the others sent since, in
      order, less what met its full queue. */
  lemma PresenceIsRelayed(s: Server, i: SubId, dp: DpId, user: UserId, es: seq<Event>)
    requires Registration(s) && Enabled(s, JoinExisting(i, dp, user))
    requires ValidRun(Apply(s, JoinExisting(i, dp, user)), es) && Stays(es, i)
    ensures var t := Apply(s, JoinExisting(i, dp, user));
            && i in t.subs && i in After(t, es).subs
            && Presence(Handed(t, es, i)) + Presence(After(t, es).subs[i].outbound) == PresenceSent(t, es, i)
  {
    var t := Apply(s, JoinExisting(i, dp, user));
    StepKeepsRegistration(s, JoinExisting(i, dp, user));
    var q := t.subs[i].outbound;
    assert q == [SyncStep2(s.hubs[s.registry[dp]].doc)] && Presence(q[1..]) == [];
    RunIsFifo(t, es, i);
    QueuedPresence(t, es, i);
    PresenceConcat(q, Queued(t, es, i));
    PresenceConcat(Handed(t, es, i), After(t, es).subs[i].outbound);
  }
}
