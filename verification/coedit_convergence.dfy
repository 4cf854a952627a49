/** What a client holds, plus what is on its way to it, is the hub's document. */
module CoeditConvergence {
  import opened Wrappers
  import opened CoeditHub
  import opened CoeditRegistration

  ghost predicate InSync(sub: Subscriber, doc: Doc) {
    && Reach(sub) <= doc
    && (!sub.overflowed ==> Reach(sub) == doc)
    && |sub.outbound| <= QUEUE_MAXSIZE
  }

  ghost predicate Converging(s: Server) {
    forall i :: i in s.subs && !s.subs[i].phase.Releasing? ==>
      s.subs[i].hub in s.hubs && InSync(s.subs[i], s.hubs[s.subs[i].hub].doc)
  }

  lemma CarriedAppend(q: seq<Frame>, f: Frame)
    ensures AllCarried(q + [f]) == AllCarried(q) + Carried(f)
  {
    forall u | u in AllCarried(q + [f]) ensures u in AllCarried(q) + Carried(f) {
      var i :| 0 <= i < |q + [f]| && u in Carried((q + [f])[i]);
      if i < |q| { assert q[i] == (q + [f])[i]; }
    }
    forall u | u in AllCarried(q) + Carried(f) ensures u in AllCarried(q + [f]) {
      if u in Carried(f) {
        assert (q + [f])[|q|] == f;
      } else {
        var i :| 0 <= i < |q| && u in Carried(q[i]);
        assert (q + [f])[i] == q[i];
      }
    }
  }

  lemma CarriedTail(q: seq<Frame>)
    requires q != []
    ensures AllCarried(q) == Carried(q[0]) + AllCarried(q[1..])
  {
    forall u | u in AllCarried(q) ensures u in Carried(q[0]) + AllCarried(q[1..]) {
      var i :| 0 <= i < |q| && u in Carried(q[i]);
      if i > 0 { assert q[1..][i - 1] == q[i]; }
    }
    forall u | u in AllCarried(q[1..]) ensures u in AllCarried(q) {
      var i :| 0 <= i < |q[1..]| && u in Carried(q[1..][i]);
      assert q[i + 1] == q[1..][i];
    }
  }

  lemma PutReaches(sub: Subscriber, f: Frame)
    requires sub.awaiting.None?
    ensures Reach(Put(sub, f)) == Reach(sub) + Carried(f)
  {
    CarriedAppend(sub.outbound, f);
  }

  /** A broadcast frame reaches the subscriber, or its drop is recorded. */
  lemma OfferKeepsSync(sub: Subscriber, f: Frame, doc: Doc)
    requires InSync(sub, doc)
    ensures InSync(Offer(sub, f), doc + Carried(f))
  {
    CarriedAppend(sub.outbound, f);
  }

  lemma Step1KeepsSync(sub: Subscriber, sv: Doc, doc: Doc)
    requires InSync(sub, doc) && sub.awaiting.None?
    ensures var levels := BringsLevel(sub, sv, doc);
            InSync(Put(sub.(overflowed := sub.overflowed && !levels), SyncStep2(doc - sv)), doc)
  {
    var levels := BringsLevel(sub, sv, doc);
    PutReaches(sub.(overflowed := sub.overflowed && !levels), SyncStep2(doc - sv));
    if levels {
      forall u | u in doc ensures u in Reach(sub) + (doc - sv) {
        assert u in sv ==> u in sv * doc;
      }
    }
  }

  /** A state-vector exchange brings a subscriber level exactly when the vector claims no
      update of the document that never got on its way to that subscriber; the record of an overflow is then
      cleared, so that every later state counts the subscriber in again. */
  lemma Step1RestoresIff(s: Server, i: SubId, sv: Doc)
    requires Registration(s) && Converging(s) && Enabled(s, ReceiveStep1(i, sv))
    ensures var doc := s.hubs[s.subs[i].hub].doc;
            Reach(Apply(s, ReceiveStep1(i, sv)).subs[i]) == doc <==> sv * doc <= Reach(s.subs[i])
    ensures var t := Apply(s, ReceiveStep1(i, sv)).subs[i];
            Reach(t) == s.hubs[s.subs[i].hub].doc ==> !t.overflowed
  {
    var sub := s.subs[i];
    var doc := s.hubs[sub.hub].doc;
    var levels := BringsLevel(sub, sv, doc);
    PutReaches(sub.(overflowed := sub.overflowed && !levels), SyncStep2(doc - sv));
    assert Reach(Apply(s, ReceiveStep1(i, sv)).subs[i]) == Reach(sub) + (doc - sv);
    if Reach(sub) + (doc - sv) == doc {
      forall u | u in sv * doc ensures u in Reach(sub) { assert u in Reach(sub) + (doc - sv); }
    }
  }

  lemma UpdateKeepsConverging(s: Server, i: SubId, payload: Doc)
    requires Registration(s) && Converging(s) && Enabled(s, ReceiveUpdate(i, payload))
    ensures Converging(Apply(s, ReceiveUpdate(i, payload)))
  {
    var t := Apply(s, ReceiveUpdate(i, payload));
    assert Listed(s, i);
    var h := s.subs[i].hub;
    forall j | j in t.subs && !t.subs[j].phase.Releasing?
      ensures t.subs[j].hub in t.hubs && InSync(t.subs[j], t.hubs[t.subs[j].hub].doc)
    {
      assert Listed(s, j);
      if j != i && s.subs[j].hub == h { OfferKeepsSync(s.subs[j], SyncUpdate(payload), s.hubs[h].doc); }
    }
  }

  lemma AwarenessKeepsConverging(s: Server, i: SubId, bytes: nat)
    requires Registration(s) && Converging(s) && Enabled(s, ReceiveAwareness(i, bytes))
    ensures Converging(Apply(s, ReceiveAwareness(i, bytes)))
  {
    var t := Apply(s, ReceiveAwareness(i, bytes));
    forall j | j in t.subs && !t.subs[j].phase.Releasing?
      ensures t.subs[j].hub in t.hubs && InSync(t.subs[j], t.hubs[t.subs[j].hub].doc)
    {
      var doc := s.hubs[s.subs[j].hub].doc;
      OfferKeepsSync(s.subs[j], AwarenessUpdate(bytes), doc);
      assert doc + Carried(AwarenessUpdate(bytes)) == doc;
    }
  }

  lemma Step1KeepsConverging(s: Server, i: SubId, sv: Doc)
    requires Converging(s) && Enabled(s, ReceiveStep1(i, sv))
    ensures Converging(Apply(s, ReceiveStep1(i, sv)))
  {
    Step1KeepsSync(s.subs[i], sv, s.hubs[s.subs[i].hub].doc);
  }

  lemma ResumeKeepsConverging(s: Server, i: SubId)
    requires Converging(s) && Enabled(s, ResumePut(i))
    ensures Converging(Apply(s, ResumePut(i)))
  {
    CarriedAppend(s.subs[i].outbound, s.subs[i].awaiting.value);
  }

  lemma PumpKeepsConverging(s: Server, i: SubId)
    requires Converging(s) && Enabled(s, PumpTake(i))
    ensures Converging(Apply(s, PumpTake(i)))
  {
    CarriedTail(s.subs[i].outbound);
  }

  /** Documents and queues are as before. */
  ghost predicate SameQueues(s: Server, t: Server) {
    && (forall h :: h in s.hubs ==> h in t.hubs && t.hubs[h].doc == s.hubs[h].doc)
    && (forall i :: i in t.subs && !t.subs[i].phase.Releasing? ==>
          i in s.subs && !s.subs[i].phase.Releasing? && t.subs[i].(phase := s.subs[i].phase) == s.subs[i])
  }

  lemma SameQueuesConverge(s: Server, t: Server)
    requires Converging(s) && SameQueues(s, t)
    ensures Converging(t)
  {
    forall i | i in t.subs && !t.subs[i].phase.Releasing?
      ensures t.subs[i].hub in t.hubs && InSync(t.subs[i], t.hubs[t.subs[i].hub].doc)
    {
      assert InSync(s.subs[i], s.hubs[s.subs[i].hub].doc);
    }
  }

  lemma LeavingKeepsQueues(s: Server, e: Event)
    requires Enabled(s, e) && (e.Disconnect? || e.RemoveSubscriber? || e.Release?)
    ensures SameQueues(s, Apply(s, e))
  {
  }

  lemma LockKeepsQueues(s: Server, e: Event)
    requires Enabled(s, e) && (e.BeginCreate? || e.ReceiveMalformed? || e.FinalFlush? || e.FinishRelease?)
    ensures SameQueues(s, Apply(s, e))
  {
  }

  lemma TickKeepsQueues(s: Server, h: HubId)
    requires Enabled(s, FlushTick(h))
    ensures SameQueues(s, Apply(s, FlushTick(h)))
  {
  }

  lemma PersistKeepsQueues(s: Server, e: Event)
    requires Enabled(s, e) && (e.FlushReturn? || e.Extract? || e.WriteRow?)
    ensures SameQueues(s, Apply(s, e))
  {
  }

  lemma JoinKeepsConverging(s: Server, i: SubId, dp: DpId, user: UserId, h: HubId)
    requires Converging(s) && h in s.hubs
    ensures Converging(Join(s, i, dp, user, h))
  {
    var sub := Subscriber(dp, h, user, [], None, Live, {}, {}, false);
    PutReaches(sub, SyncStep2(s.hubs[h].doc));
  }

  lemma CreateKeepsConverging(s: Server)
    requires RegistryOk(s) && Converging(s) && Enabled(s, FinishCreate)
    ensures Converging(Apply(s, FinishCreate))
  {
    var Creating(i, dp, user) := s.lock;
    var h := s.nextHub;
    var hub := Hub(dp, Stored(s, dp), [], false, None, Sleeping);
    var t := s.(registry := s.registry[dp := h], hubs := s.hubs[h := hub], nextHub := h + 1, lock := Free);
    SameQueuesConverge(s, t);
    JoinKeepsConverging(t, i, dp, user, h);
  }

  lemma {:induction false} StepKeepsConverging(s: Server, e: Event)
    requires Registration(s) && Converging(s) && Enabled(s, e)
    ensures Converging(Apply(s, e))
  {
    match e
    case JoinExisting(i, dp, user) => JoinKeepsConverging(s, i, dp, user, s.registry[dp]);
    case FinishCreate => CreateKeepsConverging(s);
    case ReceiveStep1(i, sv) => Step1KeepsConverging(s, i, sv);
    case ResumePut(i) => ResumeKeepsConverging(s, i);
    case PumpTake(i) => PumpKeepsConverging(s, i);
    case ReceiveUpdate(i, payload) => UpdateKeepsConverging(s, i, payload);
    case ReceiveAwareness(i, bytes) => AwarenessKeepsConverging(s, i, bytes);
    case Disconnect(_) | RemoveSubscriber(_) | Release(_) =>
      LeavingKeepsQueues(s, e);
      SameQueuesConverge(s, Apply(s, e));
    case FlushTick(h) =>
      TickKeepsQueues(s, h);
      SameQueuesConverge(s, Apply(s, e));
    case FlushReturn(_) | Extract(_) | WriteRow(_) =>
      PersistKeepsQueues(s, e);
      SameQueuesConverge(s, Apply(s, e));
    case _ =>
      LockKeepsQueues(s, e);
      SameQueuesConverge(s, Apply(s, e));
  }

  lemma {:induction false} RunKeepsConverging(s: Server, es: seq<Event>)
    requires Registration(s) && Converging(s) && ValidRun(s, es)
    ensures Converging(After(s, es))
    decreases |es|
  {
    if es != [] {
      StepKeepsRegistration(s, es[0]);
      StepKeepsConverging(s, es[0]);
      RunKeepsConverging(Apply(s, es[0]), es[1..]);
    }
  }

  /** In every reachable state: a subscriber that has not overflowed can reach the whole document. */
  lemma ReachIsTheDocument(rows: map<DpId, Doc>, es: seq<Event>, i: SubId)
    requires ValidRun(Init(rows), es)
    requires var s := After(Init(rows), es); i in s.subs && s.subs[i].phase.Live?
    ensures var s := After(Init(rows), es);
            && s.subs[i].hub in s.hubs
            && Reach(s.subs[i]) <= s.hubs[s.subs[i].hub].doc
            && (!s.subs[i].overflowed ==> Reach(s.subs[i]) == s.hubs[s.subs[i].hub].doc)
  {
    RunKeepsConverging(Init(rows), es);
  }

  /** A step that drops a document frame meant for i. */
  predicate Drops(s: Server, e: Event, i: SubId) {
    && e.ReceiveUpdate? && e.i != i && e.i in s.subs && s.subs[e.i].hub in s.hubs
    && i in s.subs && i in s.hubs[s.subs[e.i].hub].subscribers && |s.subs[i].outbound| >= QUEUE_MAXSIZE
  }

  ghost predicate NeverDrops(s: Server, es: seq<Event>, i: SubId)
    requires ValidRun(s, es)
    decreases |es|
  {
    es == [] || (!Drops(s, es[0], i) && NeverDrops(Apply(s, es[0]), es[1..], i))
  }

  predicate Clear(s: Server, i: SubId) { i in s.subs ==> !s.subs[i].overflowed }

  lemma StepKeepsClear(s: Server, e: Event, i: SubId)
    requires Enabled(s, e) && Clear(s, i) && !Drops(s, e, i)
    ensures Clear(Apply(s, e), i)
  {
  }

  lemma {:induction false} RunKeepsClear(s: Server, es: seq<Event>, i: SubId)
    requires Registration(s) && Converging(s) && ValidRun(s, es) && NeverDrops(s, es, i) && Clear(s, i)
    ensures Registration(After(s, es)) && Converging(After(s, es)) && Clear(After(s, es), i)
    decreases |es|
  {
    if es != [] {
      StepKeepsRegistration(s, es[0]);
      StepKeepsConverging(s, es[0]);
      StepKeepsClear(s, es[0], i);
      RunKeepsClear(Apply(s, es[0]), es[1..], i);
    }
  }

  /** After an overflow, an exchange whose vector claims nothing out of reach restores convergence, and it holds
      until the next frame for that subscriber is dropped. */
  lemma ExchangeRestoresUntilOverflow(rows: map<DpId, Doc>, es: seq<Event>, i: SubId, sv: Doc, fs: seq<Event>)
    requires ValidRun(Init(rows), es)
    requires var s := After(Init(rows), es);
             && Enabled(s, ReceiveStep1(i, sv)) && sv * s.hubs[s.subs[i].hub].doc <= Reach(s.subs[i])
             && ValidRun(Apply(s, ReceiveStep1(i, sv)), fs) && NeverDrops(Apply(s, ReceiveStep1(i, sv)), fs, i)
    ensures var t := After(Apply(After(Init(rows), es), ReceiveStep1(i, sv)), fs);
            i in t.subs && t.subs[i].phase.Live? ==>
              t.subs[i].hub in t.hubs && Reach(t.subs[i]) == t.hubs[t.subs[i].hub].doc
  {
    RunKeepsConverging(Init(rows), es);
    RunKeepsRegistration(Init(rows), es);
    var s := After(Init(rows), es);
    StepKeepsRegistration(s, ReceiveStep1(i, sv));
    StepKeepsConverging(s, ReceiveStep1(i, sv));
    RunKeepsClear(Apply(s, ReceiveStep1(i, sv)), fs, i);
  }

  /** Convergence: once the queues are drained, subscribers that have not overflowed hold equal documents. */
  lemma DrainedSubscribersAgree(rows: map<DpId, Doc>, es: seq<Event>, i: SubId, j: SubId)
    requires ValidRun(Init(rows), es)
    requires var s := After(Init(rows), es);
             && i in s.subs && s.subs[i].phase.Live? && j in s.subs && s.subs[j].phase.Live?
             && s.subs[i].dp == s.subs[j].dp
             && InFlight(s.subs[i]) == {} == InFlight(s.subs[j])
             && !s.subs[i].overflowed && !s.subs[j].overflowed
    ensures var s := After(Init(rows), es);
            s.subs[i].accepted + s.subs[i].taken == s.subs[j].accepted + s.subs[j].taken
  {
    LiveSubscribersShareOneHub(rows, es, i, j);
    ReachIsTheDocument(rows, es, i);
    ReachIsTheDocument(rows, es, j);
    var s := After(Init(rows), es);
    assert Reach(s.subs[i]) == s.subs[i].accepted + s.subs[i].taken;
    assert Reach(s.subs[j]) == s.subs[j].accepted + s.subs[j].taken;
  }
}
