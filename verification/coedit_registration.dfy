/** Every live subscriber is listed in the hub registered for its product, in every run. */
module CoeditRegistration {
  import opened Wrappers
  import opened CoeditHub

  ghost predicate NoDuplicates(ids: seq<SubId>) {
    forall a, b :: 0 <= a < b < |ids| ==> ids[a] != ids[b]
  }

  /** The registry points at known hubs of the right product. */
  ghost predicate RegistryOk(s: Server) {
    && (forall dp :: dp in s.registry ==> s.registry[dp] in s.hubs && s.hubs[s.registry[dp]].dp == dp)
    && (forall h :: h in s.hubs ==> h < s.nextHub)
  }

  /** Subscriber i, until it is taken off the list, sits in the hub registered for its product. */
  ghost predicate Listed(s: Server, i: SubId)
    requires i in s.subs
  {
    var sub := s.subs[i];
    && sub.dp in s.registry
    && s.registry[sub.dp] == sub.hub
    && sub.hub in s.hubs
    && i in s.hubs[sub.hub].subscribers
  }

  ghost predicate SubscribersOk(s: Server) {
    && (forall i :: i in s.subs && !s.subs[i].phase.Releasing? ==> Listed(s, i))
    && (forall h :: h in s.hubs ==> NoDuplicates(s.hubs[h].subscribers))
    && (forall h, i :: h in s.hubs && i in s.hubs[h].subscribers ==>
          i in s.subs && s.subs[i].hub == h && !s.subs[i].phase.Releasing?)
  }

  ghost predicate LockOk(s: Server) {
    match s.lock
    case Free => true
    case Creating(i, dp, user) => dp !in s.registry && i !in s.subs
    case Stopping(dp) => TornDown(s, dp)
    case Flushing(dp, p) => TornDown(s, dp) && !s.hubs[s.registry[dp]].dirty && p < s.nextPersist
  }

  ghost predicate TornDown(s: Server, dp: DpId) {
    && dp in s.registry && s.registry[dp] in s.hubs
    && s.hubs[s.registry[dp]].subscribers == []
    && s.hubs[s.registry[dp]].flush.Stopped?
  }

  ghost predicate PersistsOk(s: Server) {
    forall p :: p in s.persists ==> p < s.nextPersist && s.persists[p].hub in s.hubs
  }

  ghost predicate Registration(s: Server) {
    RegistryOk(s) && SubscribersOk(s) && LockOk(s) && PersistsOk(s)
  }

  lemma {:induction false} RemoveFirstDropsExactlyOne(ids: seq<SubId>, i: SubId)
    requires NoDuplicates(ids)
    ensures NoDuplicates(RemoveFirst(ids, i))
    ensures forall j :: j in RemoveFirst(ids, i) <==> j in ids && j != i
  {
    if ids != [] && ids[0] != i {
      RemoveFirstDropsExactlyOne(ids[1..], i);
      assert forall j :: j in ids <==> j == ids[0] || j in ids[1..];
      assert ids[0] !in ids[1..];
    } else if ids != [] {
      assert forall j :: j in ids <==> j == ids[0] || j in ids[1..];
      assert ids[0] !in ids[1..];
    }
  }

  /** The registry, the lists, the subscribers' places and the lock are as before. */
  ghost predicate SameLists(s: Server, t: Server) {
    && t.registry == s.registry && t.nextHub == s.nextHub && t.lock == s.lock
    && t.hubs.Keys == s.hubs.Keys && t.subs.Keys == s.subs.Keys
    && (forall h :: h in s.hubs ==>
          && t.hubs[h].dp == s.hubs[h].dp && t.hubs[h].subscribers == s.hubs[h].subscribers
          && (s.hubs[h].flush.Stopped? ==> t.hubs[h].flush.Stopped?)
          && (s.hubs[h].subscribers == [] && t.hubs[h].dirty ==> s.hubs[h].dirty))
    && (forall i :: i in s.subs ==>
          t.subs[i].dp == s.subs[i].dp && t.subs[i].hub == s.subs[i].hub && t.subs[i].phase == s.subs[i].phase)
    && PersistsOk(t) && s.nextPersist <= t.nextPersist
  }

  lemma SameSubscribers(s: Server, t: Server)
    requires SubscribersOk(s) && SameLists(s, t)
    ensures SubscribersOk(t)
  {
    forall i | i in t.subs && !t.subs[i].phase.Releasing? ensures Listed(t, i) {
      assert Listed(s, i);
    }
  }

  lemma SameListing(s: Server, t: Server)
    requires Registration(s) && SameLists(s, t)
    ensures Registration(t)
  {
    SameSubscribers(s, t);
  }

  lemma JoinKeepsRegistration(s: Server, i: SubId, dp: DpId, user: UserId, h: HubId)
    requires Registration(s) && s.lock.Free? && i !in s.subs && dp in s.registry && s.registry[dp] == h
    ensures Registration(Join(s, i, dp, user, h))
  {
    var t := Join(s, i, dp, user, h);
    assert i !in s.hubs[h].subscribers;
    forall j | j in t.subs && !t.subs[j].phase.Releasing? ensures Listed(t, j) {
      if j != i { assert Listed(s, j); }
    }
  }

  lemma RemoveKeepsRegistration(s: Server, i: SubId)
    requires Registration(s) && Enabled(s, RemoveSubscriber(i))
    ensures Registration(Apply(s, RemoveSubscriber(i)))
  {
    var t := Apply(s, RemoveSubscriber(i));
    var h := s.subs[i].hub;
    RemoveFirstDropsExactlyOne(s.hubs[h].subscribers, i);
    forall j | j in t.subs && !t.subs[j].phase.Releasing? ensures Listed(t, j) {
      assert Listed(s, j);
    }
  }

  lemma ReleaseKeepsRegistration(s: Server, i: SubId)
    requires Registration(s) && Enabled(s, Release(i))
    ensures Registration(Apply(s, Release(i)))
  {
    var t := Apply(s, Release(i));
    forall j | j in t.subs && !t.subs[j].phase.Releasing? ensures Listed(t, j) {
      assert Listed(s, j);
    }
  }

  /** Taking a product off the registry strands nobody: its hub has no subscriber left. */
  lemma PopKeepsRegistration(s: Server)
    requires Registration(s) && (s.lock.Stopping? || s.lock.Flushing?)
    ensures Registration(s.(registry := s.registry - {s.lock.dp}, lock := Free))
  {
    var t := s.(registry := s.registry - {s.lock.dp}, lock := Free);
    forall j | j in t.subs && !t.subs[j].phase.Releasing? ensures Listed(t, j) {
      assert Listed(s, j);
    }
  }

  lemma CreateKeepsRegistration(s: Server)
    requires Registration(s) && Enabled(s, FinishCreate)
    ensures Registration(Apply(s, FinishCreate))
  {
    var Creating(i, dp, user) := s.lock;
    var h := s.nextHub;
    var hub := Hub(dp, Stored(s, dp), [], false, None, Sleeping);
    var t := s.(registry := s.registry[dp := h], hubs := s.hubs[h := hub], nextHub := h + 1, lock := Free);
    forall j | j in t.subs && !t.subs[j].phase.Releasing? ensures Listed(t, j) {
      assert Listed(s, j);
    }
    JoinKeepsRegistration(t, i, dp, user, h);
  }

  lemma DisconnectKeepsRegistration(s: Server, i: SubId)
    requires Registration(s) && Enabled(s, Disconnect(i))
    ensures Registration(Apply(s, Disconnect(i)))
  {
    forall j | j in s.subs && !s.subs[j].phase.Releasing? ensures Listed(Apply(s, Disconnect(i)), j) {
      assert Listed(s, j);
    }
  }

  lemma Step1KeepsRegistration(s: Server, i: SubId, sv: Doc)
    requires Registration(s) && Enabled(s, ReceiveStep1(i, sv))
    ensures Registration(Apply(s, ReceiveStep1(i, sv)))
  {
    SameListing(s, Apply(s, ReceiveStep1(i, sv)));
  }

  lemma ResumeKeepsRegistration(s: Server, i: SubId)
    requires Registration(s) && Enabled(s, ResumePut(i))
    ensures Registration(Apply(s, ResumePut(i)))
  {
    SameListing(s, Apply(s, ResumePut(i)));
  }

  lemma UpdateKeepsRegistration(s: Server, i: SubId, payload: Doc)
    requires Registration(s) && Enabled(s, ReceiveUpdate(i, payload))
    ensures Registration(Apply(s, ReceiveUpdate(i, payload)))
  {
    assert Listed(s, i);
    SameListing(s, Apply(s, ReceiveUpdate(i, payload)));
  }

  lemma AwarenessKeepsRegistration(s: Server, i: SubId, bytes: nat)
    requires Registration(s) && Enabled(s, ReceiveAwareness(i, bytes))
    ensures Registration(Apply(s, ReceiveAwareness(i, bytes)))
  {
    SameListing(s, Apply(s, ReceiveAwareness(i, bytes)));
  }

  lemma PumpKeepsRegistration(s: Server, i: SubId)
    requires Registration(s) && Enabled(s, PumpTake(i))
    ensures Registration(Apply(s, PumpTake(i)))
  {
    SameListing(s, Apply(s, PumpTake(i)));
  }

  lemma TickKeepsRegistration(s: Server, h: HubId)
    requires Registration(s) && Enabled(s, FlushTick(h))
    ensures Registration(Apply(s, FlushTick(h)))
  {
    SameListing(s, Apply(s, FlushTick(h)));
  }

  lemma ReturnKeepsRegistration(s: Server, h: HubId)
    requires Registration(s) && Enabled(s, FlushReturn(h))
    ensures Registration(Apply(s, FlushReturn(h)))
  {
    SameListing(s, Apply(s, FlushReturn(h)));
  }

  lemma ExtractKeepsRegistration(s: Server, p: PersistId)
    requires Registration(s) && Enabled(s, Extract(p))
    ensures Registration(Apply(s, Extract(p)))
  {
    SameListing(s, Apply(s, Extract(p)));
  }

  lemma WriteKeepsRegistration(s: Server, p: PersistId)
    requires Registration(s) && Enabled(s, WriteRow(p))
    ensures Registration(Apply(s, WriteRow(p)))
  {
    SameListing(s, Apply(s, WriteRow(p)));
  }

  lemma FrameKeepsRegistration(s: Server, e: Event)
    requires Registration(s) && Enabled(s, e)
    requires e.ReceiveStep1? || e.ResumePut? || e.ReceiveUpdate? || e.ReceiveAwareness? || e.PumpTake?
    ensures Registration(Apply(s, e))
  {
    match e
    case ReceiveStep1(i, sv) => Step1KeepsRegistration(s, i, sv);
    case ResumePut(i) => ResumeKeepsRegistration(s, i);
    case ReceiveUpdate(i, payload) => UpdateKeepsRegistration(s, i, payload);
    case ReceiveAwareness(i, bytes) => AwarenessKeepsRegistration(s, i, bytes);
    case PumpTake(i) => PumpKeepsRegistration(s, i);
  }

  lemma PersistKeepsRegistration(s: Server, e: Event)
    requires Registration(s) && Enabled(s, e)
    requires e.FlushTick? || e.FlushReturn? || e.Extract? || e.WriteRow?
    ensures Registration(Apply(s, e))
  {
    match e
    case FlushTick(h) => TickKeepsRegistration(s, h);
    case FlushReturn(h) => ReturnKeepsRegistration(s, h);
    case Extract(p) => ExtractKeepsRegistration(s, p);
    case WriteRow(p) => WriteKeepsRegistration(s, p);
  }

  lemma FinalFlushKeepsRegistration(s: Server)
    requires Registration(s) && Enabled(s, FinalFlush)
    ensures Registration(Apply(s, FinalFlush))
  {
    if s.hubs[s.registry[s.lock.dp]].dirty {
      SameListing(s, Apply(s, FinalFlush).(lock := s.lock));
    } else {
      PopKeepsRegistration(s);
    }
  }

  lemma LeavingKeepsRegistration(s: Server, e: Event)
    requires Registration(s) && Enabled(s, e) && (e.Disconnect? || e.RemoveSubscriber? || e.Release?)
    ensures Registration(Apply(s, e))
  {
    match e
    case Disconnect(i) => DisconnectKeepsRegistration(s, i);
    case RemoveSubscriber(i) => RemoveKeepsRegistration(s, i);
    case Release(i) => ReleaseKeepsRegistration(s, i);
  }

  lemma LockKeepsRegistration(s: Server, e: Event)
    requires Registration(s) && Enabled(s, e)
    requires e.JoinExisting? || e.BeginCreate? || e.FinishCreate? || e.FinalFlush? || e.FinishRelease?
    ensures Registration(Apply(s, e))
  {
    match e
    case JoinExisting(i, dp, user) => JoinKeepsRegistration(s, i, dp, user, s.registry[dp]);
    case BeginCreate(_, _, _) =>
    case FinishCreate => CreateKeepsRegistration(s);
    case FinalFlush => FinalFlushKeepsRegistration(s);
    case FinishRelease => PopKeepsRegistration(s);
  }

  lemma {:induction false} StepKeepsRegistration(s: Server, e: Event)
    requires Registration(s) && Enabled(s, e)
    ensures Registration(Apply(s, e))
  {
    match e
    case JoinExisting(_, _, _) | BeginCreate(_, _, _) | FinishCreate | FinalFlush | FinishRelease =>
      LockKeepsRegistration(s, e);
    case Disconnect(_) | RemoveSubscriber(_) | Release(_) => LeavingKeepsRegistration(s, e);
    case ReceiveStep1(_, _) | ResumePut(_) | ReceiveUpdate(_, _) | ReceiveAwareness(_, _) | PumpTake(_) =>
      FrameKeepsRegistration(s, e);
    case FlushTick(_) | FlushReturn(_) | Extract(_) | WriteRow(_) => PersistKeepsRegistration(s, e);
    case ReceiveMalformed(_) =>
  }

  lemma {:induction false} RunKeepsRegistration(s: Server, es: seq<Event>)
    requires Registration(s) && ValidRun(s, es)
    ensures Registration(After(s, es))
    decreases |es|
  {
    if es != [] {
      StepKeepsRegistration(s, es[0]);
      RunKeepsRegistration(Apply(s, es[0]), es[1..]);
    }
  }

  /** No two live subscribers of one product ever edit different documents. */
  lemma LiveSubscribersShareOneHub(rows: map<DpId, Doc>, es: seq<Event>, i: SubId, j: SubId)
    requires ValidRun(Init(rows), es)
    requires var s := After(Init(rows), es);
             && i in s.subs && !s.subs[i].phase.Releasing?
             && j in s.subs && !s.subs[j].phase.Releasing?
             && s.subs[i].dp == s.subs[j].dp
    ensures var s := After(Init(rows), es); Listed(s, i) && Listed(s, j) && s.subs[i].hub == s.subs[j].hub
  {
    RunKeepsRegistration(Init(rows), es);
    var s := After(Init(rows), es);
    assert Listed(s, i) && Listed(s, j);
  }
}
