/**
 The hub's routines as they change state in place.  Every method is one stretch of code between two
 suspension points, and its postcondition is the step of the same name in CoeditHub.  Valid() holds before and
 after each: every subscriber is listed in the registered hub, and can reach its document.
 */
module CoeditServer {
  import opened Wrappers
  import opened CoeditHub
  import opened CoeditRegistration
  import opened CoeditConvergence
  import opened CoeditFrames

  /** The frame as seen by the first n listed subscribers. */
  function BroadcastTo(subs: map<SubId, Subscriber>, listed: seq<SubId>, n: nat, f: Frame, exclude: SubId)
    : map<SubId, Subscriber>
    requires n <= |listed|
  {
    Broadcast(subs, listed[..n], f, exclude)
  }

  /** One more listed subscriber has the frame offered. */
  lemma OfferOneMore(subs: map<SubId, Subscriber>, listed: seq<SubId>, n: nat, f: Frame, exclude: SubId)
    requires n < |listed| && NoDuplicates(listed) && listed[n] in subs
    ensures var was, j := BroadcastTo(subs, listed, n, f, exclude), listed[n];
            j in was && BroadcastTo(subs, listed, n + 1, f, exclude)
              == if j == exclude then was else was[j := Offer(was[j], f)]
  {
    assert listed[..n + 1] == listed[..n] + [listed[n]] && listed[n] !in listed[..n];
  }

  /** Every step of the protocol leaves a valid state. */
  lemma StepKeepsValid(s: Server, e: Event)
    requires Registration(s) && Converging(s) && Enabled(s, e)
    ensures Registration(Apply(s, e)) && Converging(Apply(s, e))
  {
    StepKeepsRegistration(s, e);
    StepKeepsConverging(s, e);
  }

  class CanvasServer {
    var registry: map<DpId, HubId>
    var hubs: map<HubId, Hub>
    var subs: map<SubId, Subscriber>
    var lock: Lock
    var stored: map<DpId, Doc>
    var persists: map<PersistId, Persist>
    var nextHub: HubId
    var nextPersist: PersistId

    ghost function View(): Server
      reads this
    {
      Server(registry, hubs, subs, lock, stored, persists, nextHub, nextPersist)
    }

    ghost predicate Valid()
      reads this
    {
      Registration(View()) && Converging(View())
    }

    constructor (rows: map<DpId, Doc>)
      ensures Valid() && View() == Init(rows)
    {
      registry, hubs, subs, lock := map[], map[], map[], Free;
      stored, persists, nextHub, nextPersist := rows, map[], 0, 0;
    }

    /** Offer the frame to every listed subscriber but one, never suspending. */
    method BroadcastFrame(listed: seq<SubId>, f: Frame, exclude: SubId)
      requires NoDuplicates(listed) && forall i :: i in listed ==> i in subs
      modifies this`subs
      ensures subs == Broadcast(old(subs), listed, f, exclude)
    {
      var n := 0;
      while n < |listed|
        invariant n <= |listed|
        invariant subs == BroadcastTo(old(subs), listed, n, f, exclude)
      {
        var j := listed[n];
        OfferOneMore(old(subs), listed, n, f, exclude);
        if j != exclude {
          subs := subs[j := Offer(subs[j], f)];
        }
        n := n + 1;
      }
      assert listed[..|listed|] == listed;
    }

    method Subscribe(i: SubId, dp: DpId, user: UserId, h: HubId)
      requires h in hubs
      modifies this`hubs, this`subs
      ensures View() == Join(old(View()), i, dp, user, h)
      ensures subs == old(subs)[i := Subscriber(dp, h, user, [SyncStep2(old(hubs)[h].doc)], None, Live, {}, {}, false)]
      ensures hubs == old(hubs)[h := old(hubs)[h].(subscribers := old(hubs)[h].subscribers + [i])]
    {
      var sub := Subscriber(dp, h, user, [], None, Live, {}, {}, false);
      var hub := hubs[h];
      hubs := hubs[h := hub.(subscribers := hub.subscribers + [i])];
      sub := sub.(outbound := sub.outbound + [SyncStep2(hub.doc)]);
      assert sub.outbound == [SyncStep2(hub.doc)];
      subs := subs[i := sub];
    }

    /** Under the registry lock: join the registered hub at once, or start loading one. */
    method GetOrCreateHub(i: SubId, dp: DpId, user: UserId)
      requires Valid() && lock.Free? && i !in subs
      modifies this
      ensures var e := if dp in old(registry) then JoinExisting(i, dp, user) else BeginCreate(i, dp, user);
              Enabled(old(View()), e) && View() == Apply(old(View()), e)
      ensures Valid()
      ensures if dp in old(registry) then i in subs && subs[i].hub == old(registry)[dp] && lock == Free
              else subs == old(subs) && lock == Creating(i, dp, user)
    {
      StepKeepsValid(View(), if dp in registry then JoinExisting(i, dp, user) else BeginCreate(i, dp, user));
      if dp in registry {
        Subscribe(i, dp, user, registry[dp]);
      } else {
        lock := Creating(i, dp, user);
      }
    }

    method FinishCreateHub()
      requires Valid() && Enabled(View(), FinishCreate)
      modifies this
      ensures View() == Apply(old(View()), FinishCreate)
      ensures Valid()
      ensures old(nextHub) in hubs && registry == old(registry)[old(lock.dp) := old(nextHub)] && lock == Free
      ensures hubs[old(nextHub)].doc == if old(lock.dp) in stored then stored[old(lock.dp)] else {}
      ensures hubs[old(nextHub)].subscribers == [old(lock.i)]
    {
      StepKeepsValid(View(), FinishCreate);
      var i, dp, user := lock.i, lock.dp, lock.user;
      var doc := if dp in stored then stored[dp] else {};
      var h := nextHub;
      hubs := hubs[h := Hub(dp, doc, [], false, None, Sleeping)];
      registry := registry[dp := h];
      nextHub := h + 1;
      lock := Free;
      Subscribe(i, dp, user, h);
    }

    /** The answer to a state vector; a full queue suspends the handler. */
    method AnswerStateVector(i: SubId, sv: Doc)
      requires Receiving(View(), i)
      modifies this`subs
      ensures View() == Apply(old(View()), ReceiveStep1(i, sv))
    {
      var sub := subs[i];
      var hub := hubs[sub.hub];
      var diff := hub.doc - sv;
      if BringsLevel(sub, sv, hub.doc) { sub := sub.(overflowed := false); }
      if |sub.outbound| < QUEUE_MAXSIZE {
        sub := sub.(outbound := sub.outbound + [SyncStep2(diff)]);
      } else {
        sub := sub.(awaiting := Some(SyncStep2(diff)));
      }
      subs := subs[i := sub];
    }

    /** Into the document, and on to the others. */
    method TakeUpdate(i: SubId, payload: Doc)
      requires Valid() && Receiving(View(), i)
      modifies this`hubs, this`subs
      ensures View() == Apply(old(View()), ReceiveUpdate(i, payload))
    {
      var sub := subs[i];
      var hub := hubs[sub.hub];
      hub := hub.(doc := hub.doc + payload);
      sub := sub.(accepted := sub.accepted + payload);
      hub := hub.(dirty := true, author := Some(sub.user));
      hubs := hubs[sub.hub := hub];
      subs := subs[i := sub];
      BroadcastFrame(hub.subscribers, SyncUpdate(payload), i);
    }

    /** One turn of the receive loop, up to a suspension on a full queue. */
    method HandleFrame(i: SubId, f: Received)
      requires Valid() && Receiving(View(), i)
      modifies this`hubs, this`subs
      ensures Enabled(old(View()), EventOf(i, f)) && View() == Apply(old(View()), EventOf(i, f))
      ensures Valid()
      ensures FrameEffect(old(View()), View(), i, f)
    {
      StepKeepsValid(View(), EventOf(i, f));
      StepHasEffect(View(), i, f);
      if f.Empty? {
        return;
      }
      if f.tag == TAG_SYNC_STEP1 {
        if f.doc.Some? { AnswerStateVector(i, f.doc.value); }
      } else if f.tag == TAG_SYNC_UPDATE || f.tag == TAG_SYNC_STEP2 {
        if f.doc.Some? { TakeUpdate(i, f.doc.value); }
      } else if f.tag == TAG_AWARENESS_UPDATE {
        BroadcastFrame(hubs[subs[i].hub].subscribers, AwarenessUpdate(f.bytes), i);
      }
    }

    method ResumeSuspendedPut(i: SubId)
      requires Valid() && Enabled(View(), ResumePut(i))
      modifies this`subs
      ensures View() == Apply(old(View()), ResumePut(i))
      ensures Valid()
      ensures subs[i].awaiting.None? && Reach(subs[i]) == old(Reach(subs[i]))
      ensures subs[i].outbound == old(subs)[i].outbound + [old(subs)[i].awaiting.value]
    {
      StepKeepsValid(View(), ResumePut(i));
      CarriedAppend(subs[i].outbound, subs[i].awaiting.value);
      subs := subs[i := subs[i].(outbound := subs[i].outbound + [subs[i].awaiting.value], awaiting := None)];
    }

    method Pump(i: SubId)
      requires Valid() && Enabled(View(), PumpTake(i))
      modifies this`subs
      ensures View() == Apply(old(View()), PumpTake(i))
      ensures Valid()
      ensures Reach(subs[i]) == old(Reach(subs[i]))
      ensures old(subs)[i].outbound == [old(subs)[i].outbound[0]] + subs[i].outbound
    {
      StepKeepsValid(View(), PumpTake(i));
      CarriedTail(subs[i].outbound);
      var frame := subs[i].outbound[0];
      subs := subs[i := subs[i].(outbound := subs[i].outbound[1..], taken := subs[i].taken + Carried(frame))];
    }

    method StopReceiving(i: SubId)
      requires Valid() && Enabled(View(), Disconnect(i))
      modifies this`subs
      ensures View() == Apply(old(View()), Disconnect(i))
      ensures Valid() && subs[i].dp in registry && registry[subs[i].dp] == subs[i].hub
      ensures subs[i].hub in hubs && i in hubs[subs[i].hub].subscribers
    {
      StepKeepsValid(View(), Disconnect(i));
      subs := subs[i := subs[i].(phase := Leaving)];
      assert Listed(View(), i);
    }

    /** Remove the first occurrence of the subscriber from its own hub's list. */
    method Unsubscribe(i: SubId)
      requires Valid() && Enabled(View(), RemoveSubscriber(i))
      modifies this`hubs, this`subs
      ensures View() == Apply(old(View()), RemoveSubscriber(i))
      ensures Valid()
      ensures forall j :: j in hubs[subs[i].hub].subscribers <==> j in old(hubs[subs[i].hub].subscribers) && j != i
    {
      StepKeepsValid(View(), RemoveSubscriber(i));
      RemoveFirstDropsExactlyOne(hubs[subs[i].hub].subscribers, i);
      var h := subs[i].hub;
      hubs := hubs[h := hubs[h].(subscribers := RemoveFirst(hubs[h].subscribers, i))];
      subs := subs[i := subs[i].(phase := Releasing)];
    }

    /** The release routine up to the wait for the cancelled flush task. */
    method ReleaseHubIfEmpty(i: SubId)
      requires Valid() && Enabled(View(), Release(i))
      modifies this
      ensures View() == Apply(old(View()), Release(i))
      ensures Valid()
      ensures subs == old(subs) - {i}
      ensures var dp := old(subs)[i].dp;
              lock == if dp in old(registry) && old(hubs)[old(registry)[dp]].subscribers == [] then Stopping(dp) else Free
    {
      StepKeepsValid(View(), Release(i));
      var dp := subs[i].dp;
      subs := subs - {i};
      if dp !in registry {
        return;
      }
      var h := registry[dp];
      if hubs[h].subscribers != [] {
        return;
      }
      lock := Stopping(dp);
      hubs := hubs[h := hubs[h].(flush := Stopped)];
    }

    method IssuePersistOf(h: HubId, flush: Flush)
      requires h in hubs
      modifies this`hubs, this`persists, this`nextPersist
      ensures View() == IssuePersist(old(View()), h, flush)
    {
      var author := hubs[h].author;
      hubs := hubs[h := hubs[h].(dirty := false, flush := flush)];
      persists := persists[nextPersist := Persist(h, author, None)];
      nextPersist := nextPersist + 1;
    }

    method FlushBeforeTearDown()
      requires Valid() && Enabled(View(), FinalFlush)
      modifies this
      ensures View() == Apply(old(View()), FinalFlush)
      ensures Valid()
      ensures var h := old(registry)[old(lock.dp)];
              if old(hubs)[h].dirty
              then persists == old(persists)[old(nextPersist) := Persist(h, old(hubs)[h].author, None)] && !hubs[h].dirty
              else persists == old(persists) && old(lock.dp) !in registry && lock == Free
    {
      StepKeepsValid(View(), FinalFlush);
      var dp := lock.dp;
      var h := registry[dp];
      if hubs[h].dirty {
        lock := Flushing(dp, nextPersist);
        IssuePersistOf(h, Stopped);
      } else {
        registry := registry - {dp};
        lock := Free;
      }
    }

    method FinishTearDown()
      requires Valid() && Enabled(View(), FinishRelease)
      modifies this
      ensures View() == Apply(old(View()), FinishRelease)
      ensures Valid()
      ensures forall i :: i in subs && subs[i].dp == old(lock.dp) ==> subs[i].phase.Releasing?
    {
      StepKeepsValid(View(), FinishRelease);
      registry := registry - {lock.dp};
      lock := Free;
    }

    /** The flush loop after its sleep. */
    method FlushOnce(h: HubId)
      requires Valid() && Enabled(View(), FlushTick(h))
      modifies this
      ensures View() == Apply(old(View()), FlushTick(h))
      ensures Valid()
      ensures if old(hubs)[h].dirty
              then persists == old(persists)[old(nextPersist) := Persist(h, old(hubs)[h].author, None)] && !hubs[h].dirty
              else persists == old(persists) && hubs == old(hubs)
    {
      StepKeepsValid(View(), FlushTick(h));
      if !hubs[h].dirty {
        return;
      }
      IssuePersistOf(h, Writing(nextPersist));
    }
  }
}
