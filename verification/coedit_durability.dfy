/**
 Accepted edits and the stored row.

 Tearing a hub down cancels its flush task but not a persist that task has already issued.  If that
 persist extracted the document before the last edits, it can overwrite the final flush.  So no edit is
 lost, and the stored document only grows, exactly when no teardown starts in that situation.
 */
module CoeditDurability {
  import opened Wrappers
  import opened CoeditHub
  import opened CoeditRegistration

  /** No outstanding persist of hub h holds a snapshot that misses part of the document. */
  ghost predicate CleanTeardown(s: Server, h: HubId) {
    h in s.hubs &&
    forall p :: p in s.persists && s.persists[p].hub == h && s.persists[p].snapshot.Some? ==>
      s.persists[p].snapshot.value == s.hubs[h].doc
  }

  ghost predicate Careful(s: Server, e: Event) {
    e.Release? && TearsDown(s, e.i) ==> CleanTeardown(s, s.registry[s.subs[e.i].dp])
  }

  ghost predicate CarefulRun(s: Server, es: seq<Event>)
    decreases |es|
  {
    es == [] || (Enabled(s, es[0]) && Careful(s, es[0]) && CarefulRun(Apply(s, es[0]), es[1..]))
  }

  /** Persist p will write everything hub h holds now. */
  ghost predicate WillSave(s: Server, h: HubId, p: PersistId) {
    && h in s.hubs && p in s.persists && s.persists[p].hub == h
    && (s.persists[p].snapshot.None? || s.persists[p].snapshot.value == s.hubs[h].doc)
  }

  /** Whatever hub h ever accepted is stored, or marked dirty, or about to be written. */
  ghost predicate Saved(s: Server, h: HubId)
    requires h in s.hubs
  {
    s.hubs[h].doc <= Stored(s, s.hubs[h].dp) || s.hubs[h].dirty || exists p :: WillSave(s, h, p)
  }

  ghost predicate NothingLost(s: Server) {
    forall h :: h in s.hubs ==> Saved(s, h) && (s.hubs[h].dirty ==> Registered(s, h))
  }

  ghost predicate StoredGrows(s: Server, t: Server) {
    forall dp :: Stored(s, dp) <= Stored(t, dp)
  }

  /** Hub h is the latest hub created for its product. */
  ghost predicate Newest(s: Server, h: HubId)
    requires h in s.hubs
  {
    forall k :: k in s.hubs && s.hubs[k].dp == s.hubs[h].dp ==> k <= h
  }

  /** Only the newest hub has outstanding persists; a snapshot covers the row and stays below the document. */
  ghost predicate PersistOk(s: Server, h: HubId, p: PersistId)
    requires h in s.hubs && p in s.persists
  {
    && s.persists[p].author.Some?
    && Newest(s, h)
    && Stored(s, s.hubs[h].dp) <= s.hubs[h].doc
    && (s.persists[p].snapshot.Some? ==>
          Stored(s, s.hubs[h].dp) <= s.persists[p].snapshot.value <= s.hubs[h].doc)
    && (!s.hubs[h].flush.Stopped? ==> s.hubs[h].flush == Writing(p))
  }

  /** A running flush task has issued the only outstanding persist.  Once it is stopped the document
      is frozen and every snapshot is complete. */
  ghost predicate HubOk(s: Server, h: HubId)
    requires h in s.hubs
  {
    var hub := s.hubs[h];
    && Saved(s, h)
    && (hub.dirty ==> Registered(s, h) && hub.author.Some?)
    && (Registered(s, h) ==> Newest(s, h) && Stored(s, hub.dp) <= hub.doc)
    && (!hub.flush.Stopped? ==> Registered(s, h))
    && (hub.flush.Stopped? ==> hub.subscribers == [] && CleanTeardown(s, h))
    && (hub.flush.Stopped? && Registered(s, h) ==> HeldFor(s.lock, hub.dp))
    && (forall p :: p in s.persists && s.persists[p].hub == h ==> PersistOk(s, h, p))
  }

  ghost predicate HeldFor(lock: Lock, dp: DpId) {
    (lock.Stopping? || lock.Flushing?) && lock.dp == dp
  }

  ghost predicate Durable(s: Server) {
    forall h :: h in s.hubs ==> HubOk(s, h)
  }

  ghost predicate Sound(s: Server) { Registration(s) && Durable(s) }

  /** A step leaves hub h alone when it keeps its record, its row, its persists and its standing. */
  lemma CarryHub(s: Server, t: Server, h: HubId)
    requires h in s.hubs && h in t.hubs && HubOk(s, h)
    requires t.hubs[h] == s.hubs[h].(subscribers := t.hubs[h].subscribers)
    requires s.hubs[h].flush.Stopped? ==> t.hubs[h].subscribers == []
    requires Registered(t, h) <==> Registered(s, h)
    requires s.hubs[h].flush.Stopped? && Registered(s, h) ==> HeldFor(t.lock, s.hubs[h].dp)
    requires Stored(t, s.hubs[h].dp) == Stored(s, s.hubs[h].dp)
    requires forall p :: p in s.persists && s.persists[p].hub == h ==> p in t.persists && t.persists[p] == s.persists[p]
    requires forall p :: p in t.persists && t.persists[p].hub == h ==> p in s.persists && s.persists[p] == t.persists[p]
    requires Newest(s, h) ==> Newest(t, h)
    ensures HubOk(t, h)
  {
    if p :| WillSave(s, h, p) { assert WillSave(t, h, p); }
    forall p | p in t.persists && t.persists[p].hub == h ensures PersistOk(t, h, p) {
      assert PersistOk(s, h, p);
    }
  }

  lemma JoinKeepsHubs(s: Server, i: SubId, dp: DpId, user: UserId, h: HubId)
    requires Durable(s) && s.lock.Free? && dp in s.registry && s.registry[dp] == h && h in s.hubs && s.hubs[h].dp == dp
    ensures Durable(Join(s, i, dp, user, h))
  {
    var t := Join(s, i, dp, user, h);
    forall k | k in t.hubs ensures HubOk(t, k) {
      assert HubOk(s, k);
      CarryHub(s, t, k);
    }
  }

  /** The state with a new hub loaded from the row, not yet joined. */
  function Loaded(s: Server): Server
    requires s.lock.Creating?
  {
    var hub := Hub(s.lock.dp, Stored(s, s.lock.dp), [], false, None, Sleeping);
    s.(registry := s.registry[s.lock.dp := s.nextHub], hubs := s.hubs[s.nextHub := hub],
       nextHub := s.nextHub + 1, lock := Free)
  }

  /** A hub created after its product has settled starts from the row. */
  lemma LoadKeepsHubs(s: Server)
    requires RegistryOk(s) && Durable(s) && Enabled(s, FinishCreate) && s.lock.dp !in s.registry
    requires PersistsOk(s)
    ensures Durable(Loaded(s))
  {
    forall k | k in Loaded(s).hubs ensures HubOk(Loaded(s), k) {
      if k != s.nextHub {
        assert HubOk(s, k);
        SettledHub(s, Loaded(s), k);
      } else {
        NewHub(s);
      }
    }
  }

  lemma NewHub(s: Server)
    requires RegistryOk(s) && Enabled(s, FinishCreate) && PersistsOk(s)
    ensures HubOk(Loaded(s), s.nextHub)
  {
    assert forall p :: p in s.persists ==> s.persists[p].hub != s.nextHub;
  }

  lemma CreateKeepsHubs(s: Server)
    requires RegistryOk(s) && Durable(s) && Enabled(s, FinishCreate) && s.lock.dp !in s.registry
    requires PersistsOk(s)
    ensures Durable(Apply(s, FinishCreate))
  {
    LoadKeepsHubs(s);
    JoinKeepsHubs(Loaded(s), s.lock.i, s.lock.dp, s.lock.user, s.nextHub);
  }

  lemma SettledHub(s: Server, t: Server, k: HubId)
    requires RegistryOk(s) && Enabled(s, FinishCreate) && s.lock.dp !in s.registry && k in s.hubs && HubOk(s, k)
    requires t == Loaded(s)
    ensures HubOk(t, k)
  {
    if s.hubs[k].dp == s.lock.dp {
      assert !Registered(s, k);
      assert forall p :: !WillSave(s, k, p);
    } else {
      CarryHub(s, t, k);
    }
  }

  lemma UpdateKeepsHubs(s: Server, i: SubId, payload: Doc)
    requires Durable(s) && Enabled(s, ReceiveUpdate(i, payload)) && Listed(s, i) && RegistryOk(s)
    ensures Durable(Apply(s, ReceiveUpdate(i, payload)))
  {
    var t := Apply(s, ReceiveUpdate(i, payload));
    var h := s.subs[i].hub;
    forall k | k in t.hubs ensures HubOk(t, k) {
      assert HubOk(s, k);
      if k != h {
        CarryHub(s, t, k);
      } else {
        forall p | p in t.persists && t.persists[p].hub == h ensures PersistOk(t, h, p) {
          assert PersistOk(s, h, p);
        }
      }
    }
  }

  lemma RemoveKeepsHubs(s: Server, i: SubId)
    requires Durable(s) && Enabled(s, RemoveSubscriber(i))
    ensures Durable(Apply(s, RemoveSubscriber(i)))
  {
    var t := Apply(s, RemoveSubscriber(i));
    forall k | k in t.hubs ensures HubOk(t, k) {
      assert HubOk(s, k);
      CarryHub(s, t, k);
    }
  }

  lemma ReleaseKeepsHubs(s: Server, i: SubId)
    requires RegistryOk(s) && Durable(s) && Enabled(s, Release(i)) && Careful(s, Release(i))
    ensures Durable(Apply(s, Release(i)))
  {
    var t := Apply(s, Release(i));
    forall k | k in t.hubs ensures HubOk(t, k) {
      assert HubOk(s, k);
      if TearsDown(s, i) && k == s.registry[s.subs[i].dp] {
        if p :| WillSave(s, k, p) { assert WillSave(t, k, p); }
        forall p | p in t.persists && t.persists[p].hub == k ensures PersistOk(t, k, p) {
          assert PersistOk(s, k, p);
        }
      } else {
        CarryHub(s, t, k);
      }
    }
  }

  lemma IssueKeepsHubs(s: Server, h: HubId, flush: Flush, lock: Lock)
    requires Durable(s) && PersistsOk(s) && h in s.hubs && s.hubs[h].dirty
    requires (s.hubs[h].flush.Sleeping? && flush == Writing(s.nextPersist) && lock == s.lock)
          || (s.hubs[h].flush.Stopped? && flush.Stopped? && s.lock.Stopping? && lock == Flushing(s.lock.dp, s.nextPersist))
    ensures Durable(IssuePersist(s, h, flush).(lock := lock))
  {
    var t := IssuePersist(s, h, flush).(lock := lock);
    forall k | k in t.hubs ensures HubOk(t, k) {
      assert HubOk(s, k);
      if k != h {
        CarryHub(s, t, k);
      } else {
        assert WillSave(t, h, s.nextPersist);
        forall p | p in t.persists && t.persists[p].hub == h ensures PersistOk(t, h, p) {
          if p != s.nextPersist { assert PersistOk(s, h, p); }
        }
      }
    }
  }

  /** The hub taken off the registry is not dirty, so what it accepted is stored or being written. */
  lemma PopKeepsHubs(s: Server)
    requires RegistryOk(s) && Durable(s) && (s.lock.Stopping? || s.lock.Flushing?) && TornDown(s, s.lock.dp)
    requires !s.hubs[s.registry[s.lock.dp]].dirty
    ensures Durable(s.(registry := s.registry - {s.lock.dp}, lock := Free))
  {
    var t := s.(registry := s.registry - {s.lock.dp}, lock := Free);
    forall k | k in t.hubs ensures HubOk(t, k) {
      assert HubOk(s, k);
      if k == s.registry[s.lock.dp] {
        if p :| WillSave(s, k, p) { assert WillSave(t, k, p); }
        forall p | p in t.persists && t.persists[p].hub == k ensures PersistOk(t, k, p) {
          assert PersistOk(s, k, p);
        }
      } else {
        CarryHub(s, t, k);
      }
    }
  }

  lemma FlushReturnKeepsHubs(s: Server, h: HubId)
    requires Durable(s) && Enabled(s, FlushReturn(h))
    ensures Durable(Apply(s, FlushReturn(h)))
  {
    var t := Apply(s, FlushReturn(h));
    forall k | k in t.hubs ensures HubOk(t, k) {
      assert HubOk(s, k);
      if k != h {
        CarryHub(s, t, k);
      } else {
        assert forall p :: p in s.persists ==> s.persists[p].hub != h;
      }
    }
  }

  lemma ExtractKeepsHubs(s: Server, p: PersistId)
    requires Durable(s) && Enabled(s, Extract(p))
    ensures Durable(Apply(s, Extract(p)))
  {
    var t := Apply(s, Extract(p));
    forall k | k in t.hubs ensures HubOk(t, k) {
      assert HubOk(s, k);
      if k != s.persists[p].hub {
        CarryHub(s, t, k);
      } else {
        if q :| WillSave(s, k, q) { assert WillSave(t, k, q); }
        forall q | q in t.persists && t.persists[q].hub == k ensures PersistOk(t, k, q) {
          assert PersistOk(s, k, q);
        }
      }
    }
  }

  lemma WriteKeepsHubs(s: Server, p: PersistId)
    requires Durable(s) && Enabled(s, WriteRow(p))
    ensures Durable(Apply(s, WriteRow(p)))
    ensures StoredGrows(s, Apply(s, WriteRow(p)))
  {
    var t := Apply(s, WriteRow(p));
    var h := s.persists[p].hub;
    assert HubOk(s, h) && PersistOk(s, h, p);
    forall k | k in t.hubs ensures HubOk(t, k) {
      assert HubOk(s, k);
      if s.hubs[k].dp != s.hubs[h].dp {
        CarryHub(s, t, k);
      } else {
        WriteKeepsSameProduct(s, p, k);
      }
    }
  }

  lemma WriteKeepsSameProduct(s: Server, p: PersistId, k: HubId)
    requires Enabled(s, WriteRow(p)) && k in s.hubs && HubOk(s, k)
    requires HubOk(s, s.persists[p].hub) && s.hubs[k].dp == s.hubs[s.persists[p].hub].dp
    ensures HubOk(Apply(s, WriteRow(p)), k)
  {
    var t := Apply(s, WriteRow(p));
    var h := s.persists[p].hub;
    assert PersistOk(s, h, p);
    if q :| WillSave(s, k, q) {
      if q != p { assert WillSave(t, k, q); }
    }
    forall q | q in t.persists && t.persists[q].hub == k ensures PersistOk(t, k, q) {
      assert PersistOk(s, k, q);
    }
  }

  lemma LifecycleStepIsDurable(s: Server, e: Event)
    requires Sound(s) && Enabled(s, e) && Careful(s, e)
    requires e.JoinExisting? || e.FinishCreate? || e.RemoveSubscriber? || e.Release?
    ensures Durable(Apply(s, e))
  {
    match e
    case JoinExisting(i, dp, user) => JoinKeepsHubs(s, i, dp, user, s.registry[dp]);
    case FinishCreate => CreateKeepsHubs(s);
    case RemoveSubscriber(i) => RemoveKeepsHubs(s, i);
    case Release(i) => ReleaseKeepsHubs(s, i);
  }

  lemma TeardownStepIsDurable(s: Server, e: Event)
    requires Sound(s) && Enabled(s, e) && (e.FinalFlush? || e.FinishRelease?)
    ensures Durable(Apply(s, e))
  {
    var h := s.registry[s.lock.dp];
    assert HubOk(s, h);
    if e.FinalFlush? && s.hubs[h].dirty {
      IssueKeepsHubs(s, h, Stopped, Flushing(s.lock.dp, s.nextPersist));
    } else {
      PopKeepsHubs(s);
    }
  }

  lemma PersistStepIsDurable(s: Server, e: Event)
    requires Sound(s) && Enabled(s, e)
    requires e.FlushTick? || e.FlushReturn? || e.Extract? || e.WriteRow?
    ensures Durable(Apply(s, e))
  {
    match e
    case FlushTick(h) =>
      if s.hubs[h].dirty { IssueKeepsHubs(s, h, Writing(s.nextPersist), s.lock); }
    case FlushReturn(h) => FlushReturnKeepsHubs(s, h);
    case Extract(p) => ExtractKeepsHubs(s, p);
    case WriteRow(p) => WriteKeepsHubs(s, p);
  }

  lemma ConnectionStepIsDurable(s: Server, e: Event)
    requires Sound(s) && Enabled(s, e)
    requires !e.JoinExisting? && !e.FinishCreate? && !e.RemoveSubscriber? && !e.Release? && !e.FinalFlush?
    requires !e.FinishRelease? && !e.FlushTick? && !e.FlushReturn? && !e.Extract? && !e.WriteRow?
    ensures Durable(Apply(s, e))
  {
    if e.ReceiveUpdate? {
      assert Listed(s, e.i);
      UpdateKeepsHubs(s, e.i, e.payload);
    } else {
      SameHubs(s, Apply(s, e));
    }
  }

  lemma StepGrowsRows(s: Server, e: Event)
    requires Durable(s) && Enabled(s, e)
    ensures StoredGrows(s, Apply(s, e))
  {
    if e.WriteRow? { WriteKeepsHubs(s, e.p); }
  }

  lemma {:induction false} StepIsDurable(s: Server, e: Event)
    requires Sound(s) && Enabled(s, e) && Careful(s, e)
    ensures Durable(Apply(s, e))
  {
    if e.JoinExisting? || e.FinishCreate? || e.RemoveSubscriber? || e.Release? { LifecycleStepIsDurable(s, e); }
    else if e.FinalFlush? || e.FinishRelease? { TeardownStepIsDurable(s, e); }
    else if e.FlushTick? || e.FlushReturn? || e.Extract? || e.WriteRow? { PersistStepIsDurable(s, e); }
    else { ConnectionStepIsDurable(s, e); }
  }

  lemma {:induction false} StepIsSound(s: Server, e: Event)
    requires Sound(s) && Enabled(s, e) && Careful(s, e)
    ensures Sound(Apply(s, e)) && StoredGrows(s, Apply(s, e))
  {
    StepKeepsRegistration(s, e);
    StepIsDurable(s, e);
    StepGrowsRows(s, e);
  }

  lemma SameHubs(s: Server, t: Server)
    requires Durable(s) && t.hubs == s.hubs && t.registry == s.registry && t.stored == s.stored
    requires t.persists == s.persists && (s.lock.Free? || t.lock == s.lock)
    ensures Durable(t)
  {
    forall k | k in t.hubs ensures HubOk(t, k) {
      assert HubOk(s, k);
      CarryHub(s, t, k);
    }
  }

  lemma {:induction false} CarefulRunIsSound(s: Server, es: seq<Event>)
    requires Sound(s) && CarefulRun(s, es)
    ensures ValidRun(s, es) && Sound(After(s, es)) && StoredGrows(s, After(s, es))
    decreases |es|
  {
    if es != [] {
      StepIsSound(s, es[0]);
      CarefulRunIsSound(Apply(s, es[0]), es[1..]);
    }
  }

  /** From start-up, with any rows: nothing accepted is lost, no row ever shrinks, and a registered
      document contains its row. */
  lemma NothingAcceptedIsLost(rows: map<DpId, Doc>, es: seq<Event>)
    requires CarefulRun(Init(rows), es)
    ensures ValidRun(Init(rows), es)
    ensures NothingLost(After(Init(rows), es)) && StoredGrows(Init(rows), After(Init(rows), es))
    ensures var s := After(Init(rows), es);
            forall h :: Registered(s, h) ==> Stored(s, s.hubs[h].dp) <= s.hubs[h].doc
  {
    CarefulRunIsSound(Init(rows), es);
    SoundLosesNothing(After(Init(rows), es));
    var s := After(Init(rows), es);
    forall h | Registered(s, h) ensures Stored(s, s.hubs[h].dp) <= s.hubs[h].doc {
      assert HubOk(s, h);
    }
  }

  lemma SoundLosesNothing(s: Server)
    requires Sound(s)
    ensures NothingLost(s)
  {
    forall h | h in s.hubs ensures Saved(s, h) && (s.hubs[h].dirty ==> Registered(s, h)) {
      assert HubOk(s, h);
    }
  }

  lemma StepGrowsDocuments(s: Server, e: Event)
    requires RegistryOk(s) && Enabled(s, e)
    ensures forall h :: h in s.hubs ==>
              h in Apply(s, e).hubs && s.hubs[h].doc <= Apply(s, e).hubs[h].doc && Apply(s, e).hubs[h].dp == s.hubs[h].dp
  {
  }

  lemma {:induction false} RunGrowsDocuments(s: Server, es: seq<Event>, h: HubId)
    requires Registration(s) && ValidRun(s, es) && h in s.hubs
    ensures h in After(s, es).hubs && s.hubs[h].doc <= After(s, es).hubs[h].doc && After(s, es).hubs[h].dp == s.hubs[h].dp
    decreases |es|
  {
    if es != [] {
      StepKeepsRegistration(s, es[0]);
      StepGrowsDocuments(s, es[0]);
      RunGrowsDocuments(Apply(s, es[0]), es[1..], h);
    }
  }

  /** An edit accepted at some point of a careful run is in its hub's document ever after, which is stored, marked
      dirty or about to be written; and it is in the row once the hub is gone and its persists have run. */
  lemma AcceptedEditIsSafe(rows: map<DpId, Doc>, es: seq<Event>, i: SubId, payload: Doc, fs: seq<Event>)
    requires CarefulRun(Init(rows), es) && ValidRun(Init(rows), es)
    requires var s := After(Init(rows), es);
             && Enabled(s, ReceiveUpdate(i, payload))
             && CarefulRun(Apply(s, ReceiveUpdate(i, payload)), fs) && ValidRun(Apply(s, ReceiveUpdate(i, payload)), fs)
    ensures var s := After(Init(rows), es);
            var t := After(Apply(s, ReceiveUpdate(i, payload)), fs);
            var h := s.subs[i].hub;
            && h in t.hubs && payload <= t.hubs[h].doc && Saved(t, h)
            && (t.hubs[h].dirty ==> Registered(t, h))
            && (!Registered(t, h) && (forall p :: p in t.persists ==> t.persists[p].hub != h) ==>
                  payload <= Stored(t, t.hubs[h].dp))
  {
    CarefulRunIsSound(Init(rows), es);
    var s := After(Init(rows), es);
    AcceptedFrom(s, i, payload);
    var h, s1 := s.subs[i].hub, Apply(s, ReceiveUpdate(i, payload));
    RunGrowsDocuments(s1, fs, h);
    CarefulRunIsSound(s1, fs);
    SoundLosesNothing(After(s1, fs));
  }

  lemma AcceptedFrom(s: Server, i: SubId, payload: Doc)
    requires Sound(s) && Enabled(s, ReceiveUpdate(i, payload))
    ensures var t, h := Apply(s, ReceiveUpdate(i, payload)), s.subs[i].hub;
            Sound(t) && h in t.hubs && payload <= t.hubs[h].doc
  {
    StepIsSound(s, ReceiveUpdate(i, payload));
  }

  /** What is stored stays stored, over any careful continuation. */
  lemma StoredStaysStored(rows: map<DpId, Doc>, es: seq<Event>, fs: seq<Event>, dp: DpId)
    requires CarefulRun(Init(rows), es) && ValidRun(Init(rows), es)
    requires CarefulRun(After(Init(rows), es), fs) && ValidRun(After(Init(rows), es), fs)
    ensures Stored(After(Init(rows), es), dp) <= Stored(After(After(Init(rows), es), fs), dp)
  {
    CarefulRunIsSound(Init(rows), es);
    CarefulRunIsSound(After(Init(rows), es), fs);
  }

  /** The edits a client got accepted are safe while it is connected and after it has gone: its hub still
      accounts for them, and once that hub is off the registry and its persists have run they are in the row. */
  lemma RemovedHubIsStored(rows: map<DpId, Doc>, es: seq<Event>, h: HubId)
    requires CarefulRun(Init(rows), es) && ValidRun(Init(rows), es)
    requires var s := After(Init(rows), es);
             h in s.hubs && !Registered(s, h) && forall p :: p in s.persists ==> s.persists[p].hub != h
    ensures var s := After(Init(rows), es); s.hubs[h].doc <= Stored(s, s.hubs[h].dp)
  {
    NothingAcceptedIsLost(rows, es);
    var s := After(Init(rows), es);
    assert Saved(s, h);
  }

  // The exact condition

  ghost predicate NeverLoses(s: Server) {
    forall es :: CarefulRun(s, es) && ValidRun(s, es) ==> NothingLost(After(s, es))
  }

  lemma Prepend(s: Server, e: Event, es: seq<Event>)
    requires Enabled(s, e) && Careful(s, e) && CarefulRun(Apply(s, e), es) && ValidRun(Apply(s, e), es)
    ensures CarefulRun(s, [e] + es) && ValidRun(s, [e] + es) && After(s, [e] + es) == After(Apply(s, e), es)
  {
    assert ([e] + es)[1..] == es;
  }

  ghost predicate KnownAndOk(s: Server, h: HubId) { h in s.hubs && HubOk(s, h) }

  /** A stale persist is the only one of its hub, and the hub is dirty. */
  lemma StaleMeansDirty(s: Server, h: HubId, p: PersistId)
    requires KnownAndOk(s, h) && s.lock.Free? && Registered(s, h)
    requires p in s.persists && s.persists[p].hub == h && s.persists[p].snapshot.Some?
    requires s.persists[p].snapshot.value != s.hubs[h].doc
    ensures s.hubs[h].dirty && s.persists[p].snapshot.value < s.hubs[h].doc
    ensures forall q :: q in s.persists && s.persists[q].hub == h ==> q == p
  {
    assert PersistOk(s, h, p);
    forall q | q in s.persists && s.persists[q].hub == h ensures q == p {
      assert PersistOk(s, h, q);
    }
  }

  /** The unlucky schedule: the cancelled flush task's persist writes after the final flush. */
  ghost function LateWrite(p: PersistId, q: PersistId): seq<Event> {
    [FinalFlush] + ([Extract(q)] + ([WriteRow(q)] + ([FinishRelease] + [WriteRow(p)])))
  }

  /** Hub h of product dp is clean with document doc, and persist p of it holds snapshot stale. */
  ghost predicate LatePersist(s: Server, dp: DpId, h: HubId, p: PersistId, doc: Doc, stale: Doc) {
    && h in s.hubs && s.hubs[h].dp == dp && s.hubs[h].doc == doc && !s.hubs[h].dirty
    && p in s.persists && s.persists[p].hub == h && s.persists[p].snapshot == Some(stale)
  }

  /** Every persist of hub h but p is done, the row is what p extracted, and nothing is dirty. */
  ghost predicate Overwritten(
      s: Server, dp: DpId, h: HubId, p: PersistId, others: map<PersistId, Persist>, doc: Doc, stale: Doc)
  {
    && h in s.hubs && s.hubs[h].dp == dp && s.hubs[h].doc == doc && !s.hubs[h].dirty
    && Stored(s, dp) == stale && s.persists == others - {p}
  }

  lemma LateWriteEnds(s: Server, dp: DpId, h: HubId, p: PersistId, q: PersistId, doc: Doc, stale: Doc)
    requires LatePersist(s, dp, h, p, doc, stale) && s.lock == Flushing(dp, q) && q !in s.persists
    ensures var es := [FinishRelease] + [WriteRow(p)];
            CarefulRun(s, es) && ValidRun(s, es) && Overwritten(After(s, es), dp, h, p, s.persists, doc, stale)
  {
    var t := Apply(s, FinishRelease);
    var u := Apply(t, WriteRow(p));
    assert CarefulRun(u, []) && ValidRun(u, []) && After(u, []) == u;
    Prepend(t, WriteRow(p), []);
    assert [WriteRow(p)] + [] == [WriteRow(p)];
    Prepend(s, FinishRelease, [WriteRow(p)]);
  }

  lemma LateWriteFlushes(
      s: Server, dp: DpId, h: HubId, p: PersistId, q: PersistId, others: map<PersistId, Persist>, doc: Doc, stale: Doc)
    requires LatePersist(s, dp, h, p, doc, stale) && s.lock == Flushing(dp, q)
    requires q !in others && p in others && q in s.persists && s.persists[q].hub == h && s.persists[q].snapshot.None?
    requires s.persists - {q} == others
    ensures var es := [Extract(q)] + ([WriteRow(q)] + ([FinishRelease] + [WriteRow(p)]));
            CarefulRun(s, es) && ValidRun(s, es) && Overwritten(After(s, es), dp, h, p, others, doc, stale)
  {
    var t := Apply(s, Extract(q));
    var u := Apply(t, WriteRow(q));
    assert u.persists == others;
    LateWriteEnds(u, dp, h, p, q, doc, stale);
    Prepend(t, WriteRow(q), [FinishRelease] + [WriteRow(p)]);
    Prepend(s, Extract(q), [WriteRow(q)] + ([FinishRelease] + [WriteRow(p)]));
  }

  lemma LateWriteRuns(s: Server, dp: DpId, h: HubId, p: PersistId)
    requires s.lock == Stopping(dp) && dp in s.registry && s.registry[dp] == h
    requires h in s.hubs && s.hubs[h].dp == dp && s.hubs[h].dirty
    requires p in s.persists && s.persists[p].hub == h && s.persists[p].snapshot.Some? && s.nextPersist !in s.persists
    ensures var es := LateWrite(p, s.nextPersist);
            && CarefulRun(s, es) && ValidRun(s, es)
            && Overwritten(After(s, es), dp, h, p, s.persists, s.hubs[h].doc, s.persists[p].snapshot.value)
  {
    var q := s.nextPersist;
    var t := Apply(s, FinalFlush);
    assert t.persists - {q} == s.persists;
    LateWriteFlushes(t, dp, h, p, q, s.persists, s.hubs[h].doc, s.persists[p].snapshot.value);
    Prepend(s, FinalFlush, [Extract(q)] + ([WriteRow(q)] + ([FinishRelease] + [WriteRow(p)])));
  }

  lemma StaleTeardownLoses(s: Server, i: SubId, p: PersistId)
    requires Sound(s) && Enabled(s, Release(i)) && TearsDown(s, i)
    requires var h := s.registry[s.subs[i].dp];
             && p in s.persists && s.persists[p].hub == h && s.persists[p].snapshot.Some?
             && s.persists[p].snapshot.value != s.hubs[h].doc
    ensures var t := Apply(s, Release(i));
            var es := LateWrite(p, s.nextPersist);
            CarefulRun(t, es) && ValidRun(t, es) && !NothingLost(After(t, es))
  {
    var dp := s.subs[i].dp;
    var h := s.registry[dp];
    assert HubOk(s, h);
    StaleMeansDirty(s, h, p);
    var t := Apply(s, Release(i));
    LateWriteRuns(t, dp, h, p);
    assert !Saved(After(t, LateWrite(p, s.nextPersist)), h);
  }

  /** Starting a teardown is safe on every continuation exactly when no outstanding persist of the hub
      holds an incomplete snapshot. */
  lemma TeardownIsSafeIff(s: Server, i: SubId)
    requires Sound(s) && Enabled(s, Release(i)) && TearsDown(s, i)
    ensures CleanTeardown(s, s.registry[s.subs[i].dp]) <==> NeverLoses(Apply(s, Release(i)))
  {
    var h := s.registry[s.subs[i].dp];
    var t := Apply(s, Release(i));
    if CleanTeardown(s, h) {
      StepIsSound(s, Release(i));
      forall es | CarefulRun(t, es) && ValidRun(t, es) ensures NothingLost(After(t, es)) {
        CarefulRunIsSound(t, es);
        SoundLosesNothing(After(t, es));
      }
    } else {
      var p :| p in s.persists && s.persists[p].hub == h && s.persists[p].snapshot.Some?
               && s.persists[p].snapshot.value != s.hubs[h].doc;
      StaleTeardownLoses(s, i, p);
    }
  }

  /** At every point of the run, every careful continuation loses nothing. */
  ghost predicate SafeThroughout(s: Server, es: seq<Event>)
    requires ValidRun(s, es)
    decreases |es|
  {
    NeverLoses(s) && (es == [] || SafeThroughout(Apply(s, es[0]), es[1..]))
  }

  lemma SoundNeverLoses(s: Server)
    requires Sound(s)
    ensures NeverLoses(s)
  {
    forall es | CarefulRun(s, es) && ValidRun(s, es) ensures NothingLost(After(s, es)) {
      CarefulRunIsSound(s, es);
      SoundLosesNothing(After(s, es));
    }
  }

  /** A run can be trusted with all edits throughout exactly when its teardowns are careful. */
  lemma {:induction false} RunIsSafeIffCareful(s: Server, es: seq<Event>)
    requires Sound(s) && ValidRun(s, es)
    ensures SafeThroughout(s, es) <==> CarefulRun(s, es)
    decreases |es|
  {
    SoundNeverLoses(s);
    if es != [] {
      var e := es[0];
      if Careful(s, e) {
        StepIsSound(s, e);
        RunIsSafeIffCareful(Apply(s, e), es[1..]);
      } else {
        TeardownIsSafeIff(s, e.i);
      }
    }
  }
}
