/**
 The canvas co-edit hub as a step system.

 One step is one stretch of code that runs without a suspension point of the event loop
 (or one read or write of the database thread).  A CRDT document is a set of update ids:
 applying an update is union, and the update relative to a state vector is difference.
 */
module CoeditHub {
  import opened Wrappers

  type DpId = int
  type UserId = int
  type HubId = nat
  type SubId = nat
  type PersistId = nat
  type Doc = set<nat>

  const QUEUE_MAXSIZE: nat := 256

  datatype Frame = SyncStep2(update: Doc) | SyncUpdate(update: Doc) | AwarenessUpdate(payload: nat)

  function Carried(f: Frame): Doc {
    if f.AwarenessUpdate? then {} else f.update
  }

  function AllCarried(q: seq<Frame>): Doc {
    set i, u | 0 <= i < |q| && u in Carried(q[i]) :: u
  }

  /** Live: the handler receives.  Leaving: the receive loop has ended.  Releasing: taken off the
      hub's list, the call of the release routine is still to come. */
  datatype Phase = Live | Leaving | Releasing

  /** `awaiting` is the frame of a handler suspended on a full queue.  The last three fields are
      history: updates of this client the hub accepted, updates its pump has taken from the queue, and
      whether a document frame was dropped since an exchange last brought it level. */
  datatype Subscriber = Subscriber(
    dp: DpId, hub: HubId, user: UserId, outbound: seq<Frame>, awaiting: Option<Frame>, phase: Phase,
    accepted: Doc, taken: Doc, overflowed: bool)

  /** The flush task sleeps, waits for a persist, or has been cancelled. */
  datatype Flush = Sleeping | Writing(p: PersistId) | Stopped

  datatype Hub = Hub(
    dp: DpId, doc: Doc, subscribers: seq<SubId>, dirty: bool, author: Option<UserId>, flush: Flush)

  /** Who holds the registry lock across a suspension. */
  datatype Lock =
    | Free
    | Creating(i: SubId, dp: DpId, user: UserId)
    | Stopping(dp: DpId)
    | Flushing(dp: DpId, p: PersistId)

  /** An issued persist.  It runs on another thread: it first extracts the live document, later
      it writes what it extracted. */
  datatype Persist = Persist(hub: HubId, author: Option<UserId>, snapshot: Option<Doc>)

  /** `hubs` keeps a hub after it leaves the registry, since an issued persist still refers to it. */
  datatype Server = Server(
    registry: map<DpId, HubId>, hubs: map<HubId, Hub>, subs: map<SubId, Subscriber>, lock: Lock,
    stored: map<DpId, Doc>, persists: map<PersistId, Persist>, nextHub: HubId, nextPersist: PersistId)

  datatype Event =
    | JoinExisting(i: SubId, dp: DpId, user: UserId)
    | BeginCreate(i: SubId, dp: DpId, user: UserId)
    | FinishCreate
    | ReceiveStep1(i: SubId, sv: Doc)
    | ResumePut(i: SubId)
    | ReceiveUpdate(i: SubId, payload: Doc)
    | ReceiveAwareness(i: SubId, bytes: nat)
    | ReceiveMalformed(i: SubId)
    | PumpTake(i: SubId)
    | Disconnect(i: SubId)
    | RemoveSubscriber(i: SubId)
    | Release(i: SubId)
    | FinalFlush
    | FinishRelease
    | FlushTick(h: HubId)
    | FlushReturn(h: HubId)
    | Extract(p: PersistId)
    | WriteRow(p: PersistId)

  function Init(stored: map<DpId, Doc>): Server {
    Server(map[], map[], map[], Free, stored, map[], 0, 0)
  }

  function Stored(s: Server, dp: DpId): Doc {
    if dp in s.stored then s.stored[dp] else {}
  }

  predicate Registered(s: Server, h: HubId) {
    h in s.hubs && s.hubs[h].dp in s.registry && s.registry[s.hubs[h].dp] == h
  }

  /** No issued persist of product dp is still running. */
  predicate Settled(s: Server, dp: DpId) {
    forall p :: p in s.persists ==> s.persists[p].hub in s.hubs && s.hubs[s.persists[p].hub].dp != dp
  }

  predicate Receiving(s: Server, i: SubId) {
    i in s.subs && s.subs[i].phase.Live? && s.subs[i].awaiting.None? && s.subs[i].hub in s.hubs
  }

  /** The release routine called for i goes on to tear its product's hub down. */
  predicate TearsDown(s: Server, i: SubId) {
    && i in s.subs
    && s.subs[i].dp in s.registry
    && s.registry[s.subs[i].dp] in s.hubs
    && s.hubs[s.registry[s.subs[i].dp]].subscribers == []
  }

  predicate Enabled(s: Server, e: Event) {
    match e
    case JoinExisting(i, dp, user) =>
      s.lock.Free? && i !in s.subs && dp in s.registry && s.registry[dp] in s.hubs
    case BeginCreate(i, dp, user) => s.lock.Free? && i !in s.subs && dp !in s.registry
    case FinishCreate => s.lock.Creating? && Settled(s, s.lock.dp)
    case ReceiveStep1(i, sv) => Receiving(s, i)
    case ResumePut(i) =>
      i in s.subs && s.subs[i].awaiting.Some? && |s.subs[i].outbound| < QUEUE_MAXSIZE
    case ReceiveUpdate(i, payload) => Receiving(s, i)
    case ReceiveAwareness(i, bytes) => Receiving(s, i)
    case ReceiveMalformed(i) => Receiving(s, i)
    case PumpTake(i) => i in s.subs && s.subs[i].phase.Live? && s.subs[i].outbound != []
    case Disconnect(i) => Receiving(s, i)
    case RemoveSubscriber(i) => i in s.subs && s.subs[i].phase.Leaving? && s.subs[i].hub in s.hubs
    case Release(i) =>
      && s.lock.Free? && i in s.subs && s.subs[i].phase.Releasing?
      && (s.subs[i].dp in s.registry ==> s.registry[s.subs[i].dp] in s.hubs)
    case FinalFlush => s.lock.Stopping? && s.lock.dp in s.registry && s.registry[s.lock.dp] in s.hubs
    case FinishRelease => s.lock.Flushing? && s.lock.p !in s.persists
    case FlushTick(h) => h in s.hubs && s.hubs[h].flush.Sleeping?
    case FlushReturn(h) => h in s.hubs && s.hubs[h].flush.Writing? && s.hubs[h].flush.p !in s.persists
    case Extract(p) =>
      p in s.persists && s.persists[p].snapshot.None? && s.persists[p].hub in s.hubs
    case WriteRow(p) => p in s.persists && s.persists[p].snapshot.Some? && s.persists[p].hub in s.hubs
  }

  /** Non-blocking put: a full queue drops the frame. */
  function Offer(sub: Subscriber, f: Frame): Subscriber {
    if |sub.outbound| < QUEUE_MAXSIZE then sub.(outbound := sub.outbound + [f])
    else if f.AwarenessUpdate? then sub
    else sub.(overflowed := true)
  }

  /** Awaited put: a full queue suspends the handler. */
  function Put(sub: Subscriber, f: Frame): Subscriber {
    if |sub.outbound| < QUEUE_MAXSIZE then sub.(outbound := sub.outbound + [f])
    else sub.(awaiting := Some(f))
  }

  function InFlight(sub: Subscriber): Doc {
    AllCarried(sub.outbound) + (if sub.awaiting.Some? then Carried(sub.awaiting.value) else {})
  }

  /** Own accepted edits, frames the pump has taken, frames still queued or waiting for a slot. */
  function Reach(sub: Subscriber): Doc {
    sub.accepted + sub.taken + InFlight(sub)
  }

  /** The state vector claims nothing of the document that never got on its way to this client. */
  predicate BringsLevel(sub: Subscriber, sv: Doc, doc: Doc) {
    sv * doc <= Reach(sub)
  }

  function Broadcast(subs: map<SubId, Subscriber>, listed: seq<SubId>, f: Frame, exclude: SubId)
    : map<SubId, Subscriber>
  {
    map j | j in subs :: if j in listed && j != exclude then Offer(subs[j], f) else subs[j]
  }

  function RemoveFirst(ids: seq<SubId>, i: SubId): seq<SubId> {
    if ids == [] then []
    else if ids[0] == i then ids[1..]
    else [ids[0]] + RemoveFirst(ids[1..], i)
  }

  /** Append the subscriber and queue the full state as its first frame. */
  function Join(s: Server, i: SubId, dp: DpId, user: UserId, h: HubId): Server
    requires h in s.hubs
  {
    var hub := s.hubs[h];
    var sub := Subscriber(dp, h, user, [], None, Live, {}, {}, false);
    s.(hubs := s.hubs[h := hub.(subscribers := hub.subscribers + [i])],
       subs := s.subs[i := Put(sub, SyncStep2(hub.doc))])
  }

  function IssuePersist(s: Server, h: HubId, flush: Flush): Server
    requires h in s.hubs
  {
    var hub := s.hubs[h];
    s.(hubs := s.hubs[h := hub.(dirty := false, flush := flush)],
       persists := s.persists[s.nextPersist := Persist(h, hub.author, None)],
       nextPersist := s.nextPersist + 1)
  }

  function Apply(s: Server, e: Event): Server
    requires Enabled(s, e)
  {
    match e
    case JoinExisting(i, dp, user) => Join(s, i, dp, user, s.registry[dp])
    case BeginCreate(i, dp, user) => s.(lock := Creating(i, dp, user))
    case FinishCreate =>
      var Creating(i, dp, user) := s.lock;
      var h := s.nextHub;
      var hub := Hub(dp, Stored(s, dp), [], false, None, Sleeping);
      Join(s.(registry := s.registry[dp := h], hubs := s.hubs[h := hub], nextHub := h + 1, lock := Free),
           i, dp, user, h)
    case ReceiveStep1(i, sv) =>
      var sub := s.subs[i];
      var diff := s.hubs[sub.hub].doc - sv;
      var levels := BringsLevel(sub, sv, s.hubs[sub.hub].doc);
      s.(subs := s.subs[i := Put(sub.(overflowed := sub.overflowed && !levels), SyncStep2(diff))])
    case ResumePut(i) =>
      var sub := s.subs[i];
      s.(subs := s.subs[i := sub.(outbound := sub.outbound + [sub.awaiting.value], awaiting := None)])
    case ReceiveUpdate(i, payload) =>
      var sub := s.subs[i];
      var hub := s.hubs[sub.hub];
      var subs := s.subs[i := sub.(accepted := sub.accepted + payload)];
      s.(hubs := s.hubs[sub.hub := hub.(doc := hub.doc + payload, dirty := true, author := Some(sub.user))],
         subs := Broadcast(subs, hub.subscribers, SyncUpdate(payload), i))
    case ReceiveAwareness(i, bytes) =>
      s.(subs := Broadcast(s.subs, s.hubs[s.subs[i].hub].subscribers, AwarenessUpdate(bytes), i))
    case ReceiveMalformed(i) => s
    case PumpTake(i) =>
      var sub := s.subs[i];
      s.(subs := s.subs[i := sub.(outbound := sub.outbound[1..], taken := sub.taken + Carried(sub.outbound[0]))])
    case Disconnect(i) => s.(subs := s.subs[i := s.subs[i].(phase := Leaving)])
    case RemoveSubscriber(i) =>
      var hub := s.hubs[s.subs[i].hub];
      s.(hubs := s.hubs[s.subs[i].hub := hub.(subscribers := RemoveFirst(hub.subscribers, i))],
         subs := s.subs[i := s.subs[i].(phase := Releasing)])
    case Release(i) =>
      var gone := s.(subs := s.subs - {i});
      if !TearsDown(s, i) then gone
      else
        var h := s.registry[s.subs[i].dp];
        gone.(hubs := s.hubs[h := s.hubs[h].(flush := Stopped)], lock := Stopping(s.subs[i].dp))
    case FinalFlush =>
      var dp := s.lock.dp;
      var h := s.registry[dp];
      if s.hubs[h].dirty then IssuePersist(s, h, Stopped).(lock := Flushing(dp, s.nextPersist))
      else s.(registry := s.registry - {dp}, lock := Free)
    case FinishRelease => s.(registry := s.registry - {s.lock.dp}, lock := Free)
    case FlushTick(h) => if s.hubs[h].dirty then IssuePersist(s, h, Writing(s.nextPersist)) else s
    case FlushReturn(h) => s.(hubs := s.hubs[h := s.hubs[h].(flush := Sleeping)])
    case Extract(p) =>
      var w := s.persists[p];
      s.(persists := s.persists[p := w.(snapshot := Some(s.hubs[w.hub].doc))])
    case WriteRow(p) =>
      var w := s.persists[p];
      s.(stored := s.stored[s.hubs[w.hub].dp := w.snapshot.value], persists := s.persists - {p})
  }

  // Runs

  ghost predicate ValidRun(s: Server, es: seq<Event>)
    decreases |es|
  {
    es == [] || (Enabled(s, es[0]) && ValidRun(Apply(s, es[0]), es[1..]))
  }

  ghost function After(s: Server, es: seq<Event>): Server
    requires ValidRun(s, es)
    decreases |es|
  {
    if es == [] then s else After(Apply(s, es[0]), es[1..])
  }
}
