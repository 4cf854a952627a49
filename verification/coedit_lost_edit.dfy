/** A concrete run in which a teardown with a stale persist loses an accepted edit. */
module CoeditLostEdit {
  import opened Wrappers
  import opened CoeditHub
  import opened CoeditDurability

  // The situation is reachable: an edit, a flush that extracts, a second edit, and the editor leaves.

  function EditedTwice(flush: Flush, subscribers: seq<SubId>): Hub {
    Hub(7, {1, 2}, subscribers, true, Some(5), flush)
  }

  function Editor(accepted: Doc, phase: Phase): Subscriber {
    Subscriber(7, 0, 5, [SyncStep2({})], None, phase, accepted, {}, false)
  }

  const STALE: map<PersistId, Persist> := map[0 := Persist(0, Some(5), Some({1}))]

  ghost predicate EditorAlone(s: Server, hub: Hub, sub: Subscriber, persists: map<PersistId, Persist>) {
    s == Server(map[7 := 0], map[0 := hub], map[0 := sub], Free, map[], persists, 1, |persists|)
  }

  lemma SecondEdit(s: Server)
    requires EditorAlone(s, Hub(7, {1}, [0], false, Some(5), Writing(0)), Editor({1}, Live), STALE)
    ensures Enabled(s, ReceiveUpdate(0, {2})) && Careful(s, ReceiveUpdate(0, {2}))
    ensures EditorAlone(Apply(s, ReceiveUpdate(0, {2})), EditedTwice(Writing(0), [0]), Editor({1, 2}, Live), STALE)
  {
    var t := Apply(s, ReceiveUpdate(0, {2}));
    assert {1} + {2} == {1, 2};
    assert t.subs == map[0 := Editor({1, 2}, Live)];
    assert t.hubs == map[0 := EditedTwice(Writing(0), [0])];
  }

  lemma Leave(s: Server)
    requires EditorAlone(s, EditedTwice(Writing(0), [0]), Editor({1, 2}, Live), STALE)
    ensures var es := [Disconnect(0)] + [RemoveSubscriber(0)];
            CarefulRun(s, es) && ValidRun(s, es)
            && EditorAlone(After(s, es), EditedTwice(Writing(0), []), Editor({1, 2}, Releasing), STALE)
  {
    var u := Apply(s, Disconnect(0));
    assert u.subs == map[0 := Editor({1, 2}, Leaving)];
    var v := Apply(u, RemoveSubscriber(0));
    assert RemoveFirst([0], 0) == [];
    assert v.subs == map[0 := Editor({1, 2}, Releasing)] && v.hubs == map[0 := EditedTwice(Writing(0), [])];
    assert CarefulRun(v, []) && ValidRun(v, []) && After(v, []) == v;
    Prepend(u, RemoveSubscriber(0), []);
    assert [RemoveSubscriber(0)] + [] == [RemoveSubscriber(0)];
    Prepend(s, Disconnect(0), [RemoveSubscriber(0)]);
  }

  lemma SecondEditThenLeave(s: Server)
    requires EditorAlone(s, Hub(7, {1}, [0], false, Some(5), Writing(0)), Editor({1}, Live), STALE)
    ensures var es := [ReceiveUpdate(0, {2})] + ([Disconnect(0)] + [RemoveSubscriber(0)]);
            CarefulRun(s, es) && ValidRun(s, es)
            && EditorAlone(After(s, es), EditedTwice(Writing(0), []), Editor({1, 2}, Releasing), STALE)
  {
    SecondEdit(s);
    Leave(Apply(s, ReceiveUpdate(0, {2})));
    Prepend(s, ReceiveUpdate(0, {2}), [Disconnect(0)] + [RemoveSubscriber(0)]);
  }

  const ISSUED: map<PersistId, Persist> := map[0 := Persist(0, Some(5), None)]

  lemma FirstEdit(s: Server)
    requires EditorAlone(s, Hub(7, {}, [0], false, None, Sleeping), Editor({}, Live), map[])
    ensures Enabled(s, ReceiveUpdate(0, {1})) && Careful(s, ReceiveUpdate(0, {1}))
    ensures EditorAlone(Apply(s, ReceiveUpdate(0, {1})), Hub(7, {1}, [0], true, Some(5), Sleeping), Editor({1}, Live), map[])
  {
    var t := Apply(s, ReceiveUpdate(0, {1}));
    assert {} + {1} == {1};
    assert t.subs == map[0 := Editor({1}, Live)];
    assert t.hubs == map[0 := Hub(7, {1}, [0], true, Some(5), Sleeping)];
  }

  lemma TickIssues(s: Server)
    requires EditorAlone(s, Hub(7, {1}, [0], true, Some(5), Sleeping), Editor({1}, Live), map[])
    ensures Enabled(s, FlushTick(0)) && Careful(s, FlushTick(0))
    ensures EditorAlone(Apply(s, FlushTick(0)), Hub(7, {1}, [0], false, Some(5), Writing(0)), Editor({1}, Live), ISSUED)
  {
    var t := Apply(s, FlushTick(0));
    assert t.hubs == map[0 := Hub(7, {1}, [0], false, Some(5), Writing(0))];
    assert t.persists == ISSUED;
  }

  lemma PersistExtracts(s: Server)
    requires EditorAlone(s, Hub(7, {1}, [0], false, Some(5), Writing(0)), Editor({1}, Live), ISSUED)
    ensures Enabled(s, Extract(0)) && Careful(s, Extract(0))
    ensures EditorAlone(Apply(s, Extract(0)), Hub(7, {1}, [0], false, Some(5), Writing(0)), Editor({1}, Live), STALE)
  {
    assert Apply(s, Extract(0)).persists == STALE;
  }

  const LEAVES: seq<Event> := [ReceiveUpdate(0, {2})] + ([Disconnect(0)] + [RemoveSubscriber(0)])

  lemma FlushedEditThenLeave(s: Server)
    requires EditorAlone(s, Hub(7, {}, [0], false, None, Sleeping), Editor({}, Live), map[])
    ensures var es := [ReceiveUpdate(0, {1})] + ([FlushTick(0)] + ([Extract(0)] + LEAVES));
            CarefulRun(s, es) && ValidRun(s, es)
            && EditorAlone(After(s, es), EditedTwice(Writing(0), []), Editor({1, 2}, Releasing), STALE)
  {
    FirstEdit(s);
    var t := Apply(s, ReceiveUpdate(0, {1}));
    TickIssues(t);
    var u := Apply(t, FlushTick(0));
    PersistExtracts(u);
    SecondEditThenLeave(Apply(u, Extract(0)));
    Prepend(u, Extract(0), LEAVES);
    Prepend(t, FlushTick(0), [Extract(0)] + LEAVES);
    Prepend(s, ReceiveUpdate(0, {1}), [FlushTick(0)] + ([Extract(0)] + LEAVES));
  }

  lemma EditorJoins()
    ensures Enabled(Init(map[]), BeginCreate(0, 7, 5))
    ensures var s := Apply(Init(map[]), BeginCreate(0, 7, 5));
            && Enabled(s, FinishCreate)
            && EditorAlone(Apply(s, FinishCreate), Hub(7, {}, [0], false, None, Sleeping), Editor({}, Live), map[])
  {
    var t := Apply(Apply(Init(map[]), BeginCreate(0, 7, 5)), FinishCreate);
    assert [] + [0] == [0] && [] + [SyncStep2({})] == [SyncStep2({})];
    assert t.hubs == map[0 := Hub(7, {}, [0], false, None, Sleeping)] && t.subs == map[0 := Editor({}, Live)];
  }

  lemma EditorEditsAndLeaves() returns (es: seq<Event>)
    ensures CarefulRun(Init(map[]), es) && ValidRun(Init(map[]), es)
    ensures EditorAlone(After(Init(map[]), es), EditedTwice(Writing(0), []), Editor({1, 2}, Releasing), STALE)
  {
    var s0 := Init(map[]);
    EditorJoins();
    var s1 := Apply(s0, BeginCreate(0, 7, 5));
    var s2 := Apply(s1, FinishCreate);
    FlushedEditThenLeave(s2);
    var more := [ReceiveUpdate(0, {1})] + ([FlushTick(0)] + ([Extract(0)] + LEAVES));
    Prepend(s1, FinishCreate, more);
    Prepend(s0, BeginCreate(0, 7, 5), [FinishCreate] + more);
    es := [BeginCreate(0, 7, 5)] + ([FinishCreate] + more);
  }

  /** From an empty database there is a run, careful so far, whose next teardown loses edit 2. */
  lemma StaleTeardownIsReachable() returns (es: seq<Event>)
    ensures CarefulRun(Init(map[]), es) && ValidRun(Init(map[]), es)
    ensures var s := After(Init(map[]), es);
            && Enabled(s, Release(0)) && TearsDown(s, 0)
            && !CleanTeardown(s, s.registry[s.subs[0].dp])
            && !NeverLoses(Apply(s, Release(0)))
  {
    es := EditorEditsAndLeaves();
    var s := After(Init(map[]), es);
    assert s.persists[0].snapshot.value == {1} && 2 in s.hubs[0].doc;
    CarefulRunIsSound(Init(map[]), es);
    TeardownIsSafeIff(s, 0);
  }
}
