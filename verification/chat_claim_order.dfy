/**
 When the stored conversation is in claim order.  Quiet resets keep it so; a reset during a turn always leaves a
 continuation, with no further such reset, that breaks it.
 */
module ChatClaimOrder {
  import opened Wrappers
  import opened Text
  import opened ChatTurns
  import opened ChatGuards
  import opened ChatHistory
  import opened ChatConversation

  // Which states keep claim order

  ghost predicate KeepsClaimOrder(s: Session) {
    forall es :: ValidRun(s, es) && QuietRun(s, es) ==>
      After(s, es).conversation == ByClaim(After(s, es).log, |After(s, es).log|)
  }

  ghost predicate NoResets(es: seq<Event>) {
    forall i :: 0 <= i < |es| ==> !es[i].Reset?
  }

  lemma {:induction false} NoResetsIsQuiet(s: Session, es: seq<Event>)
    requires ValidRun(s, es) && NoResets(es)
    ensures QuietRun(s, es)
    decreases |es|
  {
    if es != [] { NoResetsIsQuiet(Apply(s, es[0]), es[1..]); }
  }

  lemma {:induction false} Chain(s: Session, es: seq<Event>, fs: seq<Event>)
    requires ValidRun(s, es) && ValidRun(After(s, es), fs)
    ensures ValidRun(s, es + fs) && After(s, es + fs) == After(After(s, es), fs)
    decreases |es|
  {
    if es == [] {
      assert es + fs == fs;
    } else {
      Chain(Apply(s, es[0]), es[1..], fs);
      Prepend(s, es[0], es[1..] + fs);
      assert [es[0]] + (es[1..] + fs) == es + fs;
    }
  }

  lemma OneStep(s: Session, e: Event)
    requires Enabled(s, e)
    ensures ValidRun(s, [e]) && After(s, [e]) == Apply(s, e)
  {
    Prepend(s, e, []);
    assert [e] + [] == [e];
  }

  /** The event that takes turn t one step on; a running agent is made to end in final. */
  function Next(s: Session, t: TurnId): Event
    requires t in s.turns
  {
    match s.turns[t].phase
    case Claimed => Schedule(t)
    case Scheduled => StartRun(t)
    case Running(_) => AgentReturns(t, Final([]))
    case Returned(_, _) => Finish(t)
  }

  function StepsLeft(phase: Phase): nat {
    match phase
    case Claimed => 3
    case Scheduled => 2
    case Running(_) => 1
    case Returned(_, _) => 0
  }

  /** Any running turn can be driven to its end with nothing else happening. */
  lemma {:induction false} DriveToEnd(s: Session, t: TurnId) returns (es: seq<Event>, outcome: Outcome)
    requires OwnsTurn(s, t)
    ensures ValidRun(s, es) && NoResets(es) && After(s, es) == End(s, t, outcome)
    ensures outcome == if s.turns[t].phase.Returned? then s.turns[t].phase.outcome else Final([])
    decreases StepsLeft(s.turns[t].phase)
  {
    var e := Next(s, t);
    if s.turns[t].phase.Returned? {
      OneStep(s, e);
      es, outcome := [e], s.turns[t].phase.outcome;
    } else {
      var s' := Apply(s, e);
      var rest;
      rest, outcome := DriveToEnd(s', t);
      Prepend(s, e, rest);
      es := [e] + rest;
      assert s'.turns - {t} == s.turns - {t};
    }
  }

  /** A new connection's prompt is taken when nobody holds the claim. */
  lemma NewPromptIsTaken(s: Session, text: string) returns (es: seq<Event>, c: ConnId)
    requires Consistent(s) && s.claim.None? && text != "" && !IsPythonSpace(text[0])
    ensures ValidRun(s, es) && NoResets(es)
    ensures var t := After(s, es);
            && t.turns == s.turns[s.nextTurn := Turn(c, text, Claimed)] && t.claim == Some(s.nextTurn)
            && t.nextTurn == s.nextTurn + 1 && t.conversation == s.conversation
            && t.log == s.log + [Accepted(s.nextTurn, c, text)]
  {
    c := FreshConnection(s.conns.Keys);
    var s1 := Apply(s, Connect(c));
    assert text[0] in text && Accepts(s1, c, Some(text));
    OneStep(s1, Prompt(c, Some(text)));
    Prepend(s, Connect(c), [Prompt(c, Some(text))]);
    es := [Connect(c)] + [Prompt(c, Some(text))];
  }

  lemma Join(s: Session, es: seq<Event>, fs: seq<Event>)
    requires ValidRun(s, es) && NoResets(es) && ValidRun(After(s, es), fs) && NoResets(fs)
    ensures ValidRun(s, es + fs) && NoResets(es + fs) && After(s, es + fs) == After(After(s, es), fs)
  {
    Chain(s, es, fs);
  }

  /** With a turn running that does not hold the claim: accept v, let u's end clear v's claim, accept w, and let
      both end, the later one first. */
  lemma UnguardedBreaksClaimOrder(s: Session, u: TurnId) returns (es: seq<Event>)
    requires Consistent(s) && s.claim.None? && u in s.turns
    ensures ValidRun(s, es) && QuietRun(s, es)
    ensures After(s, es).conversation != ByClaim(After(s, es).log, |After(s, es).log|)
  {
    var v := s.nextTurn;
    var first, c1 := NewPromptIsTaken(s, "v");
    RunKeepsConsistent(s, first);
    var s1 := After(s, first);
    var ends, outcome := DriveToEnd(s1, u);
    RunKeepsConsistent(s1, ends);
    Join(s, first, ends);
    es := first + ends;
    var s2 := After(s, es);
    var w := s2.nextTurn;
    var second, c2 := NewPromptIsTaken(s2, "w");
    Join(s, es, second);
    es := es + second;
    RunKeepsConsistent(s2, second);
    var s3 := After(s, es);
    var rest := LaterEndsFirst(s3, v, w, c2);
    Join(s, es, rest);
    es := es + rest;
    NoResetsIsQuiet(s, es);
  }

  lemma LaterEndsFirst(s: Session, v: TurnId, w: TurnId, c: ConnId) returns (es: seq<Event>)
    requires Consistent(s) && v in s.turns && w in s.turns && v != w
    requires s.turns[v].text == "v" && s.turns[v].phase.Claimed? && s.turns[w] == Turn(c, "w", Claimed)
    requires s.log != [] && s.log[|s.log| - 1] == Accepted(w, c, "w")
    ensures ValidRun(s, es) && NoResets(es)
    ensures After(s, es).conversation != ByClaim(After(s, es).log, |After(s, es).log|)
  {
    var o1, o2, later, earlier;
    later, o1 := DriveToEnd(s, w);
    RunKeepsConsistent(s, later);
    earlier, o2 := DriveToEnd(After(s, later), v);
    Join(s, later, earlier);
    es := later + earlier;
    EndsOutOfOrder(s, v, w, c);
  }

  lemma EndsOutOfOrder(s: Session, v: TurnId, w: TurnId, c: ConnId)
    requires OwnsTurn(s, v) && OwnsTurn(s, w) && v != w && s.turns[v].text == "v" && s.turns[w].text == "w"
    requires s.turns[v].conn in End(s, w, Final([])).conns
    requires s.log != [] && s.log[|s.log| - 1] == Accepted(w, c, "w")
    ensures var t := End(End(s, w, Final([])), v, Final([])); t.conversation != ByClaim(t.log, |t.log|)
  {
    var t := End(End(s, w, Final([])), v, Final([]));
    assert t.conversation[|t.conversation| - 1] == User("v");
    var n := |s.log|;
    assert t.log == s.log + [Published(w, Final([])), ReleasedBy(w), Published(v, Final([])), ReleasedBy(v)];
    LastClaimed(t.log, n - 1, w, c);
  }

  lemma LastClaimed(log: seq<Entry>, a: nat, w: TurnId, c: ConnId)
    requires a + 5 == |log| && log[a] == Accepted(w, c, "w") && log[a + 1] == Published(w, Final([]))
    requires log[a + 2].ReleasedBy? && log[a + 3].Published? && log[a + 3].t != w && log[a + 4].ReleasedBy?
    ensures var m := ByClaim(log, |log|); m != [] && m[|m| - 1] == User("w")
  {
    ByClaimSettles(log, a, |log|);
    OutcomeSettles(log, a + 1, w);
    assert FinalBlock(log, w, "w") == [User("w")];
  }

  lemma OutcomeSettles(log: seq<Entry>, a: nat, w: TurnId)
    requires a + 4 == |log| && log[a] == Published(w, Final([]))
    requires log[a + 1].ReleasedBy? && log[a + 2].Published? && log[a + 2].t != w && log[a + 3].ReleasedBy?
    ensures OutcomeOf(log, w) == Some(Final([]))
  {
    var l3, l2, l1 := log[..a + 3], log[..a + 2], log[..a + 1];
    assert log[..|log| - 1] == l3 && l3[..|l3| - 1] == l2 && l2[..|l2| - 1] == l1;
    assert OutcomeOf(l1, w) == Some(Final([]));
    assert OutcomeOf(l2, w) == OutcomeOf(l1, w) && OutcomeOf(l3, w) == OutcomeOf(l2, w);
  }

  /** A reset keeps claim order on every continuation whose resets are quiet exactly when no turn is running. */
  lemma ResetKeepsClaimOrderIff(s: Session, c: ConnId)
    requires Consistent(s) && Guarded(s) && Ordered(s) && Enabled(s, Reset(c))
    ensures s.turns == map[] <==> KeepsClaimOrder(Apply(s, Reset(c)))
  {
    var t := Apply(s, Reset(c));
    StepKeepsConsistent(s, Reset(c));
    if s.turns == map[] {
      ResetKeepsOrdered(s, c);
      OrderedKeeps(t);
    } else {
      var u :| u in s.turns;
      var es := UnguardedBreaksClaimOrder(t, u);
    }
  }

  lemma OrderedKeeps(s: Session)
    requires Consistent(s) && Guarded(s) && Ordered(s)
    ensures KeepsClaimOrder(s)
  {
    forall es | ValidRun(s, es) && QuietRun(s, es)
      ensures After(s, es).conversation == ByClaim(After(s, es).log, |After(s, es).log|)
    {
      QuietRunKeepsOrdered(s, es);
    }
  }

  /** At every point of the run, every continuation with quiet resets is in claim order. */
  ghost predicate OrderedThroughout(s: Session, es: seq<Event>)
    requires ValidRun(s, es)
    decreases |es|
  {
    KeepsClaimOrder(s) && (es == [] || OrderedThroughout(Apply(s, es[0]), es[1..]))
  }

  /** A run can be trusted with claim order throughout exactly when its resets are quiet. */
  lemma {:induction false} RunIsOrderedIffQuiet(s: Session, es: seq<Event>)
    requires Consistent(s) && Guarded(s) && Ordered(s) && ValidRun(s, es)
    ensures OrderedThroughout(s, es) <==> QuietRun(s, es)
    decreases |es|
  {
    OrderedKeeps(s);
    if es != [] {
      var e := es[0];
      StepKeepsConsistent(s, e);
      StepKeepsGuardedIffQuiet(s, e);
      if Quiet(s, e) {
        QuietStepKeepsOrdered(s, e);
        RunIsOrderedIffQuiet(Apply(s, e), es[1..]);
      } else {
        ResetKeepsClaimOrderIff(s, e.c);
      }
    }
  }

  lemma EveryRunIsOrderedIffQuiet(es: seq<Event>)
    requires ValidRun(Init(), es)
    ensures OrderedThroughout(Init(), es) <==> QuietRun(Init(), es)
  {
    RunIsOrderedIffQuiet(Init(), es);
  }

  // One such run from start-up

  ghost predicate FirstTurnRuns(s: Session) {
    s == Session(map[0 := Conn(true, false, Some(0))], Some(0), [],
                 map[0 := Turn(0, "hi", Running([]))], 1, [Accepted(0, 0, "hi")])
  }

  lemma FirstTurnStarts() returns (es: seq<Event>)
    ensures ValidRun(Init(), es) && FirstTurnRuns(After(Init(), es))
  {
    var text := Some("hi");
    assert "hi"[0] in "hi";
    var s1 := Apply(Init(), Connect(0));
    var s2 := Apply(s1, Prompt(0, text));
    var s3 := Apply(s2, Schedule(0));
    var s4 := Apply(s3, StartRun(0));
    assert ValidRun(s4, []) && s4.turns == map[0 := Turn(0, "hi", Running([]))];
    assert s4.conns == map[0 := Conn(true, false, Some(0))];
    Prepend(s3, StartRun(0), []);
    Prepend(s2, Schedule(0), [StartRun(0)] + []);
    Prepend(s1, Prompt(0, text), [Schedule(0)] + ([StartRun(0)] + []));
    es := [Connect(0)] + ([Prompt(0, text)] + ([Schedule(0)] + ([StartRun(0)] + [])));
    Prepend(Init(), Connect(0), es[1..]);
  }

  lemma ResetThenFinal(s: Session) returns (es: seq<Event>)
    requires FirstTurnRuns(s)
    ensures ValidRun(s, es) && After(s, es).conversation == [User("hi")]
    ensures After(s, es).log == [Accepted(0, 0, "hi"), ResetDone, Published(0, Final([])), ReleasedBy(0)]
  {
    var s5 := Apply(s, Reset(0));
    var s6 := Apply(s5, AgentReturns(0, Final([])));
    var s7 := Apply(s6, Finish(0));
    assert ValidRun(s7, []) && Block("hi", []) == [User("hi")];
    Prepend(s6, Finish(0), []);
    Prepend(s5, AgentReturns(0, Final([])), [Finish(0)] + []);
    es := [Reset(0)] + ([AgentReturns(0, Final([]))] + ([Finish(0)] + []));
    Prepend(s, Reset(0), es[1..]);
  }

  /** A reset during the only turn: its block is all the conversation afterwards, though no turn has been accepted
      since the reset.  (UnguardedBreaksClaimOrder gives runs with two blocks out of order.) */
  lemma ResetDuringTurnBreaksClaimOrder() returns (es: seq<Event>)
    ensures ValidRun(Init(), es)
    ensures var s := After(Init(), es); s.conversation != ByClaim(s.log, |s.log|)
  {
    var start := FirstTurnStarts();
    var rest := ResetThenFinal(After(Init(), start));
    Chain(Init(), start, rest);
    es := start + rest;
    var log := After(Init(), es).log;
    assert ByClaim(log, 2) == [] && ByClaim(log, 3) == [] && ByClaim(log, 4) == [];
  }
}
