/** What the log of a session says about its turns, its cancels and its stored conversation. */
module ChatHistory {
  import opened Wrappers
  import opened ChatTurns
  import opened ChatGuards

  // Exactly one terminal event and one release per accepted prompt

  datatype Kind = Acceptance | Terminal | Cleanup

  predicate Is(e: Entry, kind: Kind, t: TurnId) {
    match kind
    case Acceptance => e.Accepted? && e.t == t
    case Terminal => e.Published? && e.t == t
    case Cleanup => e.ReleasedBy? && e.t == t
  }

  function Count(log: seq<Entry>, kind: Kind, t: TurnId): nat {
    if log == [] then 0
    else Count(log[..|log| - 1], kind, t) + (if Is(log[|log| - 1], kind, t) then 1 else 0)
  }

  lemma CountAppend(log: seq<Entry>, e: Entry, kind: Kind, t: TurnId)
    ensures Count(log + [e], kind, t) == Count(log, kind, t) + (if Is(e, kind, t) then 1 else 0)
  {
    assert (log + [e])[..|log|] == log;
  }

  lemma CountAppend2(log: seq<Entry>, e: Entry, f: Entry, kind: Kind, t: TurnId)
    ensures Count(log + [e, f], kind, t)
         == Count(log, kind, t) + (if Is(e, kind, t) then 1 else 0) + (if Is(f, kind, t) then 1 else 0)
  {
    CountAppend(log, e, kind, t);
    CountAppend(log + [e], f, kind, t);
    assert log + [e, f] == log + [e] + [f];
  }

  /** The count of the at most two entries one step appends. */
  function Added(more: seq<Entry>, kind: Kind, t: TurnId): nat {
    (if |more| > 0 && Is(more[0], kind, t) then 1 else 0) + (if |more| > 1 && Is(more[1], kind, t) then 1 else 0)
  }

  /** Accepted once if its id was given out; ended and released once unless it still runs. */
  ghost predicate Accounted(s: Session, t: TurnId) {
    && Count(s.log, Acceptance, t) == (if t < s.nextTurn then 1 else 0)
    && Count(s.log, Terminal, t) == (if t < s.nextTurn && t !in s.turns then 1 else 0)
    && Count(s.log, Cleanup, t) == Count(s.log, Terminal, t)
  }

  lemma StepKeepsAccounted(s: Session, e: Event, t: TurnId)
    requires Consistent(s) && Enabled(s, e) && Accounted(s, t)
    ensures Accounted(Apply(s, e), t)
  {
    var s' := Apply(s, e);
    forall kind: Kind
      ensures Count(s'.log, kind, t) == Count(s.log, kind, t) + Added(s'.log[|s.log|..], kind, t)
    {
      if |s'.log| == |s.log| + 1 {
        CountAppend(s.log, s'.log[|s.log|], kind, t);
        assert s'.log == s.log + [s'.log[|s.log|]];
      } else if |s'.log| == |s.log| + 2 {
        CountAppend2(s.log, s'.log[|s.log|], s'.log[|s.log| + 1], kind, t);
        assert s'.log == s.log + [s'.log[|s.log|], s'.log[|s.log| + 1]];
      }
    }
  }

  lemma {:induction false} RunKeepsAccounted(s: Session, es: seq<Event>, t: TurnId)
    requires Consistent(s) && ValidRun(s, es) && Accounted(s, t)
    ensures Accounted(After(s, es), t)
    decreases |es|
  {
    if es != [] {
      StepKeepsConsistent(s, es[0]);
      StepKeepsAccounted(s, es[0], t);
      RunKeepsAccounted(Apply(s, es[0]), es[1..], t);
    }
  }

  /** In every run, resets or not: an accepted prompt has ended and been released exactly once, or its
      runner is still alive and it has done neither; nothing else ends. */
  lemma OneEndPerAcceptedPrompt(es: seq<Event>, t: TurnId)
    requires ValidRun(Init(), es)
    ensures var s := After(Init(), es);
            && Count(s.log, Acceptance, t) <= 1
            && Count(s.log, Terminal, t) == Count(s.log, Cleanup, t)
            && Count(s.log, Terminal, t) + (if t in s.turns then 1 else 0) == Count(s.log, Acceptance, t)
  {
    RunKeepsAccounted(Init(), es, t);
    RunKeepsConsistent(Init(), es);
  }

  /** A running turn can always be driven to its end. */
  lemma EveryTurnCanEnd(s: Session, t: TurnId)
    requires Consistent(s) && t in s.turns
    ensures Enabled(s, Schedule(t)) || Enabled(s, StartRun(t)) || Enabled(s, AgentRaises(t)) || Enabled(s, Finish(t))
  {
  }

  // Cancels

  /** A cancel from connection c was received after turn t was accepted. */
  ghost predicate CancelledSince(log: seq<Entry>, t: TurnId, c: ConnId) {
    exists i, j :: 0 <= i < j < |log| && Is(log[i], Acceptance, t) && log[j] == CancelReceived(c)
  }

  ghost predicate WasAccepted(log: seq<Entry>, t: TurnId, c: ConnId, text: string) {
    exists i :: 0 <= i < |log| && log[i] == Accepted(t, c, text)
  }

  /** The flag of a connection with a running turn says exactly whether that turn was cancelled. */
  ghost predicate FlagOk(s: Session, t: TurnId)
    requires t in s.turns && s.turns[t].conn in s.conns
  {
    var turn := s.turns[t];
    && WasAccepted(s.log, t, turn.conn, turn.text)
    && (s.conns[turn.conn].cancelSet <==> CancelledSince(s.log, t, turn.conn))
    && (turn.phase.Returned? && turn.phase.outcome.Cancelled? ==> s.conns[turn.conn].cancelSet)
  }

  /** Every turn that ended as cancelled was cancelled by its own connection while it ran. */
  ghost predicate CancelsOk(log: seq<Entry>) {
    forall k :: 0 <= k < |log| && log[k].Published? && log[k].outcome.Cancelled? ==> CancelledByItsOwner(log, k)
  }

  ghost predicate CancelledByItsOwner(log: seq<Entry>, k: nat)
    requires k < |log| && log[k].Published?
  {
    exists c, text :: WasAccepted(log[..k], log[k].t, c, text) && CancelledSince(log[..k], log[k].t, c)
  }

  ghost predicate CancelState(s: Session) {
    && (forall t :: t in s.turns && s.turns[t].conn in s.conns ==> FlagOk(s, t))
    && (forall i :: 0 <= i < |s.log| && s.log[i].Accepted? ==> s.log[i].t < s.nextTurn)
    && CancelsOk(s.log)
  }

  lemma FlagCarries(s: Session, s': Session, t: TurnId, more: seq<Entry>)
    requires t in s.turns && s.turns[t].conn in s.conns && FlagOk(s, t)
    requires t in s'.turns && s'.turns[t].conn == s.turns[t].conn && s'.turns[t].text == s.turns[t].text
    requires s.turns[t].conn in s'.conns && s'.conns[s.turns[t].conn].cancelSet == s.conns[s.turns[t].conn].cancelSet
    requires s'.turns[t].phase == s.turns[t].phase || !s'.turns[t].phase.Returned?
          || (s'.turns[t].phase.outcome.Cancelled? ==> s.conns[s.turns[t].conn].cancelSet)
    requires s'.log == s.log + more && CancelReceived(s.turns[t].conn) !in more
    ensures FlagOk(s', t)
  {
    var c := s.turns[t].conn;
    var i :| 0 <= i < |s.log| && s.log[i] == Accepted(t, c, s.turns[t].text);
    assert s'.log[i] == s.log[i];
    if CancelledSince(s.log, t, c) {
      var a, b :| 0 <= a < b < |s.log| && Is(s.log[a], Acceptance, t) && s.log[b] == CancelReceived(c);
      assert s'.log[a] == s.log[a] && s'.log[b] == s.log[b];
    }
    if CancelledSince(s'.log, t, c) {
      assert forall m :: 0 <= m < |more| ==> s'.log[|s.log| + m] == more[m];
      var a, b :| 0 <= a < b < |s'.log| && Is(s'.log[a], Acceptance, t) && s'.log[b] == CancelReceived(c);
      assert b < |s.log| && s.log[a] == s'.log[a] && s.log[b] == s'.log[b];
    }
  }

  lemma CancelsCarry(log: seq<Entry>, more: seq<Entry>)
    requires CancelsOk(log)
    requires forall m :: 0 <= m < |more| && more[m].Published? && more[m].outcome.Cancelled? ==>
               CancelledByItsOwner(log + more, |log| + m)
    ensures CancelsOk(log + more)
  {
    var all := log + more;
    forall k | 0 <= k < |all| && all[k].Published? && all[k].outcome.Cancelled? ensures CancelledByItsOwner(all, k) {
      if k < |log| {
        assert CancelledByItsOwner(log, k) && all[..k] == log[..k];
      } else {
        assert more[k - |log|] == all[k];
      }
    }
  }

  lemma PromptKeepsCancelState(s: Session, c: ConnId, text: Option<string>)
    requires Consistent(s) && CancelState(s) && Enabled(s, Prompt(c, text))
    ensures CancelState(Apply(s, Prompt(c, text)))
  {
    var s' := Apply(s, Prompt(c, text));
    var more := s'.log[|s.log|..];
    assert s'.log == s.log + more && |more| == 1;
    CancelsCarry(s.log, more);
    forall t | t in s'.turns && s'.turns[t].conn in s'.conns ensures FlagOk(s', t) {
      if t in s.turns {
        FlagCarries(s, s', t, more);
      } else {
        assert s'.log[|s.log|] == Accepted(t, c, s'.turns[t].text);
        assert !CancelledSince(s'.log, t, c);
      }
    }
  }

  lemma CancelKeepsCancelState(s: Session, c: ConnId)
    requires Consistent(s) && CancelState(s) && Enabled(s, Cancel(c))
    ensures CancelState(Apply(s, Cancel(c)))
  {
    var s' := Apply(s, Cancel(c));
    CancelsCarry(s.log, [CancelReceived(c)]);
    forall t | t in s'.turns && s'.turns[t].conn in s'.conns ensures FlagOk(s', t) {
      if s.turns[t].conn != c {
        FlagCarries(s, s', t, [CancelReceived(c)]);
      } else {
        var i :| 0 <= i < |s.log| && s.log[i] == Accepted(t, c, s.turns[t].text);
        assert s'.log[i] == s.log[i] && s'.log[|s.log|] == CancelReceived(c);
      }
    }
  }

  lemma EndKeepsCancels(s: Session, t: TurnId, outcome: Outcome)
    requires Consistent(s) && CancelState(s) && t in s.turns
    requires outcome.Cancelled? ==> s.conns[s.turns[t].conn].cancelSet
    ensures CancelsOk(s.log + [Published(t, outcome), ReleasedBy(t)])
  {
    var more := [Published(t, outcome), ReleasedBy(t)];
    assert FlagOk(s, t);
    if outcome.Cancelled? {
      assert (s.log + more)[..|s.log|] == s.log && (s.log + more)[|s.log|] == more[0];
      assert CancelledByItsOwner(s.log + more, |s.log| + 0);
    }
    CancelsCarry(s.log, more);
  }

  lemma EndKeepsCancelState(s: Session, t: TurnId, outcome: Outcome)
    requires Consistent(s) && CancelState(s) && t in s.turns
    requires outcome.Cancelled? ==> s.conns[s.turns[t].conn].cancelSet
    ensures CancelState(End(s, t, outcome))
  {
    var s' := End(s, t, outcome);
    EndKeepsCancels(s, t, outcome);
    forall u | u in s'.turns && s'.turns[u].conn in s'.conns ensures FlagOk(s', u) {
      EndKeepsFlag(s, t, outcome, u);
    }
  }

  lemma EndKeepsFlag(s: Session, t: TurnId, outcome: Outcome, u: TurnId)
    requires Consistent(s) && t in s.turns && u in End(s, t, outcome).turns
    requires s.turns[u].conn in s.conns && FlagOk(s, u)
    ensures s.turns[u].conn in End(s, t, outcome).conns && FlagOk(End(s, t, outcome), u)
  {
    FlagCarries(s, End(s, t, outcome), u, [Published(t, outcome), ReleasedBy(t)]);
  }

  lemma NoteKeepsCancelState(s: Session, e: Event)
    requires Consistent(s) && CancelState(s) && Enabled(s, e) && (e.Reset? || e.Reject?)
    ensures CancelState(Apply(s, e))
  {
    var s' := Apply(s, e);
    var more := if e.Reset? then [ResetDone] else [Rejected(e.c)];
    CancelsCarry(s.log, more);
    forall t | t in s'.turns && s'.turns[t].conn in s'.conns ensures FlagOk(s', t) {
      FlagCarries(s, s', t, more);
    }
  }

  lemma ConnectionStepKeepsCancelState(s: Session, e: Event)
    requires Consistent(s) && CancelState(s) && Enabled(s, e) && (e.Connect? || e.Disconnect?)
    ensures CancelState(Apply(s, e))
  {
    var s' := Apply(s, e);
    assert s'.log == s.log + [];
    forall t | t in s'.turns && s'.turns[t].conn in s'.conns ensures FlagOk(s', t) {
      FlagCarries(s, s', t, []);
    }
  }

  lemma TurnStepKeepsCancelState(s: Session, e: Event)
    requires Consistent(s) && CancelState(s) && Enabled(s, e)
    requires e.Schedule? || e.StartRun? || e.AgentReturns?
    ensures CancelState(Apply(s, e))
  {
    var s' := Apply(s, e);
    assert s'.log == s.log + [] && s'.turns == s.turns[e.t := s'.turns[e.t]];
    forall t | t in s'.turns && s'.turns[t].conn in s'.conns ensures FlagOk(s', t) {
      FlagCarries(s, s', t, []);
    }
  }

  lemma StepKeepsCancelState(s: Session, e: Event)
    requires Consistent(s) && CancelState(s) && Enabled(s, e)
    ensures CancelState(Apply(s, e))
  {
    match e
    case Prompt(c, text) => PromptKeepsCancelState(s, c, text);
    case Cancel(c) => CancelKeepsCancelState(s, c);
    case AgentRaises(t) => EndKeepsCancelState(s, t, Failed);
    case Finish(t) =>
      assert FlagOk(s, t);
      EndKeepsCancelState(s, t, s.turns[t].phase.outcome);
    case Reset(_) | Reject(_) => NoteKeepsCancelState(s, e);
    case Connect(_) | Disconnect(_) => ConnectionStepKeepsCancelState(s, e);
    case Schedule(_) | StartRun(_) | AgentReturns(_, _) => TurnStepKeepsCancelState(s, e);
  }

  lemma {:induction false} RunKeepsCancelState(s: Session, es: seq<Event>)
    requires Consistent(s) && CancelState(s) && ValidRun(s, es)
    ensures CancelState(After(s, es))
    decreases |es|
  {
    if es != [] {
      StepKeepsConsistent(s, es[0]);
      StepKeepsCancelState(s, es[0]);
      RunKeepsCancelState(Apply(s, es[0]), es[1..]);
    }
  }

  /** A cancel never reaches a later turn and is never lost to the turn it was meant for: while a turn
      runs, its connection's flag is set exactly when a cancel has come in since that turn was accepted. */
  lemma CancelReachesExactlyItsTurn(es: seq<Event>, t: TurnId)
    requires ValidRun(Init(), es) && t in After(Init(), es).turns
    ensures var s := After(Init(), es);
            && s.turns[t].conn in s.conns
            && (s.conns[s.turns[t].conn].cancelSet <==> CancelledSince(s.log, t, s.turns[t].conn))
  {
    RunKeepsConsistent(Init(), es);
    RunKeepsCancelState(Init(), es);
    assert FlagOk(After(Init(), es), t);
  }

  /** A turn that ended as cancelled was cancelled, after it was accepted, by the connection that asked for it. */
  lemma CancelledTurnsWereCancelled(es: seq<Event>, k: nat)
    requires ValidRun(Init(), es)
    requires var log := After(Init(), es).log; k < |log| && log[k].Published? && log[k].outcome.Cancelled?
    ensures CancelledByItsOwner(After(Init(), es).log, k)
  {
    RunKeepsCancelState(Init(), es);
  }
}
