/** The stored conversation, told from the log alone. */
module ChatConversation {
  import opened Wrappers
  import opened ChatTurns
  import opened ChatGuards
  import opened ChatHistory

  /** The prompt text turn t was accepted with. */
  function TextOf(log: seq<Entry>, t: TurnId): string {
    if log == [] then ""
    else if Is(log[|log| - 1], Acceptance, t) then log[|log| - 1].text
    else TextOf(log[..|log| - 1], t)
  }

  /** Blocks of the turns that ended in `final` since the last reset, in the order they ended. */
  function Replay(log: seq<Entry>): seq<Message> {
    if log == [] then []
    else
      var before := log[..|log| - 1];
      match log[|log| - 1]
      case ResetDone => []
      case Published(t, outcome) =>
        if outcome.Final? then Replay(before) + Block(TextOf(before, t), outcome.messages) else Replay(before)
      case _ => Replay(before)
  }

  ghost predicate Recorded(s: Session) {
    && s.conversation == Replay(s.log)
    && (forall t :: t in s.turns ==> TextOf(s.log, t) == s.turns[t].text)
  }

  lemma LogAppend(log: seq<Entry>, e: Entry)
    ensures (log + [e])[..|log|] == log && (log + [e])[|log|] == e
    ensures forall t :: !Is(e, Acceptance, t) ==> TextOf(log + [e], t) == TextOf(log, t)
  {
  }

  lemma EndKeepsRecorded(s: Session, t: TurnId, outcome: Outcome)
    requires Recorded(s) && OwnsTurn(s, t)
    ensures Recorded(End(s, t, outcome))
  {
    LogAppend(s.log, Published(t, outcome));
    LogAppend(s.log + [Published(t, outcome)], ReleasedBy(t));
    assert s.log + [Published(t, outcome), ReleasedBy(t)] == s.log + [Published(t, outcome)] + [ReleasedBy(t)];
  }

  /** One entry that neither accepts nor ends a turn. */
  lemma NoteKeepsRecorded(s: Session, t: Session, e: Entry)
    requires Recorded(s) && t.log == s.log + [e] && t.turns == s.turns && !e.Accepted? && !e.Published?
    requires t.conversation == if e.ResetDone? then [] else s.conversation
    ensures Recorded(t)
  {
    LogAppend(s.log, e);
  }

  lemma AcceptKeepsRecorded(s: Session, c: ConnId, text: Option<string>)
    requires Consistent(s) && Recorded(s) && Enabled(s, Prompt(c, text)) && Accepts(s, c, text)
    ensures Recorded(Apply(s, Prompt(c, text)))
  {
    LogAppend(s.log, Accepted(s.nextTurn, c, text.value));
  }

  lemma StepKeepsRecorded(s: Session, e: Event)
    requires Consistent(s) && Recorded(s) && Enabled(s, e)
    ensures Recorded(Apply(s, e))
  {
    match e
    case AgentRaises(t) => EndKeepsRecorded(s, t, Failed);
    case Finish(t) => EndKeepsRecorded(s, t, s.turns[t].phase.outcome);
    case Prompt(c, text) =>
      if Accepts(s, c, text) { AcceptKeepsRecorded(s, c, text); } else { NoteKeepsRecorded(s, Apply(s, e), Rejected(c)); }
    case Cancel(c) => NoteKeepsRecorded(s, Apply(s, e), CancelReceived(c));
    case Reset(c) => NoteKeepsRecorded(s, Apply(s, e), ResetDone);
    case Reject(c) => NoteKeepsRecorded(s, Apply(s, e), Rejected(c));
    case Connect(_) | Disconnect(_) | Schedule(_) | StartRun(_) | AgentReturns(_, _) =>
  }

  lemma {:induction false} RunKeepsRecorded(s: Session, es: seq<Event>)
    requires Consistent(s) && Recorded(s) && ValidRun(s, es)
    ensures Recorded(After(s, es))
    decreases |es|
  {
    if es != [] {
      StepKeepsConsistent(s, es[0]);
      StepKeepsRecorded(s, es[0]);
      RunKeepsRecorded(Apply(s, es[0]), es[1..]);
    }
  }

  /** In every run, whatever the interleaving of connections, cancels and resets: failed and cancelled
      turns left nothing, and each final turn since the last reset left its own prompt and messages. */
  lemma ConversationIsTheFinals(es: seq<Event>)
    requires ValidRun(Init(), es)
    ensures After(Init(), es).conversation == Replay(After(Init(), es).log)
  {
    RunKeepsRecorded(Init(), es);
  }

  // Claim order

  function OutcomeOf(log: seq<Entry>, t: TurnId): Option<Outcome> {
    if log == [] then None
    else if Is(log[|log| - 1], Terminal, t) then Some(log[|log| - 1].outcome)
    else OutcomeOf(log[..|log| - 1], t)
  }

  function FinalBlock(log: seq<Entry>, t: TurnId, text: string): seq<Message> {
    var o := OutcomeOf(log, t);
    if o.Some? && o.value.Final? then Block(text, o.value.messages) else []
  }

  /** Blocks of the turns accepted since the last reset, in the order they were accepted.  A turn accepted before the
      reset has no place in it, though it may end after. */
  function ByClaim(log: seq<Entry>, n: nat): seq<Message>
    requires n <= |log|
  {
    if n == 0 then []
    else match log[n - 1]
      case ResetDone => []
      case Accepted(t, c, text) => ByClaim(log, n - 1) + FinalBlock(log, t, text)
      case _ => ByClaim(log, n - 1)
  }

  /** Since its acceptance at entry a, turn t has been alone: no acceptance, no end and no reset. */
  ghost predicate AloneSince(log: seq<Entry>, t: TurnId, text: string, a: nat) {
    && a < |log| && log[a].Accepted? && log[a].t == t && log[a].text == text
    && (forall j :: 0 <= j < |log| && log[j].Accepted? && log[j].t == t ==> j == a)
    && (forall j :: a < j < |log| ==> !log[j].Accepted? && !log[j].ResetDone?)
  }

  ghost predicate Ordered(s: Session) {
    && s.conversation == ByClaim(s.log, |s.log|)
    && (forall t :: t in s.turns ==> InOrder(s, t))
    && (forall j :: 0 <= j < |s.log| && s.log[j].Accepted? ==> s.log[j].t < s.nextTurn)
    && (forall t :: t in s.turns || t >= s.nextTurn ==> OutcomeOf(s.log, t).None?)
  }

  /** A running turn is alone since its acceptance, and works on the history that is still stored. */
  ghost predicate InOrder(s: Session, t: TurnId)
    requires t in s.turns
  {
    var turn := s.turns[t];
    && (exists a :: AloneSince(s.log, t, turn.text, a))
    && (turn.phase.Running? || turn.phase.Returned? ==> turn.phase.history == s.conversation)
  }

  lemma {:induction false} ByClaimIgnores(log: seq<Entry>, e: Entry, n: nat)
    requires n <= |log|
    requires e.Published? ==> forall j :: 0 <= j < n && log[j].Accepted? ==> log[j].t != e.t
    ensures ByClaim(log + [e], n) == ByClaim(log, n)
  {
    if n > 0 {
      ByClaimIgnores(log, e, n - 1);
      assert (log + [e])[n - 1] == log[n - 1];
      if log[n - 1].Accepted? {
        assert (log + [e])[..|log|] == log;
      }
    }
  }

  /** Between a and n nothing changes what ByClaim has gathered. */
  lemma {:induction false} ByClaimSettles(log: seq<Entry>, a: nat, n: nat)
    requires a < n <= |log|
    requires forall j :: a < j < n ==> !log[j].Accepted? && !log[j].ResetDone?
    ensures ByClaim(log, n) == ByClaim(log, a + 1)
  {
    if n > a + 1 {
      ByClaimSettles(log, a, n - 1);
    }
  }

  lemma AppendKeepsAlone(log: seq<Entry>, t: TurnId, text: string, e: Entry)
    requires exists a :: AloneSince(log, t, text, a)
    requires !e.Accepted? && !e.ResetDone?
    ensures exists a :: AloneSince(log + [e], t, text, a)
  {
    var a :| AloneSince(log, t, text, a);
    assert forall j :: 0 <= j < |log| ==> (log + [e])[j] == log[j];
    assert AloneSince(log + [e], t, text, a);
  }

  /** The end of the turn that runs alone adds exactly its block. */
  lemma PublishAddsItsBlock(log: seq<Entry>, t: TurnId, text: string, outcome: Outcome)
    requires exists a :: AloneSince(log, t, text, a)
    requires OutcomeOf(log, t).None?
    ensures var all := log + [Published(t, outcome)];
            ByClaim(all, |all|) == ByClaim(log, |log|) + (if outcome.Final? then Block(text, outcome.messages) else [])
  {
    var a :| AloneSince(log, t, text, a);
    ClaimedSince(log, t, text, a);
    PublishedSince(log, t, text, outcome, a);
    ByClaimIgnores(log, Published(t, outcome), a);
  }

  /** Without an outcome the turn that runs alone has added nothing yet. */
  lemma ClaimedSince(log: seq<Entry>, t: TurnId, text: string, a: nat)
    requires AloneSince(log, t, text, a) && OutcomeOf(log, t).None?
    ensures ByClaim(log, |log|) == ByClaim(log, a)
  {
    ByClaimSettles(log, a, |log|);
  }

  lemma PublishedSince(log: seq<Entry>, t: TurnId, text: string, outcome: Outcome, a: nat)
    requires AloneSince(log, t, text, a)
    ensures var all := log + [Published(t, outcome)];
            ByClaim(all, |all|) == ByClaim(all, a) + (if outcome.Final? then Block(text, outcome.messages) else [])
  {
    var all := log + [Published(t, outcome)];
    assert forall j :: 0 <= j < |log| ==> all[j] == log[j];
    ByClaimSettles(all, a, |all|);
    assert OutcomeOf(all, t) == Some(outcome);
  }

  lemma OutcomeAppend(log: seq<Entry>, e: Entry)
    ensures forall t :: !Is(e, Terminal, t) ==> OutcomeOf(log + [e], t) == OutcomeOf(log, t)
    ensures e.Published? ==> OutcomeOf(log + [e], e.t) == Some(e.outcome)
  {
    assert (log + [e])[..|log|] == log;
  }

  lemma NoteKeepsOrdered(s: Session, s': Session, e: Entry)
    requires Ordered(s) && s'.log == s.log + [e] && !e.Accepted? && !e.ResetDone? && !e.Published?
    requires s'.conversation == s.conversation && s'.turns == s.turns && s'.nextTurn == s.nextTurn
    ensures Ordered(s')
  {
    ByClaimIgnores(s.log, e, |s.log|);
    OutcomeAppend(s.log, e);
    forall t | t in s'.turns ensures InOrder(s', t) {
      assert InOrder(s, t);
      AppendKeepsAlone(s.log, t, s.turns[t].text, e);
    }
  }

  lemma EndKeepsOrdered(s: Session, t: TurnId, outcome: Outcome)
    requires Ordered(s) && Guarded(s) && OwnsTurn(s, t)
    ensures Ordered(End(s, t, outcome))
  {
    var e := Published(t, outcome);
    var log := s.log + [e];
    assert InOrder(s, t);
    PublishAddsItsBlock(s.log, t, s.turns[t].text, outcome);
    OutcomeAppend(s.log, e);
    ByClaimIgnores(log, ReleasedBy(t), |log|);
    OutcomeAppend(log, ReleasedBy(t));
    assert s.log + [Published(t, outcome), ReleasedBy(t)] == log + [ReleasedBy(t)];
    assert End(s, t, outcome).turns == map[] by {
      forall u | u in s.turns ensures u == t { assert s.claim == Some(u); }
    }
  }

  lemma AcceptKeepsOrdered(s: Session, c: ConnId, text: Option<string>)
    requires Ordered(s) && Guarded(s) && Enabled(s, Prompt(c, text)) && Accepts(s, c, text)
    ensures Ordered(Apply(s, Prompt(c, text)))
  {
    var e := Accepted(s.nextTurn, c, text.value);
    var s' := Apply(s, Prompt(c, text));
    assert s'.log == s.log + [e] && s'.log[|s.log|] == e;
    assert forall t :: t in s.turns ==> false;
    ByClaimIgnores(s.log, e, |s.log|);
    OutcomeAppend(s.log, e);
    assert AloneSince(s'.log, s.nextTurn, text.value, |s.log|);
  }

  lemma ResetKeepsOrdered(s: Session, c: ConnId)
    requires Ordered(s) && Enabled(s, Reset(c)) && s.turns == map[]
    ensures Ordered(Apply(s, Reset(c)))
  {
    OutcomeAppend(s.log, ResetDone);
  }

  lemma {:induction false} QuietRunKeepsOrdered(s: Session, es: seq<Event>)
    requires Consistent(s) && Guarded(s) && Ordered(s) && ValidRun(s, es) && QuietRun(s, es)
    ensures Ordered(After(s, es))
    decreases |es|
  {
    if es != [] {
      var e := es[0];
      var s' := Apply(s, e);
      StepKeepsConsistent(s, e);
      StepKeepsGuardedIffQuiet(s, e);
      QuietStepKeepsOrdered(s, e);
      QuietRunKeepsOrdered(s', es[1..]);
    }
  }

  lemma QuietStepKeepsOrdered(s: Session, e: Event)
    requires Guarded(s) && Ordered(s) && Enabled(s, e) && Quiet(s, e)
    ensures Ordered(Apply(s, e))
  {
    match e
    case AgentRaises(t) => EndKeepsOrdered(s, t, Failed);
    case Finish(t) => EndKeepsOrdered(s, t, s.turns[t].phase.outcome);
    case Prompt(c, text) =>
      if Accepts(s, c, text) { AcceptKeepsOrdered(s, c, text); } else { NoteKeepsOrdered(s, Apply(s, e), Rejected(c)); }
    case Cancel(c) => NoteKeepsOrdered(s, Apply(s, e), CancelReceived(c));
    case Reset(c) => ResetKeepsOrdered(s, c);
    case Reject(c) => NoteKeepsOrdered(s, Apply(s, e), Rejected(c));
    case Connect(_) | Disconnect(_) =>
    case Schedule(_) | StartRun(_) | AgentReturns(_, _) =>
      forall u | u in Apply(s, e).turns ensures InOrder(Apply(s, e), u) { assert InOrder(s, u); }
  }

  /** When resets are quiet, the conversation is in claim order, and each agent worked on exactly the
      history its block is appended to. */
  lemma ConversationIsInClaimOrder(es: seq<Event>)
    requires ValidRun(Init(), es) && QuietRun(Init(), es)
    ensures var s := After(Init(), es);
            && s.conversation == ByClaim(s.log, |s.log|)
            && (forall t :: t in s.turns && (s.turns[t].phase.Running? || s.turns[t].phase.Returned?) ==>
                  s.turns[t].phase.history == s.conversation)
  {
    QuietRunKeepsOrdered(Init(), es);
    var s := After(Init(), es);
    forall t | t in s.turns && (s.turns[t].phase.Running? || s.turns[t].phase.Returned?)
      ensures s.turns[t].phase.history == s.conversation
    {
      assert InOrder(s, t);
    }
  }
}
