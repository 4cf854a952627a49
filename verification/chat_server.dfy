/**
 The chat engine's handlers and runner as they change the connections and the session row in place.
 Every handler method is one stretch between suspension points, equals a step of ChatTurns, and keeps Valid(): active
 ids and turns name each other, the stored conversation is what the log tells, and cancel flags mean what they say.
 */
module ChatServer {
  import opened Wrappers
  import opened Text
  import opened ChatTurns
  import opened ChatGuards
  import opened ChatHistory
  import opened ChatConversation

  /** What a surface's own frame handler does with a method the engine does not know. */
  datatype Extra = Declined | Answered | RunsPrompt(text: string)

  /** An inbound frame after JSON decoding. */
  datatype Frame = NotJson | NotObject | Request(name: string, text: Option<string>, extra: Extra)

  function EventOf(c: ConnId, f: Frame): Event {
    if !f.Request? then Reject(c)
    else if f.name == "prompt" then Prompt(c, f.text)
    else if f.name == "cancel" then Cancel(c)
    else if f.name == "reset" then Reset(c)
    else if f.extra.RunsPrompt? then Prompt(c, Some(f.extra.text))
    else Reject(c)
  }

  /** The text has a character that is not white space. */
  predicate HasWords(text: Option<string>) {
    text.Some? && exists k :: 0 <= k < |text.value| && !IsPythonSpace(text.value[k])
  }

  /** A refused frame is answered and changes nothing. */
  ghost predicate Refused(s: Session, t: Session, c: ConnId) {
    t == s.(log := s.log + [Rejected(c)])
  }

  /** With words, no turn of its own and nobody holding the claim, the prompt becomes the one new turn, holding the
      claim, with the connection's flag clear; the conversation waits for the turn's end. */
  ghost predicate PromptEffect(s: Session, t: Session, c: ConnId, text: Option<string>)
    requires c in s.conns
  {
    if HasWords(text) && s.conns[c].active.None? && s.claim.None? then
      && t.turns == s.turns[s.nextTurn := Turn(c, text.value, Claimed)] && t.nextTurn == s.nextTurn + 1
      && t.claim == Some(s.nextTurn) && t.conversation == s.conversation
      && t.conns == s.conns[c := s.conns[c].(cancelSet := false, active := Some(s.nextTurn))]
      && t.log == s.log + [Accepted(s.nextTurn, c, text.value)]
    else Refused(s, t, c)
  }

  /** What the name of a frame does to the session. */
  ghost predicate FrameEffect(s: Session, t: Session, c: ConnId, f: Frame)
    requires c in s.conns
  {
    if f.Request? && f.name == "cancel" then
      // this connection's flag, and nothing else
      t == s.(conns := s.conns[c := s.conns[c].(cancelSet := true)], log := s.log + [CancelReceived(c)])
    else if f.Request? && f.name == "reset" then
      // the conversation and the claim; turns go on, flags stay
      t == s.(conversation := [], claim := None, log := s.log + [ResetDone])
    else if f.Request? && f.name == "prompt" then PromptEffect(s, t, c, f.text)
    else if f.Request? && f.extra.RunsPrompt? then PromptEffect(s, t, c, Some(f.extra.text))
    else Refused(s, t, c)
  }

  /** The end of a turn: its own row and connection are free, and a final turn leaves its prompt and then its messages
      at the end of the conversation. */
  ghost predicate EndEffect(s: Session, t: Session, turn: TurnId, outcome: Outcome)
    requires turn in s.turns && s.turns[turn].conn in s.conns
  {
    var c := s.turns[turn].conn;
    && t.turns == s.turns - {turn} && t.nextTurn == s.nextTurn && t.claim == None
    && t.conns == s.conns[c := s.conns[c].(active := None)]
    && t.conversation == (match outcome
                          case Final(messages) => s.conversation + ([User(s.turns[turn].text)] + messages)
                          case Cancelled => s.conversation
                          case Failed => s.conversation)
    && t.log == s.log + [Published(turn, outcome), ReleasedBy(turn)]
  }

  lemma PromptHasEffect(s: Session, c: ConnId, text: Option<string>)
    requires Receiving(s, c)
    ensures PromptEffect(s, Apply(s, Prompt(c, text)), c, text)
  {
    assert HasWords(text) <==> text.Some? && !Blank(text.value) by {
      if text.Some? && !Blank(text.value) {
        var ch :| ch in text.value && !IsPythonSpace(ch);
        var k :| 0 <= k < |text.value| && text.value[k] == ch;
      }
    }
  }

  lemma FrameHasEffect(s: Session, c: ConnId, f: Frame)
    requires Receiving(s, c)
    ensures FrameEffect(s, Apply(s, EventOf(c, f)), c, f)
  {
    if f.Request? {
      PromptHasEffect(s, c, f.text);
      if f.extra.RunsPrompt? { PromptHasEffect(s, c, Some(f.extra.text)); }
    }
  }

  lemma EndHasEffect(s: Session, t: TurnId, outcome: Outcome)
    requires OwnsTurn(s, t)
    ensures EndEffect(s, End(s, t, outcome), t, outcome)
  {
  }

  /** Every step of the protocol leaves a valid state. */
  lemma StepKeepsValid(s: Session, e: Event)
    requires Consistent(s) && Recorded(s) && CancelState(s) && Enabled(s, e)
    ensures Consistent(Apply(s, e)) && Recorded(Apply(s, e)) && CancelState(Apply(s, e))
  {
    StepKeepsConsistent(s, e);
    StepKeepsRecorded(s, e);
    StepKeepsCancelState(s, e);
  }

  class ChatEngine {
    var conns: map<ConnId, Conn>
    var claim: Option<TurnId>
    var conversation: seq<Message>
    var turns: map<TurnId, Turn>
    var nextTurn: TurnId
    var log: seq<Entry>

    ghost function View(): Session
      reads this
    {
      Session(conns, claim, conversation, turns, nextTurn, log)
    }

    ghost predicate Valid()
      reads this
    {
      Consistent(View()) && Recorded(View()) && CancelState(View())
    }

    constructor ()
      ensures Valid() && View() == Init()
    {
      conns, claim, conversation, turns, nextTurn, log := map[], None, [], map[], 0, [];
    }

    // The session row

    method ClaimTurn(t: TurnId) returns (granted: bool)
      modifies this`claim
      ensures granted == old(claim).None?
      ensures claim == if granted then Some(t) else old(claim)
    {
      if claim.Some? {
        return false;
      }
      claim := Some(t);
      return true;
    }

    method ReleaseTurn()
      modifies this`claim
      ensures claim == None
    {
      claim := None;
    }

    method AppendTurnMessages(messages: seq<Message>)
      modifies this`claim, this`conversation
      ensures claim == None && conversation == old(conversation) + messages
    {
      conversation := conversation + messages;
      claim := None;
    }

    method ResetSession()
      modifies this`claim, this`conversation
      ensures claim == None && conversation == []
    {
      conversation := [];
      claim := None;
    }

    // The receive loop

    /** The part of HandleFrame's step that a prompt takes. */
    method HandlePrompt(c: ConnId, text: Option<string>)
      requires Receiving(View(), c)
      modifies this
      ensures View() == Apply(old(View()), Prompt(c, text))
      ensures PromptEffect(old(View()), View(), c, text)
    {
      PromptHasEffect(View(), c, text);
      if text.None? || Blank(text.value) {
        log := log + [Rejected(c)];
        return;
      }
      if conns[c].active.Some? {
        log := log + [Rejected(c)];
        return;
      }
      var t := nextTurn;
      var granted := ClaimTurn(t);
      if !granted {
        log := log + [Rejected(c)];
        return;
      }
      nextTurn := t + 1;
      conns := conns[c := conns[c].(cancelSet := false)];
      conns := conns[c := conns[c].(active := Some(t))];
      turns := turns[t := Turn(c, text.value, Claimed)];
      log := log + [Accepted(t, c, text.value)];
    }

    method HandleFrame(c: ConnId, f: Frame)
      requires Valid() && Receiving(View(), c)
      modifies this
      ensures Enabled(old(View()), EventOf(c, f)) && View() == Apply(old(View()), EventOf(c, f))
      ensures Valid()
      ensures FrameEffect(old(View()), View(), c, f)
    {
      FrameHasEffect(View(), c, f);
      StepKeepsValid(View(), EventOf(c, f));
      if !f.Request? {
        log := log + [Rejected(c)];
        return;
      }
      if f.name == "prompt" {
        HandlePrompt(c, f.text);
      } else if f.name == "cancel" {
        conns := conns[c := conns[c].(cancelSet := true)];
        log := log + [CancelReceived(c)];
      } else if f.name == "reset" {
        ResetSession();
        log := log + [ResetDone];
      } else if f.extra.RunsPrompt? {
        HandlePrompt(c, Some(f.extra.text));
      } else {
        log := log + [Rejected(c)];
      }
    }

    // The runner

    /** The runner's `finally`, after its terminal event. */
    method CleanUp(t: TurnId)
      requires OwnsTurn(View(), t)
      modifies this
      ensures conversation == old(conversation) && nextTurn == old(nextTurn) && claim == None
      ensures conns == old(conns)[old(turns)[t].conn := old(conns)[old(turns)[t].conn].(active := None)]
      ensures turns == old(turns) - {t} && log == old(log) + [ReleasedBy(t)]
    {
      var c := turns[t].conn;
      ReleaseTurn();
      conns := conns[c := conns[c].(active := None)];
      turns := turns - {t};
      log := log + [ReleasedBy(t)];
    }

    method RunnerFails(t: TurnId)
      requires Valid() && Enabled(View(), AgentRaises(t))
      modifies this
      ensures View() == Apply(old(View()), AgentRaises(t))
      ensures Valid()
      ensures EndEffect(old(View()), View(), t, Failed)
    {
      EndHasEffect(View(), t, Failed);
      StepKeepsValid(View(), AgentRaises(t));
      log := log + [Published(t, Failed)];
      CleanUp(t);
      assert old(log) + [Published(t, Failed)] + [ReleasedBy(t)] == old(log) + [Published(t, Failed), ReleasedBy(t)];
    }

    /** After the runner has yielded once: store the block of a final turn, publish, clean up. */
    method RunnerFinishes(t: TurnId)
      requires Valid() && Enabled(View(), Finish(t))
      modifies this
      ensures View() == Apply(old(View()), Finish(t))
      ensures Valid()
      ensures EndEffect(old(View()), View(), t, old(turns)[t].phase.outcome)
    {
      EndHasEffect(View(), t, turns[t].phase.outcome);
      StepKeepsValid(View(), Finish(t));
      var outcome := turns[t].phase.outcome;
      if outcome.Final? {
        AppendTurnMessages([User(turns[t].text)] + outcome.messages);
      }
      log := log + [Published(t, outcome)];
      CleanUp(t);
      assert old(log) + [Published(t, outcome)] + [ReleasedBy(t)] == old(log) + [Published(t, outcome), ReleasedBy(t)];
    }

    /** The runner task starts: it reads the stored history again before it calls the agent. */
    method RunnerStarts(t: TurnId)
      requires Valid() && Enabled(View(), StartRun(t))
      modifies this`turns
      ensures View() == Apply(old(View()), StartRun(t))
      ensures Valid()
      ensures turns[t].phase == Running(Replay(log))
      ensures turns == old(turns)[t := old(turns)[t].(phase := Running(conversation))]
    {
      StepKeepsValid(View(), StartRun(t));
      var history := conversation;
      turns := turns[t := turns[t].(phase := Running(history))];
    }
  }
}
