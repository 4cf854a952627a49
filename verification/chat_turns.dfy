/**
 The editor-chat turn protocol: several connections over one stored session.

 One step is one stretch of code that runs without a suspension point.  Database helpers and
 sends are assumed not to raise.  The log is history: it records what the session did, in order.
 */
module ChatTurns {
  import opened Wrappers
  import opened Text

  type ConnId = nat
  type TurnId = nat

  datatype Message = User(text: string) | Produced(id: nat)

  datatype Outcome = Final(messages: seq<Message>) | Cancelled | Failed

  /** Claimed: the reply is being sent, the connection's receive loop waits for it.
      Scheduled: the runner task exists.  Running: it has read the history and called the agent.
      Returned: the agent is done and the runner yields once before it publishes. */
  datatype Phase =
    | Claimed
    | Scheduled
    | Running(history: seq<Message>)
    | Returned(history: seq<Message>, outcome: Outcome)

  datatype Turn = Turn(conn: ConnId, text: string, phase: Phase)

  datatype Conn = Conn(open: bool, cancelSet: bool, active: Option<TurnId>)

  datatype Entry =
    | Accepted(t: TurnId, conn: ConnId, text: string)
    | Rejected(conn: ConnId)
    | CancelReceived(conn: ConnId)
    | ResetDone
    | Published(t: TurnId, outcome: Outcome)
    | ReleasedBy(t: TurnId)

  /** `claim` and `conversation` are the stored session row; `turns` are those whose runner has not ended. */
  datatype Session = Session(
    conns: map<ConnId, Conn>, claim: Option<TurnId>, conversation: seq<Message>,
    turns: map<TurnId, Turn>, nextTurn: TurnId, log: seq<Entry>)

  datatype Event =
    | Connect(c: ConnId)
    | Disconnect(c: ConnId)
    | Prompt(c: ConnId, text: Option<string>)
    | Cancel(c: ConnId)
    | Reset(c: ConnId)
    | Reject(c: ConnId)
    | Schedule(t: TurnId)
    | StartRun(t: TurnId)
    | AgentReturns(t: TurnId, outcome: Outcome)
    | AgentRaises(t: TurnId)
    | Finish(t: TurnId)

  function Init(): Session {
    Session(map[], None, [], map[], 0, [])
  }

  /** The receive loop of c can take the next frame: it is not inside a prompt's reply. */
  predicate Receiving(s: Session, c: ConnId) {
    && c in s.conns && s.conns[c].open
    && !(s.conns[c].active.Some? && s.conns[c].active.value in s.turns && s.turns[s.conns[c].active.value].phase.Claimed?)
  }

  predicate OwnsTurn(s: Session, t: TurnId) {
    t in s.turns && s.turns[t].conn in s.conns
  }

  predicate Enabled(s: Session, e: Event) {
    match e
    case Connect(c) => c !in s.conns
    case Disconnect(c) => Receiving(s, c)
    case Prompt(c, text) => Receiving(s, c)
    case Cancel(c) => Receiving(s, c)
    case Reset(c) => Receiving(s, c)
    case Reject(c) => Receiving(s, c)
    case Schedule(t) => OwnsTurn(s, t) && s.turns[t].phase.Claimed?
    case StartRun(t) => OwnsTurn(s, t) && s.turns[t].phase.Scheduled?
    case AgentReturns(t, outcome) =>
      // The agent reports a cancelled turn only when it saw the connection's cancel flag.
      && OwnsTurn(s, t) && s.turns[t].phase.Running? && !outcome.Failed?
      && (outcome.Cancelled? ==> s.conns[s.turns[t].conn].cancelSet)
    case AgentRaises(t) => OwnsTurn(s, t) && s.turns[t].phase.Running?
    case Finish(t) => OwnsTurn(s, t) && s.turns[t].phase.Returned?
  }

  predicate Blank(text: string) {
    forall c :: c in text ==> IsPythonSpace(c)
  }

  /** A prompt is taken when it has text and both guards are free: the connection's own active turn
      and the claim in the session row. */
  predicate Accepts(s: Session, c: ConnId, text: Option<string>)
    requires c in s.conns
  {
    text.Some? && !Blank(text.value) && s.conns[c].active.None? && s.claim.None?
  }

  function Block(text: string, messages: seq<Message>): seq<Message> {
    [User(text)] + messages
  }

  /** The terminal publish and the runner's cleanup; the row claim is cleared without looking at it. */
  function End(s: Session, t: TurnId, outcome: Outcome): Session
    requires OwnsTurn(s, t)
  {
    var turn := s.turns[t];
    var stored := if outcome.Final? then s.conversation + Block(turn.text, outcome.messages) else s.conversation;
    s.(conns := s.conns[turn.conn := s.conns[turn.conn].(active := None)],
       claim := None,
       conversation := stored,
       turns := s.turns - {t},
       log := s.log + [Published(t, outcome), ReleasedBy(t)])
  }

  function Apply(s: Session, e: Event): Session
    requires Enabled(s, e)
  {
    match e
    case Connect(c) => s.(conns := s.conns[c := Conn(true, false, None)])
    case Disconnect(c) => s.(conns := s.conns[c := s.conns[c].(open := false)])
    case Prompt(c, text) =>
      if Accepts(s, c, text) then
        var t := s.nextTurn;
        s.(conns := s.conns[c := s.conns[c].(cancelSet := false, active := Some(t))],
           claim := Some(t),
           turns := s.turns[t := Turn(c, text.value, Claimed)],
           nextTurn := t + 1,
           log := s.log + [Accepted(t, c, text.value)])
      else s.(log := s.log + [Rejected(c)])
    case Cancel(c) =>
      s.(conns := s.conns[c := s.conns[c].(cancelSet := true)], log := s.log + [CancelReceived(c)])
    case Reset(c) => s.(conversation := [], claim := None, log := s.log + [ResetDone])
    case Reject(c) => s.(log := s.log + [Rejected(c)])
    case Schedule(t) => s.(turns := s.turns[t := s.turns[t].(phase := Scheduled)])
    case StartRun(t) => s.(turns := s.turns[t := s.turns[t].(phase := Running(s.conversation))])
    case AgentReturns(t, outcome) =>
      s.(turns := s.turns[t := s.turns[t].(phase := Returned(s.turns[t].phase.history, outcome))])
    case AgentRaises(t) => End(s, t, Failed)
    case Finish(t) => End(s, t, s.turns[t].phase.outcome)
  }

  // Runs

  ghost predicate ValidRun(s: Session, es: seq<Event>)
    decreases |es|
  {
    es == [] || (Enabled(s, es[0]) && ValidRun(Apply(s, es[0]), es[1..]))
  }

  ghost function After(s: Session, es: seq<Event>): Session
    requires ValidRun(s, es)
    decreases |es|
  {
    if es == [] then s else After(Apply(s, es[0]), es[1..])
  }

  lemma Prepend(s: Session, e: Event, es: seq<Event>)
    requires Enabled(s, e) && ValidRun(Apply(s, e), es)
    ensures ValidRun(s, [e] + es) && After(s, [e] + es) == After(Apply(s, e), es)
  {
    assert ([e] + es)[1..] == es;
  }
}
