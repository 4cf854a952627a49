/** The WebSocket bridge between a browser and an app worker: two pumps, either of which may be cut short anywhere. */
module AppsProxy {
  import opened Wrappers

  type Data = seq<bv8>

  datatype Payload = TextFrame(text: string) | BinaryFrame(data: Data)

  /** What a socket hands out: a message, or the news that the other end is gone. */
  datatype Item = Message(text: Option<string>, bytes: Option<Data>) | Gone(code: Option<int>)

  /** Text goes before bytes; a message with neither is passed over. */
  function PayloadOf(m: Item): Option<Payload>
    requires m.Message?
  {
    if m.text.Some? then Some(TextFrame(m.text.value))
    else if m.bytes.Some? then Some(BinaryFrame(m.bytes.value))
    else None
  }

  function Payloads(items: seq<Item>): seq<Payload> {
    if items == [] then []
    else
      (if items[0].Message? && PayloadOf(items[0]).Some? then [PayloadOf(items[0]).value] else []) + Payloads(items[1..])
  }

  /** Codes that stand for a missing or empty close frame and never go over the wire. */
  const UNSENDABLE: set<int> := {1005, 1006, 1015}

  /** A code that may be sent, and the one received whenever that may be sent. */
  function SendableCloseCode(code: Option<int>): (r: int)
    ensures r != 1005 && r != 1006 && r != 1015
    ensures code.Some? && code.value != 1005 && code.value != 1006 && code.value != 1015 ==> r == code.value
    ensures code.None? || code.value == 1005 || code.value == 1006 || code.value == 1015 ==> r == 1000
  {
    if code.None? || code.value in UNSENDABLE then 1000 else code.value
  }

  // One direction

  /** Where a pump stands: waiting for the next item, holding a frame not yet written, having written it, about to
      forward a close, done with that, or cut short. */
  datatype Phase = Waiting | Holding(frame: Payload) | Written | Closing(code: int) | Done | Stopped

  /** `sent` is all the one end has sent; `queue` what the pump has not taken; `delivered` what the other end was
      given; `closed` the close code it was given. */
  datatype Lane = Lane(sent: seq<Item>, queue: seq<Item>, phase: Phase, delivered: seq<Payload>, closed: Option<int>)

  datatype Step = Arrive(item: Item) | Take | Write | Resume | Close | Fail | Cancel

  predicate Over(l: Lane) { l.phase.Done? || l.phase.Stopped? }

  predicate Open(items: seq<Item>) {
    forall i :: 0 <= i < |items| ==> items[i].Message?
  }

  predicate CanStep(l: Lane, s: Step) {
    match s
    case Arrive(_) => Open(l.sent)
    case Take => l.phase.Waiting? && l.queue != []
    case Write => l.phase.Holding?
    case Resume => l.phase.Written?
    case Close => l.phase.Closing?
    case Fail => !Over(l)
    case Cancel => !Over(l)
  }

  function Stepped(l: Lane, s: Step): Lane
    requires CanStep(l, s)
  {
    match s
    case Arrive(item) => l.(sent := l.sent + [item], queue := l.queue + [item])
    case Take =>
      var rest := l.(queue := l.queue[1..]);
      (match l.queue[0]
       case Gone(code) => rest.(phase := Closing(SendableCloseCode(code)))
       case Message(_, _) =>
         var p := PayloadOf(l.queue[0]);
         if p.Some? then rest.(phase := Holding(p.value)) else rest)
    case Write => l.(delivered := l.delivered + [l.phase.frame], phase := Written)
    case Resume => l.(phase := Waiting)
    case Close => l.(closed := Some(l.phase.code), phase := Done)
    case Fail => l.(phase := Stopped)
    case Cancel => l.(phase := Stopped)
  }

  function Taken(l: Lane): seq<Item>
    requires |l.queue| <= |l.sent|
  {
    l.sent[..|l.sent| - |l.queue|]
  }

  /** The last item sent says the end is gone, and c is what that is forwarded as. */
  predicate EndsWith(items: seq<Item>, c: int) {
    items != [] && var last := items[|items| - 1]; last.Gone? && c == SendableCloseCode(last.code)
  }

  ghost predicate LaneOk(l: Lane) {
    && |l.queue| <= |l.sent| && l.queue == l.sent[|l.sent| - |l.queue|..]
    && (l.sent != [] ==> Open(l.sent[..|l.sent| - 1]))
    && var before := Payloads(Taken(l));
    match l.phase
    case Waiting => l.delivered == before && Open(Taken(l)) && l.closed.None?
    case Written => l.delivered == before && Open(Taken(l)) && l.closed.None?
    case Holding(p) => l.delivered + [p] == before && Open(Taken(l)) && l.closed.None?
    case Closing(c) => l.delivered == before && l.queue == [] && EndsWith(l.sent, c) && l.closed.None?
    case Done => l.delivered == before && l.queue == [] && l.closed.Some? && EndsWith(l.sent, l.closed.value)
    case Stopped => l.delivered <= before && |before| <= |l.delivered| + 1 && l.closed.None?
  }

  lemma {:induction false} PayloadsConcat(a: seq<Item>, b: seq<Item>)
    ensures Payloads(a + b) == Payloads(a) + Payloads(b)
  {
    if a == [] {
      assert a + b == b;
    } else {
      assert (a + b)[1..] == a[1..] + b;
      PayloadsConcat(a[1..], b);
    }
  }

  lemma OnePayload(item: Item)
    ensures Payloads([item]) == if item.Message? && PayloadOf(item).Some? then [PayloadOf(item).value] else []
  {
    assert Payloads([item][1..]) == [];
  }

  /** A message is one frame, of its text if it has any and else of its bytes; with neither, or at the end, none. */
  lemma OneFrame(item: Item)
    ensures Payloads([item]) == match item
                                case Message(Some(text), _) => [TextFrame(text)]
                                case Message(None, Some(bytes)) => [BinaryFrame(bytes)]
                                case _ => []
  {
    OnePayload(item);
  }

  lemma TakeKeepsLane(l: Lane)
    requires LaneOk(l) && CanStep(l, Take)
    ensures LaneOk(Stepped(l, Take))
  {
    var m := Stepped(l, Take);
    var item := l.queue[0];
    var n := |l.sent| - |l.queue|;
    assert item == l.sent[n];
    assert Taken(m) == Taken(l) + [item];
    PayloadsConcat(Taken(l), [item]);
    OnePayload(item);
    assert m.queue == m.sent[|m.sent| - |m.queue|..];
    assert forall i :: 0 <= i < |l.sent| - 1 ==> l.sent[..|l.sent| - 1][i] == l.sent[i];
  }

  lemma ArriveKeepsLane(l: Lane, item: Item)
    requires LaneOk(l) && CanStep(l, Arrive(item))
    ensures LaneOk(Stepped(l, Arrive(item)))
  {
    var m := Stepped(l, Arrive(item));
    assert Taken(m) == Taken(l);
    assert m.sent[..|m.sent| - 1] == l.sent;
  }

  lemma StepKeepsLane(l: Lane, s: Step)
    requires LaneOk(l) && CanStep(l, s)
    ensures LaneOk(Stepped(l, s))
  {
    match s
    case Arrive(item) => ArriveKeepsLane(l, item);
    case Take => TakeKeepsLane(l);
    case _ => assert Taken(Stepped(l, s)) == Taken(l);
  }

  /** In order, without duplicates, nothing skipped; whole if a close went through, and then with a code that may be
      sent; and a pump cut short has lost at most the frame in its hands. */
  lemma LaneDelivers(l: Lane)
    requires LaneOk(l)
    ensures l.delivered <= Payloads(l.sent)
    ensures l.closed.Some? ==> l.delivered == Payloads(l.sent) && EndsWith(l.sent, l.closed.value)
    ensures l.closed.Some? <==> l.phase.Done?
    ensures Payloads(Taken(l)) == l.delivered || |Payloads(Taken(l))| == |l.delivered| + 1
  {
    assert l.sent == Taken(l) + l.queue;
    PayloadsConcat(Taken(l), l.queue);
  }

  // Both directions

  /** Pumps from the browser up to the worker and down again, whether the handler itself was cancelled, whether it
      has run to its end, and the close code the worker's socket was given. */
  datatype Bridge = Bridge(up: Lane, down: Lane, aborted: bool, finished: bool, upstreamClose: Option<int>)

  datatype Event = Up(step: Step) | Down(step: Step) | Abort | Finish

  /** A pump is cancelled only once the other is over or the handler is cancelled. */
  predicate Enabled(b: Bridge, e: Event) {
    && !b.finished
    && match e
       case Up(s) => CanStep(b.up, s) && (s.Cancel? ==> Over(b.down) || b.aborted)
       case Down(s) => CanStep(b.down, s) && (s.Cancel? ==> Over(b.up) || b.aborted)
       case Abort => true
       case Finish => Over(b.up) && Over(b.down)
  }

  /** At the end the worker's socket is closed; a close the pump forwarded has gone first. */
  function Apply(b: Bridge, e: Event): Bridge
    requires Enabled(b, e)
  {
    match e
    case Up(s) =>
      var up := Stepped(b.up, s);
      b.(up := up, upstreamClose := up.closed)
    case Down(s) => b.(down := Stepped(b.down, s))
    case Abort => b.(aborted := true)
    case Finish => b.(finished := true, upstreamClose := if b.up.closed.Some? then b.up.closed else Some(1000))
  }

  const FRESH: Lane := Lane([], [], Waiting, [], None)
  const START: Bridge := Bridge(FRESH, FRESH, false, false, None)

  ghost predicate ValidRun(b: Bridge, run: seq<Event>)
    decreases |run|
  {
    run == [] || (Enabled(b, run[0]) && ValidRun(Apply(b, run[0]), run[1..]))
  }

  ghost function After(b: Bridge, run: seq<Event>): Bridge
    requires ValidRun(b, run)
    decreases |run|
  {
    if run == [] then b else After(Apply(b, run[0]), run[1..])
  }

  ghost predicate LanesOk(b: Bridge) { LaneOk(b.up) && LaneOk(b.down) }

  ghost predicate ClosesOk(b: Bridge) {
    && (b.finished ==> Over(b.up) && Over(b.down))
    && b.upstreamClose == if b.up.closed.Some? then b.up.closed else if b.finished then Some(1000) else None
  }

  lemma StepKeepsLanes(b: Bridge, e: Event)
    requires LanesOk(b) && Enabled(b, e)
    ensures LanesOk(Apply(b, e))
  {
    if e.Up? { StepKeepsLane(b.up, e.step); }
    if e.Down? { StepKeepsLane(b.down, e.step); }
  }

  lemma {:induction false} RunKeepsBridge(b: Bridge, run: seq<Event>)
    requires LanesOk(b) && ClosesOk(b) && ValidRun(b, run)
    ensures LanesOk(After(b, run)) && ClosesOk(After(b, run))
    decreases |run|
  {
    if run != [] {
      StepKeepsLanes(b, run[0]);
      RunKeepsBridge(Apply(b, run[0]), run[1..]);
    }
  }

  lemma StartIsOk()
    ensures LanesOk(START) && ClosesOk(START)
  {
    assert LaneOk(FRESH);
  }

  /** A direction delivers in order, each frame once; all of them before a close, which carries a code that may be sent. */
  ghost predicate Faithful(l: Lane) {
    && l.delivered <= Payloads(l.sent)
    && (l.closed.Some? ==>
          l.delivered == Payloads(l.sent) && EndsWith(l.sent, l.closed.value) && l.closed.value !in UNSENDABLE)
  }

  /** Over every run, whichever side goes first and wherever cancellation lands. */
  lemma BridgeIsFaithful(run: seq<Event>)
    requires ValidRun(START, run)
    ensures var b := After(START, run);
            && Faithful(b.up) && Faithful(b.down)
            && (b.finished ==> b.upstreamClose.Some?)
            && (b.upstreamClose.Some? ==> b.upstreamClose.value !in UNSENDABLE)
  {
    StartIsOk();
    RunKeepsBridge(START, run);
    LaneDelivers(After(START, run).up);
    LaneDelivers(After(START, run).down);
  }

  // Which closes are mirrored

  /** A pump fails or is cancelled. */
  predicate CutsUp(e: Event) { e.Up? && (e.step.Fail? || e.step.Cancel?) }

  predicate CutsDown(e: Event) { e.Down? && (e.step.Fail? || e.step.Cancel?) }

  lemma {:induction false} StoppedIffCut(b: Bridge, run: seq<Event>)
    requires ValidRun(b, run)
    ensures After(b, run).up.phase.Stopped? <==> b.up.phase.Stopped? || exists i :: 0 <= i < |run| && CutsUp(run[i])
    ensures After(b, run).down.phase.Stopped? <==> b.down.phase.Stopped? || exists i :: 0 <= i < |run| && CutsDown(run[i])
    decreases |run|
  {
    if run != [] {
      var c, rest := Apply(b, run[0]), run[1..];
      StoppedIffCut(c, rest);
      assert c.up.phase.Stopped? <==> b.up.phase.Stopped? || CutsUp(run[0]);
      assert c.down.phase.Stopped? <==> b.down.phase.Stopped? || CutsDown(run[0]);
      assert forall i :: 1 <= i < |run| ==> run[i] == rest[i - 1];
      assert (exists i :: 0 <= i < |rest| && CutsUp(rest[i])) ==> exists i :: 0 <= i < |run| && CutsUp(run[i]) by {
        if i :| 0 <= i < |rest| && CutsUp(rest[i]) { assert CutsUp(run[i + 1]); }
      }
      assert (exists i :: 0 <= i < |rest| && CutsDown(rest[i])) ==> exists i :: 0 <= i < |run| && CutsDown(run[i]) by {
        if i :| 0 <= i < |rest| && CutsDown(rest[i]) { assert CutsDown(run[i + 1]); }
      }
    }
  }

  /** At the end of any run a direction has passed its close on, and with it every frame, exactly when its pump was
      never cut. */
  lemma MirroredIffNeverCut(run: seq<Event>)
    requires ValidRun(START, run) && After(START, run).finished
    ensures var b := After(START, run);
            && (b.down.closed.Some? <==> forall i :: 0 <= i < |run| ==> !CutsDown(run[i]))
            && (b.up.closed.Some? <==> forall i :: 0 <= i < |run| ==> !CutsUp(run[i]))
            && (b.down.closed.Some? ==> b.down.delivered == Payloads(b.down.sent))
            && (b.up.closed.Some? ==> b.up.delivered == Payloads(b.up.sent))
  {
    StartIsOk();
    RunKeepsBridge(START, run);
    StoppedIffCut(START, run);
    LaneDelivers(After(START, run).up);
    LaneDelivers(After(START, run).down);
  }

  // A close that is not mirrored

  const HELLO: Item := Message(Some("hello"), None)
  const NEWS: Item := Message(Some("news"), None)

  /** A frame is in the hands of one pump; the other has taken nothing. */
  lemma CutWhileWaiting(b: Bridge)
    requires b.up.phase.Holding? && b.down.phase.Waiting? && b.up.closed.None? && !b.finished
    ensures var cut := [Up(Fail), Down(Cancel), Finish];
            && ValidRun(b, cut)
            && var e := After(b, cut);
            && e.finished && e.down == b.down.(phase := Stopped)
  {
    var c := b.(up := b.up.(phase := Stopped), upstreamClose := None);
    var d := c.(down := c.down.(phase := Stopped));
    assert ValidRun(d.(finished := true, upstreamClose := Some(1000)), []);
    RunOn(d, Finish, []);
    RunOn(c, Down(Cancel), [Finish]);
    assert [Down(Cancel)] + [Finish] == [Down(Cancel), Finish] && [Finish] + [] == [Finish];
    RunOn(b, Up(Fail), [Down(Cancel), Finish]);
    assert [Up(Fail)] + [Down(Cancel), Finish] == [Up(Fail), Down(Cancel), Finish];
  }

  const CLOSED: Item := Gone(Some(4000))
  const UNDELIVERED: Lane := Lane([NEWS, CLOSED], [NEWS, CLOSED], Waiting, [], None)

  lemma HelloIsHeld()
    ensures CanStep(FRESH, Arrive(HELLO)) && CanStep(Stepped(FRESH, Arrive(HELLO)), Take)
    ensures var up := Stepped(Stepped(FRESH, Arrive(HELLO)), Take); up.phase.Holding? && up.closed.None?
  {
    assert ([] + [HELLO])[0] == HELLO;
  }

  lemma NewsArrives()
    ensures CanStep(FRESH, Arrive(NEWS)) && CanStep(Stepped(FRESH, Arrive(NEWS)), Arrive(CLOSED))
    ensures Stepped(Stepped(FRESH, Arrive(NEWS)), Arrive(CLOSED)) == UNDELIVERED
  {
    assert [] + [NEWS] == [NEWS] && [NEWS] + [CLOSED] == [NEWS, CLOSED];
  }

  lemma NewsIsOwed()
    ensures Payloads([NEWS, CLOSED]) == [TextFrame("news")]
  {
    PayloadsConcat([NEWS], [CLOSED]);
    OnePayload(NEWS);
    OnePayload(CLOSED);
    assert [NEWS] + [CLOSED] == [NEWS, CLOSED];
  }

  /** The worker sends and closes; the browser's pump fails to write to it before the other pump has run. */
  lemma WorkerCloseCanBeLost() returns (run: seq<Event>)
    ensures ValidRun(START, run)
    ensures var b := After(START, run);
            && b.finished && b.down.closed.None? && b.down.delivered == []
            && b.down.sent == [NEWS, CLOSED] && Payloads(b.down.sent) == [TextFrame("news")]
  {
    HelloIsHeld();
    NewsArrives();
    NewsIsOwed();
    var b1 := START.(up := Stepped(FRESH, Arrive(HELLO)));
    var b2 := b1.(up := Stepped(b1.up, Take));
    var b3 := b2.(down := Stepped(FRESH, Arrive(NEWS)));
    var b4 := b3.(down := UNDELIVERED);
    CutWhileWaiting(b4);
    run := [Up(Fail), Down(Cancel), Finish];
    RunOn(b3, Down(Arrive(CLOSED)), run);
    run := [Down(Arrive(CLOSED))] + run;
    RunOn(b2, Down(Arrive(NEWS)), run);
    run := [Down(Arrive(NEWS))] + run;
    RunOn(b1, Up(Take), run);
    run := [Up(Take)] + run;
    RunOn(START, Up(Arrive(HELLO)), run);
    run := [Up(Arrive(HELLO))] + run;
  }

  lemma RunOn(b: Bridge, e: Event, rest: seq<Event>)
    requires Enabled(b, e) && ValidRun(Apply(b, e), rest)
    ensures ValidRun(b, [e] + rest) && After(b, [e] + rest) == After(Apply(b, e), rest)
  {
    assert ([e] + rest)[1..] == rest;
  }

  // The two pumps

  /** What becomes of the pump at a suspension: it goes on, or ends before or after what it was waiting for. */
  datatype Fate = GoesOn | EndsBefore | EndsAfter

  /** The pump goes on at every suspension of its first k turns. */
  ghost predicate KeptGoing(fate: nat -> Fate, k: int) { forall c: nat :: c < 2 * k ==> fate(c).GoesOn? }

  ghost predicate NeverCut(fate: nat -> Fate) { forall i: nat :: fate(i).GoesOn? }

  ghost predicate ClosedAt(inbox: seq<Item>, i: int, delivered: seq<Payload>, code: int) {
    && 0 <= i < |inbox| && Open(inbox[..i]) && inbox[i].Gone?
    && delivered == Payloads(inbox[..i]) && code == SendableCloseCode(inbox[i].code)
  }

  lemma PrefixPayloads(inbox: seq<Item>, i: nat)
    requires i <= |inbox|
    ensures Payloads(inbox[..i]) <= Payloads(inbox)
  {
    assert inbox == inbox[..i] + inbox[i..];
    PayloadsConcat(inbox[..i], inbox[i..]);
  }

  lemma AppendPayload(items: seq<Item>, item: Item, more: seq<Item>)
    requires more == items + [item]
    ensures Payloads(more) == Payloads(items) + Payloads([item])
  {
    PayloadsConcat(items, [item]);
  }

  lemma OneMorePayload(inbox: seq<Item>, i: nat)
    requires i < |inbox|
    ensures Payloads(inbox[..i + 1]) == Payloads(inbox[..i]) + Payloads([inbox[i]])
  {
    AppendPayload(inbox[..i], inbox[i], inbox[..i + 1]);
  }

  /** A pump that goes on for k turns has delivered all that the first k messages owe. */
  ghost predicate ServedWhileGoing(inbox: seq<Item>, fate: nat -> Fate, delivered: seq<Payload>) {
    forall k :: 0 <= k <= |inbox| && Open(inbox[..k]) && KeptGoing(fate, k) ==> Payloads(inbox[..k]) <= delivered
  }

  lemma EarlierPayloads(inbox: seq<Item>, k: nat, i: nat)
    requires k <= i <= |inbox|
    ensures Payloads(inbox[..k]) <= Payloads(inbox[..i])
  {
    PrefixPayloads(inbox[..i], k);
    assert inbox[..i][..k] == inbox[..k];
  }

  lemma OpenAt(inbox: seq<Item>, k: nat)
    requires k <= |inbox|
    ensures Open(inbox[..k]) <==> forall j :: 0 <= j < k ==> inbox[j].Message?
  {
    assert forall j :: 0 <= j < k ==> inbox[..k][j] == inbox[j];
  }

  predicate StopsIn(inbox: seq<Item>, fate: nat -> Fate, i: nat)
    requires i <= |inbox|
  {
    i == |inbox| || inbox[i].Gone? || !fate(2 * i).GoesOn? || !fate(2 * i + 1).GoesOn?
  }

  /** To stop in turn i is to have gone on for i turns at most. */
  lemma StopsAt(inbox: seq<Item>, fate: nat -> Fate, i: nat, delivered: seq<Payload>)
    requires i <= |inbox| && Payloads(inbox[..i]) <= delivered
    ensures StopsIn(inbox, fate, i) ==> ServedWhileGoing(inbox, fate, delivered)
  {
    if StopsIn(inbox, fate, i) {
      forall k | 0 <= k <= |inbox| && Open(inbox[..k]) && KeptGoing(fate, k) ensures Payloads(inbox[..k]) <= delivered {
        OpenAt(inbox, k);
        EarlierPayloads(inbox, k, i);
      }
    }
  }

  /** Where the pump stands before turn i: all the messages before are delivered. */
  ghost predicate Served(inbox: seq<Item>, i: nat, delivered: seq<Payload>) {
    i <= |inbox| && Open(inbox[..i]) && delivered == Payloads(inbox[..i])
  }

  lemma TurnDelivers(inbox: seq<Item>, i: nat, delivered: seq<Payload>)
    requires Served(inbox, i, delivered) && i < |inbox| && inbox[i].Message?
    ensures var p := PayloadOf(inbox[i]); Served(inbox, i + 1, if p.Some? then delivered + [p.value] else delivered)
  {
    OneMorePayload(inbox, i);
    OnePayload(inbox[i]);
    OpenAt(inbox, i);
    OpenAt(inbox, i + 1);
  }

  lemma ServedFacts(inbox: seq<Item>, fate: nat -> Fate, i: nat, delivered: seq<Payload>)
    requires Served(inbox, i, delivered)
    ensures delivered <= Payloads(inbox)
    ensures StopsIn(inbox, fate, i) ==> ServedWhileGoing(inbox, fate, delivered)
    ensures i < |inbox| && inbox[i].Gone? ==> ClosedAt(inbox, i, delivered, SendableCloseCode(inbox[i].code)) && !Open(inbox)
    ensures i == |inbox| ==> Open(inbox) && delivered == Payloads(inbox)
  {
    PrefixPayloads(inbox, i);
    StopsAt(inbox, fate, i, delivered);
    assert inbox[..|inbox|] == inbox;
  }

  lemma ServedMore(inbox: seq<Item>, fate: nat -> Fate, i: nat, delivered: seq<Payload>)
    requires Served(inbox, i + 1, delivered) && (i < |inbox| ==> StopsIn(inbox, fate, i))
    ensures delivered <= Payloads(inbox) && ServedWhileGoing(inbox, fate, delivered)
  {
    PrefixPayloads(inbox, i + 1);
    EarlierPayloads(inbox, i, i + 1);
    StopsAt(inbox, fate, i, delivered);
  }

  /** Browser to worker, the inbox being all the browser sends; it waits for more when that runs out. */
  method PumpClientToUpstream(inbox: seq<Item>, fate: nat -> Fate)
      returns (delivered: seq<Payload>, closed: Option<int>)
    ensures delivered <= Payloads(inbox)
    ensures ServedWhileGoing(inbox, fate, delivered)
    ensures closed.Some? ==> exists i :: ClosedAt(inbox, i, delivered, closed.value)
    ensures NeverCut(fate) && Open(inbox) ==> delivered == Payloads(inbox)
    ensures NeverCut(fate) && !Open(inbox) ==> closed.Some?
  {
    delivered, closed := [], None;
    var i, clock := 0, 0;
    while i < |inbox|
      invariant 0 <= i <= |inbox| && clock == 2 * i && closed.None? && Served(inbox, i, delivered)
      decreases |inbox| - i
    {
      ServedFacts(inbox, fate, i, delivered);
      if !fate(clock).GoesOn? { return; }
      var message := inbox[i];
      if message.Gone? {
        if !fate(clock + 1).EndsBefore? { closed := Some(SendableCloseCode(message.code)); }
        return;
      }
      TurnDelivers(inbox, i, delivered);
      if message.text.Some? {
        if fate(clock + 1).EndsBefore? { return; }
        delivered := delivered + [TextFrame(message.text.value)];
        if fate(clock + 1).EndsAfter? {
          ServedMore(inbox, fate, i, delivered);
          return;
        }
      } else if message.bytes.Some? {
        if fate(clock + 1).EndsBefore? { return; }
        delivered := delivered + [BinaryFrame(message.bytes.value)];
        if fate(clock + 1).EndsAfter? {
          ServedMore(inbox, fate, i, delivered);
          return;
        }
      }
      i, clock := i + 1, clock + 2;
    }
    ServedFacts(inbox, fate, |inbox|, delivered);
  }

  /** Worker to browser: the frames until the connection closes, cleanly or not, and then the close. */
  method PumpUpstreamToClient(frames: seq<Payload>, closeCode: Option<int>, fate: nat -> Fate)
      returns (delivered: seq<Payload>, closed: Option<int>)
    ensures delivered <= frames
    ensures forall k :: 0 <= k <= |frames| && KeptGoing(fate, k) ==> k <= |delivered|
    ensures closed.Some? ==> delivered == frames && closed.value == SendableCloseCode(closeCode)
    ensures NeverCut(fate) ==> closed.Some?
  {
    delivered, closed := [], None;
    for i := 0 to |frames|
      invariant delivered == frames[..i]
    {
      if !fate(2 * i).GoesOn? || fate(2 * i + 1).EndsBefore? { return; }
      delivered := delivered + [frames[i]];
      if fate(2 * i + 1).EndsAfter? { return; }
    }
    if fate(2 * |frames|).GoesOn? && !fate(2 * |frames| + 1).EndsBefore? {
      closed := Some(SendableCloseCode(closeCode));
    }
  }
}
