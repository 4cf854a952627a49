/**
 Mutual exclusion of turns.  The row claim is cleared by a reset as well as by the runner, so a reset
 that lands while a turn is running lets a second turn in.  Everything here is exact about that.
 */
module ChatGuards {
  import opened Wrappers
  import opened ChatTurns

  /** Active ids and running turns name each other, and a claim names a running turn. */
  ghost predicate Consistent(s: Session) {
    && (forall t :: t in s.turns ==>
          && t < s.nextTurn && s.turns[t].conn in s.conns
          && s.conns[s.turns[t].conn].active == Some(t))
    && (forall c :: c in s.conns && s.conns[c].active.Some? ==>
          && s.conns[c].active.value in s.turns
          && s.turns[s.conns[c].active.value].conn == c)
    && (s.claim.Some? ==> s.claim.value in s.turns)
  }

  /** Every running turn holds the row claim; there is then at most one. */
  ghost predicate Guarded(s: Session) {
    forall t :: t in s.turns ==> s.claim == Some(t)
  }

  ghost predicate AtMostOneTurn(s: Session) {
    forall t, u :: t in s.turns && u in s.turns ==> t == u
  }

  /** A reset is quiet when no turn is running. */
  predicate Quiet(s: Session, e: Event) {
    e.Reset? ==> s.turns == map[]
  }

  ghost predicate QuietRun(s: Session, es: seq<Event>)
    decreases |es|
  {
    es == [] || (Enabled(s, es[0]) && Quiet(s, es[0]) && QuietRun(Apply(s, es[0]), es[1..]))
  }

  ghost predicate GuardedThroughout(s: Session, es: seq<Event>)
    requires ValidRun(s, es)
    decreases |es|
  {
    Guarded(s) && (es == [] || GuardedThroughout(Apply(s, es[0]), es[1..]))
  }

  lemma StepKeepsConsistent(s: Session, e: Event)
    requires Consistent(s) && Enabled(s, e)
    ensures Consistent(Apply(s, e))
  {
  }

  /** From a guarded state, a step keeps the guards exactly when it is not a reset during a turn. */
  lemma StepKeepsGuardedIffQuiet(s: Session, e: Event)
    requires Consistent(s) && Guarded(s) && Enabled(s, e)
    ensures Guarded(Apply(s, e)) <==> Quiet(s, e)
  {
    if e.Reset? && s.turns != map[] {
      var t :| t in s.turns;
      assert t in Apply(s, e).turns;
    }
  }

  lemma {:induction false} RunIsGuardedIffQuiet(s: Session, es: seq<Event>)
    requires Consistent(s) && Guarded(s) && ValidRun(s, es)
    ensures GuardedThroughout(s, es) <==> QuietRun(s, es)
    ensures Consistent(After(s, es)) && (QuietRun(s, es) ==> Guarded(After(s, es)))
    decreases |es|
  {
    if es != [] {
      var t := Apply(s, es[0]);
      StepKeepsConsistent(s, es[0]);
      StepKeepsGuardedIffQuiet(s, es[0]);
      if Guarded(t) {
        RunIsGuardedIffQuiet(t, es[1..]);
      } else {
        RunKeepsConsistent(t, es[1..]);
      }
    }
  }

  lemma {:induction false} RunKeepsConsistent(s: Session, es: seq<Event>)
    requires Consistent(s) && ValidRun(s, es)
    ensures Consistent(After(s, es))
    decreases |es|
  {
    if es != [] {
      StepKeepsConsistent(s, es[0]);
      RunKeepsConsistent(Apply(s, es[0]), es[1..]);
    }
  }

  lemma {:induction false} FreshConnection(conns: set<ConnId>) returns (c: ConnId)
    ensures forall d :: d in conns ==> d < c
  {
    if conns == {} {
      c := 0;
    } else {
      var d :| d in conns;
      var e := FreshConnection(conns - {d});
      c := if d < e then e else d + 1;
      assert forall x :: x in conns ==> x == d || x in conns - {d};
    }
  }

  /** Outside the guards, a new connection's prompt is accepted beside the running turn. */
  lemma UnguardedAdmitsSecondTurn(s: Session) returns (es: seq<Event>)
    requires Consistent(s) && !Guarded(s)
    ensures ValidRun(s, es) && QuietRun(s, es) && !AtMostOneTurn(After(s, es))
  {
    var t :| t in s.turns && s.claim != Some(t);
    if s.claim.Some? {
      es := [];
      assert s.claim.value in s.turns;
    } else {
      var c := FreshConnection(s.conns.Keys);
      var s1 := Apply(s, Connect(c));
      var e := Prompt(c, Some("hi"));
      assert "hi"[0] in "hi";
      assert Accepts(s1, c, Some("hi"));
      var s2 := Apply(s1, e);
      assert s.nextTurn in s2.turns && t in s2.turns && t != s.nextTurn;
      es := [Connect(c), e];
      assert es[1..] == [e] && [e][1..] == [];
      assert ValidRun(s2, []) && ValidRun(s1, [e]) && QuietRun(s2, []) && QuietRun(s1, [e]);
      assert After(s2, []) == s2 && After(s1, [e]) == s2 && After(s, es) == s2;
    }
  }

  /** Two turns can never overlap from here on, as long as resets are quiet, exactly when the guards hold. */
  lemma GuardedIffExclusive(s: Session)
    requires Consistent(s)
    ensures Guarded(s) <==> forall es :: ValidRun(s, es) && QuietRun(s, es) ==> AtMostOneTurn(After(s, es))
  {
    if Guarded(s) {
      forall es | ValidRun(s, es) && QuietRun(s, es) ensures AtMostOneTurn(After(s, es)) {
        RunIsGuardedIffQuiet(s, es);
      }
    } else {
      var es := UnguardedAdmitsSecondTurn(s);
    }
  }

  /** In every run whose resets are quiet: one turn at most, and every active id names the claim's turn. */
  lemma ActiveTurnHoldsTheClaim(es: seq<Event>, c: ConnId)
    requires ValidRun(Init(), es) && QuietRun(Init(), es)
    requires c in After(Init(), es).conns && After(Init(), es).conns[c].active.Some?
    ensures var s := After(Init(), es); AtMostOneTurn(s) && s.claim == s.conns[c].active
  {
    RunIsGuardedIffQuiet(Init(), es);
  }

  /** With no assumption on resets: a connection still runs at most one turn of its own. */
  lemma OneTurnPerConnection(es: seq<Event>, t: TurnId, u: TurnId)
    requires ValidRun(Init(), es)
    requires var s := After(Init(), es); t in s.turns && u in s.turns && s.turns[t].conn == s.turns[u].conn
    ensures t == u
  {
    RunKeepsConsistent(Init(), es);
  }

  /** A reset from a second connection during a turn: from start-up, two turns run at once. */
  lemma ResetDuringTurnAdmitsSecond() returns (es: seq<Event>)
    ensures ValidRun(Init(), es) && !AtMostOneTurn(After(Init(), es))
  {
    var text := Some("hi");
    assert "hi"[0] in "hi";
    var s1 := Apply(Init(), Connect(0));
    var s2 := Apply(s1, Prompt(0, text));
    var s3 := Apply(s2, Connect(1));
    var s4 := Apply(s3, Reset(1));
    var s5 := Apply(s4, Prompt(1, text));
    assert 0 in s5.turns && 1 in s5.turns && ValidRun(s5, []);
    Prepend(s4, Prompt(1, text), []);
    Prepend(s3, Reset(1), [Prompt(1, text)] + []);
    Prepend(s2, Connect(1), [Reset(1)] + ([Prompt(1, text)] + []));
    Prepend(s1, Prompt(0, text), [Connect(1)] + ([Reset(1)] + ([Prompt(1, text)] + [])));
    es := [Connect(0)] + ([Prompt(0, text)] + ([Connect(1)] + ([Reset(1)] + ([Prompt(1, text)] + []))));
    Prepend(Init(), Connect(0), es[1..]);
  }
}
