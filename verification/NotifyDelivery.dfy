/** Which callbacks of the notify manager are called, and when the timers are drained. */
module NotifyDelivery {
  import opened Common
  import opened NotifyManager

  /** Whether code throws does not depend on the manager. */
  predicate Throws(cs: seq<Command>)
    decreases cs
  {
    cs != [] && (Throws1(cs[0]) || Throws(cs[1..]))
  }

  predicate Throws1(c: Command)
    decreases c
  {
    match c
    case Schedule(_) => false
    case Batch(body) => Throws(body)
    case Throw => true
    case Attempt(_) => false
  }

  // ------------------------------------------------------------ what a program means

  /** The callbacks that code schedules before it ends or throws, in order. */
  function Made(cs: seq<Command>): seq<Callback>
    decreases cs
  {
    if cs == [] then [] else Made1(cs[0]) + if Throws1(cs[0]) then [] else Made(cs[1..])
  }

  function Made1(c: Command): seq<Callback>
    decreases c
  {
    match c
    case Schedule(cb) => [cb]
    case Batch(body) => Made(body)
    case Throw => []
    case Attempt(body) => Made(body)
  }

  /** The timers of code outside any batch: one for each callback, and one for all of an outermost batch. */
  function Timers(cs: seq<Command>): seq<Timer>
    decreases cs
  {
    if cs == [] then [] else Timers1(cs[0]) + if Throws1(cs[0]) then [] else Timers(cs[1..])
  }

  function Timers1(c: Command): seq<Timer>
    decreases c
  {
    match c
    case Schedule(cb) => [Single(cb)]
    case Batch(body) => if Made(body) == [] then [] else [Flushed(Made(body))]
    case Throw => []
    case Attempt(body) => Timers(body)
  }

  /** `s'` is `s` after code that schedules `made`, for which `timers` are set when no batch is open. */
  ghost predicate Leaves(s: State, s': State, made: seq<Callback>, timers: seq<Timer>) {
    && s'.transactions == s.transactions && s'.fired == s.fired
    && s'.scheduled == s.scheduled + made
    && (if s.transactions > 0 then s'.queue == s.queue + made && s'.timers == s.timers
        else s'.queue == [] && s'.timers == s.timers + timers)
  }

  lemma LeavesTrans(a: State, b: State, c: State, m1: seq<Callback>, m2: seq<Callback>, t1: seq<Timer>, t2: seq<Timer>)
    requires Leaves(a, b, m1, t1) && Leaves(b, c, m2, t2)
    ensures Leaves(a, c, m1 + m2, t1 + t2)
  {
    AppendAssoc(a.scheduled, m1, m2);
    AppendAssoc(a.queue, m1, m2);
    AppendAssoc(a.timers, t1, t2);
  }

  lemma LeavesNothing(s: State)
    requires Rested(s)
    ensures Leaves(s, s, [], [])
  {
    assert s.scheduled + [] == s.scheduled && s.queue + [] == s.queue && s.timers + [] == s.timers;
  }

  /**
   * Whatever the nesting, code does to the manager what its callbacks say: inside a batch they are queued, outside
   * each gets a timer, but those of one outermost batch share one; code after a throw does nothing.
   */
  lemma {:induction false} ProgramMeans(s: State, cs: seq<Command>)
    requires Rested(s)
    ensures Exec(s, cs).1 == Throws(cs)
    ensures Leaves(s, Exec(s, cs).0, Made(cs), Timers(cs))
    decreases cs
  {
    hide Leaves;
    if cs == [] {
      LeavesNothing(s);
    } else {
      CommandMeans(s, cs[0]);
      var s1 := Exec1(s, cs[0]).0;
      if Throws1(cs[0]) {
        assert Made1(cs[0]) + [] == Made1(cs[0]) && Timers1(cs[0]) + [] == Timers1(cs[0]);
      } else {
        Exec1Keeps(s, cs[0]);
        KeptRests(s, s1);
        ProgramMeans(s1, cs[1..]);
        LeavesTrans(s, s1, Exec(s1, cs[1..]).0, Made1(cs[0]), Made(cs[1..]), Timers1(cs[0]), Timers(cs[1..]));
      }
    }
  }

  lemma {:induction false} CommandMeans(s: State, c: Command)
    requires Rested(s)
    ensures Exec1(s, c).1 == Throws1(c)
    ensures Leaves(s, Exec1(s, c).0, Made1(c), Timers1(c))
    decreases c
  {
    match c
    case Schedule(cb) =>
    case Batch(body) =>
      ProgramMeans(s.(transactions := s.transactions + 1), body);
      BatchLeaves(s, Exec(s.(transactions := s.transactions + 1), body).0, Made(body), Timers(body));
    case Throw => LeavesNothing(s);
    case Attempt(body) => ProgramMeans(s, body);
  }

  lemma BatchLeaves(s: State, s1: State, made: seq<Callback>, timers: seq<Timer>)
    requires Rested(s) && Leaves(s.(transactions := s.transactions + 1), s1, made, timers)
    ensures Leaves(s, Leave(s1), made, if made == [] then [] else [Flushed(made)])
  {
    assert [] + made == made && s.timers + [] == s.timers;
  }

  /** What a flush does to its callbacks: called up to and including the first that throws, then dropped. */
  function Taken(cs: seq<Callback>): (r: seq<Fired>)
    ensures |r| == |cs|
  {
    if cs == [] then [] else
      [Fired(cs[0], true, 0)] + if Throws(cs[0].body) then Dropped(cs[1..]) else Taken(cs[1..])
  }

  /** What the called callbacks schedule in turn, and the timers this sets. */
  function MadeBy(cs: seq<Callback>): (seq<Callback>, seq<Timer>) {
    if cs == [] then ([], []) else
      var (made, timers) := if Throws(cs[0].body) then ([], []) else MadeBy(cs[1..]);
      (Made(cs[0].body) + made, Timers(cs[0].body) + timers)
  }

  /**
   * A delivery calls its callbacks in order up to the first that throws and drops the rest; what the called ones
   * schedule, the throwing one included, goes behind the timers there are.
   */
  lemma {:induction false} DeliverCalls(s: State, cs: seq<Callback>)
    requires s.transactions == 0 && s.queue == []
    ensures Deliver(s, cs) == s.(fired := s.fired + Taken(cs), scheduled := s.scheduled + MadeBy(cs).0,
                                 timers := s.timers + MadeBy(cs).1)
    decreases cs
  {
    hide Exec, Throws, Made, Timers;
    if cs == [] {
      assert s.fired + [] == s.fired && s.scheduled + [] == s.scheduled && s.timers + [] == s.timers;
    } else {
      var s0 := s.(fired := s.fired + [Fired(cs[0], true, s.transactions)]);
      var (s1, threw) := Exec(s0, cs[0].body);
      var made, timers := Made(cs[0].body), Timers(cs[0].body);
      ProgramMeans(s0, cs[0].body);
      if threw {
        AppendAssoc(s.fired, [Fired(cs[0], true, 0)], Dropped(cs[1..]));
        assert made + [] == made && timers + [] == timers;
      } else {
        DeliverCalls(s1, cs[1..]);
        AppendAssoc(s.fired, [Fired(cs[0], true, 0)], Taken(cs[1..]));
        AppendAssoc(s.scheduled, made, MadeBy(cs[1..]).0);
        AppendAssoc(s.timers, timers, MadeBy(cs[1..]).1);
      }
    }
  }

  /** A callback of a flush is dropped exactly when one before it in the same flush throws. */
  lemma {:induction false} DroppedIff(cs: seq<Callback>, i: nat)
    requires i < |cs|
    ensures !Taken(cs)[i].called <==> exists j :: 0 <= j < i && Throws(cs[j].body)
  {
    hide Throws;
    if i > 0 {
      if Throws(cs[0].body) {
        DroppedNotCalled(cs[1..]);
        assert Taken(cs)[i] == Dropped(cs[1..])[i - 1];
      } else {
        DroppedIff(cs[1..], i - 1);
        assert Taken(cs)[i] == Taken(cs[1..])[i - 1];
        if j :| 0 <= j < i && Throws(cs[j].body) { assert cs[1..][j - 1] == cs[j]; }
        if j :| 0 <= j < i - 1 && Throws(cs[1..][j].body) { assert cs[j + 1] == cs[1..][j]; }
      }
    }
  }

  /** As long as no scheduled callback throws, every callback taken from a timer has been called. */
  lemma {:induction false} CalledUnlessThrown(ts: seq<Turn>)
    ensures var s := DoTurns(NewManager, ts);
            (exists i :: 0 <= i < |s.fired| && !s.fired[i].called) ==> exists c :: c in s.scheduled && Throws(c.body)
  {
    hide Exec, Deliver, Throws, Taken;
    if ts != [] {
      var front := ts[..|ts| - 1];
      var s := DoTurns(NewManager, front);
      var s' := DoTurns(NewManager, ts);
      CalledUnlessThrown(front);
      ScheduledInOrder(front);
      ScheduledInOrder(ts);
      match ts[|ts| - 1] {
        case Run(program) => ExecKeeps(s, program);
        case Fire =>
          if s.timers != [] {
            FireDrops(s);
          }
      }
    }
  }

  /** A callback dropped by a firing shares its timer with one that throws. */
  lemma FireDrops(s: State)
    requires Conserved(s) && s.timers != []
    ensures var s' := DoTurn(s, Fire);
            && s.scheduled <= s'.scheduled && s.fired <= s'.fired
            && ((exists i :: |s.fired| <= i < |s'.fired| && !s'.fired[i].called)
                   ==> exists c :: c in s.scheduled && Throws(c.body))
  {
    hide *;
    var cs := s.timers[0].Callbacks();
    var s' := DoTurn(s, Fire);
    FireTakesTimer(s);
    if exists i :: |s.fired| <= i < |s'.fired| && !s'.fired[i].called {
      var i :| |s.fired| <= i < |s'.fired| && !s'.fired[i].called;
      DroppedIff(cs, i - |s.fired|);
      var j :| 0 <= j < |cs| && Throws(cs[j].body);
      assert cs[j] in cs && cs[j] in s.scheduled;
    }
  }

  lemma FireTakesTimer(s: State)
    requires Conserved(s) && s.timers != []
    ensures var s', cs := DoTurn(s, Fire), s.timers[0].Callbacks();
            s.scheduled <= s'.scheduled && s'.fired == s.fired + Taken(cs) && forall c :: c in cs ==> c in s.scheduled
  {
    hide Exec, Deliver, Throws, Taken, InTimers, FiredCallbacks;
    var cs := s.timers[0].Callbacks();
    var s0 := s.(timers := s.timers[1..]);
    DeliverCalls(s0, cs);
    InTimersFront(s.timers);
    assert forall c :: c in cs ==> c in InTimers(s.timers);
  }

  function Fires(n: nat): seq<Turn> {
    seq(n, _ => Fire)
  }

  /** Firing as many timers as there are takes everything that was waiting, in order. */
  lemma {:induction false} Drain(s: State, n: nat)
    requires Conserved(s) && n <= |s.timers|
    ensures var s' := DoTurns(s, Fires(n));
            && Conserved(s')
            && FiredCallbacks(s'.fired) == FiredCallbacks(s.fired) + InTimers(s.timers[..n])
            && s.timers[n..] <= s'.timers
  {
    hide Deliver, Taken, InTimers, FiredCallbacks, Conserved, DoTurn;
    if n == 0 {
      NoTimers(s);
      assert s.timers[0..] == s.timers;
    } else {
      var before := DoTurns(s, Fires(n - 1));
      Drain(s, n - 1);
      assert Fires(n)[..n - 1] == Fires(n - 1);
      DrainOne(s, before, n);
    }
  }

  lemma NoTimers(s: State)
    ensures FiredCallbacks(s.fired) == FiredCallbacks(s.fired) + InTimers(s.timers[..0])
  {
  }

  lemma DrainOne(s: State, before: State, n: nat)
    requires Conserved(before) && 0 < n <= |s.timers| && s.timers[n - 1..] <= before.timers
    requires FiredCallbacks(before.fired) == FiredCallbacks(s.fired) + InTimers(s.timers[..n - 1])
    ensures var s' := DoTurn(before, Fire);
            && Conserved(s')
            && FiredCallbacks(s'.fired) == FiredCallbacks(s.fired) + InTimers(s.timers[..n])
            && s.timers[n..] <= s'.timers
  {
    hide DoTurn, FiredCallbacks, Conserved;
    var t := s.timers[n - 1];
    TurnKeeps(before, Fire);
    assert before.timers[0] == s.timers[n - 1..][0] == t;
    FireTakes(before);
    assert s.timers[..n] == s.timers[..n - 1] + [t];
    InTimersStep(s.timers[..n - 1], t);
    AppendAssoc(FiredCallbacks(s.fired), InTimers(s.timers[..n - 1]), t.Callbacks());
    assert s.timers[n..] == s.timers[n - 1..][1..];
    PrefixTail(s.timers[n - 1..], before.timers);
    PrefixTrans(s.timers[n..], before.timers[1..], DoTurn(before, Fire).timers);
  }

  lemma PrefixTail<T>(a: seq<T>, b: seq<T>)
    requires a <= b && a != []
    ensures a[1..] <= b[1..]
  {
    assert a[1..] == b[1..][..|a| - 1];
  }

  lemma PrefixTrans<T>(a: seq<T>, b: seq<T>, c: seq<T>)
    requires a <= b && b <= c
    ensures a <= c
  {
    assert a == c[..|b|][..|a|];
  }

  lemma FireTakes(s: State)
    requires Conserved(s) && s.timers != []
    ensures var s' := DoTurn(s, Fire);
            && FiredCallbacks(s'.fired) == FiredCallbacks(s.fired) + s.timers[0].Callbacks()
            && s.timers[1..] <= s'.timers
  {
    hide Deliver, Taken;
    var cs := s.timers[0].Callbacks();
    var s0 := s.(timers := s.timers[1..]);
    DeliverCalls(s0, cs);
    FiredAppend(s.fired, Taken(cs));
    TakenCallbacks(cs);
  }

  lemma {:induction false} TakenCallbacks(cs: seq<Callback>)
    ensures FiredCallbacks(Taken(cs)) == cs
  {
    hide Throws;
    if cs != [] {
      var f := Fired(cs[0], true, 0);
      FiredStep([], f);
      assert [] + [f] == [f];
      FiredAppend([f], if Throws(cs[0].body) then Dropped(cs[1..]) else Taken(cs[1..]));
      DroppedCallbacks(cs[1..]);
      TakenCallbacks(cs[1..]);
    }
  }
}
