/**
 * The notify manager: callbacks scheduled inside a batch wait for its end, all others get a timer
 * of their own. User code is a tree of commands, so it can nest batches, throw, and schedule again
 * from a delivered callback.
 */
module NotifyManager {
  import opened Common

  datatype Callback = Callback(id: nat, body: seq<Command>)

  datatype Command =
    | Schedule(callback: Callback)
    | Batch(body: seq<Command>)
    | Throw
    | Attempt(body: seq<Command>)      // user code that catches what its body throws

  /** A timer: one callback, or the queue of a batch flushed together. */
  datatype Timer = Single(callback: Callback) | Flushed(callbacks: seq<Callback>) {
    function Callbacks(): seq<Callback> {
      match this
      case Single(c) => [c]
      case Flushed(cs) => cs
    }
  }

  /** A callback taken from its timer: whether it was called, and the batch depth at that moment. */
  datatype Fired = Fired(callback: Callback, called: bool, depth: nat)

  /** `queue`, `transactions` and the runtime's timers; `scheduled` and `fired` record the history. */
  datatype State = State(queue: seq<Callback>, transactions: nat, timers: seq<Timer>, scheduled: seq<Callback>,
        fired: seq<Fired>)

  const NewManager := State([], 0, [], [], [])

  // ------------------------------------------------------------ the reference

  function DoSchedule(s: State, c: Callback): State {
    var s1 := s.(scheduled := s.scheduled + [c]);
    if s.transactions > 0 then s1.(queue := s.queue + [c]) else s1.(timers := s.timers + [Single(c)])
  }

  function DoFlush(s: State): State {
    if s.queue == [] then s else s.(queue := [], timers := s.timers + [Flushed(s.queue)])
  }

  /** The `finally` of a batch. */
  function Leave(s: State): State {
    var s1 := s.(transactions := if s.transactions == 0 then 0 else s.transactions - 1);
    if s1.transactions == 0 then DoFlush(s1) else s1
  }

  /** Running one command: the state it leaves and whether it throws. */
  function Exec1(s: State, c: Command): (State, bool)
    decreases c
  {
    match c
    case Schedule(cb) => (DoSchedule(s, cb), false)
    case Batch(body) =>
      var (s1, threw) := Exec(s.(transactions := s.transactions + 1), body);
      (Leave(s1), threw)
    case Throw => (s, true)
    case Attempt(body) => (Exec(s, body).0, false)
  }

  function Exec(s: State, cs: seq<Command>): (State, bool)
    decreases cs
  {
    if cs == [] then (s, false) else
      var (s1, threw) := Exec1(s, cs[0]);
      if threw then (s1, true) else Exec(s1, cs[1..])
  }

  /** Calling the callbacks of a timer in turn; one that throws ends the loop, the rest is dropped. */
  function Deliver(s: State, cs: seq<Callback>): State
    decreases cs
  {
    if cs == [] then s else
      var (s1, threw) := Exec(s.(fired := s.fired + [Fired(cs[0], true, s.transactions)]), cs[0].body);
      if threw then s1.(fired := s1.fired + Dropped(cs[1..])) else Deliver(s1, cs[1..])
  }

  function Dropped(cs: seq<Callback>): (r: seq<Fired>)
    ensures |r| == |cs|
  {
    if cs == [] then [] else [Fired(cs[0], false, 0)] + Dropped(cs[1..])
  }

  /** One turn of the event loop: user code from outside, or the oldest timer. */
  datatype Turn = Run(program: seq<Command>) | Fire

  function DoTurn(s: State, t: Turn): State {
    match t
    case Run(program) => Exec(s, program).0
    case Fire => if s.timers == [] then s else Deliver(s.(timers := s.timers[1..]), s.timers[0].Callbacks())
  }

  function DoTurns(s: State, ts: seq<Turn>): State {
    if ts == [] then s else DoTurn(DoTurns(s, ts[..|ts| - 1]), ts[|ts| - 1])
  }

  // ------------------------------------------------------------ conservation and order

  function InTimers(ts: seq<Timer>): seq<Callback> {
    if ts == [] then [] else InTimers(ts[..|ts| - 1]) + ts[|ts| - 1].Callbacks()
  }

  function FiredCallbacks(fs: seq<Fired>): seq<Callback> {
    if fs == [] then [] else FiredCallbacks(fs[..|fs| - 1]) + [fs[|fs| - 1].callback]
  }

  lemma InTimersStep(ts: seq<Timer>, t: Timer)
    ensures InTimers(ts + [t]) == InTimers(ts) + t.Callbacks()
  {
    assert (ts + [t])[..|ts|] == ts;
  }

  lemma {:induction false} InTimersFront(ts: seq<Timer>)
    requires ts != []
    ensures InTimers(ts) == ts[0].Callbacks() + InTimers(ts[1..])
  {
    if |ts| == 1 {
      assert ts[..0] == [] && ts[1..] == [];
    } else {
      var n := |ts| - 1;
      InTimersFront(ts[..n]);
      assert ts[..n][1..] == ts[1..][..n - 1];
      assert ts[1..][n - 1] == ts[n] && |ts[1..]| == n;
      AppendAssoc(ts[0].Callbacks(), InTimers(ts[1..][..n - 1]), ts[n].Callbacks());
    }
  }

  lemma FiredStep(fs: seq<Fired>, f: Fired)
    ensures FiredCallbacks(fs + [f]) == FiredCallbacks(fs) + [f.callback]
  {
    assert (fs + [f])[..|fs|] == fs;
  }

  lemma {:induction false} FiredAppend(a: seq<Fired>, b: seq<Fired>)
    ensures FiredCallbacks(a + b) == FiredCallbacks(a) + FiredCallbacks(b)
  {
    if b == [] {
      assert a + b == a;
    } else {
      assert (a + b)[..|a + b| - 1] == a + b[..|b| - 1];
      FiredAppend(a, b[..|b| - 1]);
    }
  }

  lemma {:induction false} DroppedCallbacks(cs: seq<Callback>)
    ensures FiredCallbacks(Dropped(cs)) == cs
  {
    if cs != [] {
      DroppedCallbacks(cs[1..]);
      var f := Fired(cs[0], false, 0);
      FiredAppend([f], Dropped(cs[1..]));
      FiredStep([], f);
      assert [] + [f] == [f];
    }
  }

  /** Nothing waits in the queue once no batch is open. */
  predicate Rested(s: State) {
    s.transactions == 0 ==> s.queue == []
  }

  /** Scheduled but not yet taken from a timer, in the order it will be. */
  function Waiting(s: State): seq<Callback> {
    InTimers(s.timers) + s.queue
  }

  /**
   * Running any user code, thrown out of or not: the batch depth is restored, what it schedules
   * joins the end of what was waiting, in order, and nothing is called meanwhile.
   */
  ghost predicate Kept(s: State, s': State) {
    && s'.transactions == s.transactions && Rested(s')
    && s'.fired == s.fired
    && s.scheduled <= s'.scheduled
    && Waiting(s') == Waiting(s) + s'.scheduled[|s.scheduled|..]
    && (s.transactions > 0 ==> s'.timers == s.timers && s.queue <= s'.queue)
    && s.timers <= s'.timers
  }

  lemma KeptRests(s: State, s': State)
    requires Kept(s, s')
    ensures Rested(s')
  {
  }

  lemma KeptTrans(a: State, b: State, c: State)
    requires Kept(a, b) && Kept(b, c)
    ensures Kept(a, c)
  {
    var n, m := |a.scheduled|, |b.scheduled|;
    assert b.scheduled == c.scheduled[..m];
    assert c.scheduled[n..] == b.scheduled[n..] + c.scheduled[m..];
  }

  lemma ScheduleKeeps(s: State, c: Callback)
    requires Rested(s)
    ensures Kept(s, DoSchedule(s, c))
  {
    if s.transactions == 0 {
      InTimersStep(s.timers, Single(c));
      assert InTimers(s.timers) + [] == InTimers(s.timers);
    }
    assert (s.scheduled + [c])[|s.scheduled|..] == [c];
  }

  lemma LeaveKeeps(s: State, s1: State)
    requires Rested(s) && Kept(s.(transactions := s.transactions + 1), s1)
    ensures Kept(s, Leave(s1))
  {
    if s.transactions == 0 && s1.queue != [] {
      InTimersStep(s1.timers, Flushed(s1.queue));
    }
  }

  lemma {:induction false} ExecKeeps(s: State, cs: seq<Command>)
    requires Rested(s)
    ensures Kept(s, Exec(s, cs).0)
    decreases cs
  {
    if cs == [] {
      assert s.scheduled[|s.scheduled|..] == [];
    } else {
      var (s1, threw) := Exec1(s, cs[0]);
      Exec1Keeps(s, cs[0]);
      if !threw {
        ExecKeeps(s1, cs[1..]);
        KeptTrans(s, s1, Exec(s1, cs[1..]).0);
      }
    }
  }

  lemma {:induction false} Exec1Keeps(s: State, c: Command)
    requires Rested(s)
    ensures Kept(s, Exec1(s, c).0)
    decreases c
  {
    match c
    case Schedule(cb) => ScheduleKeeps(s, cb);
    case Batch(body) =>
      ExecKeeps(s.(transactions := s.transactions + 1), body);
      LeaveKeeps(s, Exec(s.(transactions := s.transactions + 1), body).0);
    case Throw => assert s.scheduled[|s.scheduled|..] == [];
    case Attempt(body) => ExecKeeps(s, body);
  }

  // ------------------------------------------------------------ the event loop

  /** Between turns no batch is open, and every scheduled callback is either taken or waiting, in order. */
  ghost predicate Conserved(s: State) {
    && s.transactions == 0 && s.queue == []
    && FiredCallbacks(s.fired) + InTimers(s.timers) == s.scheduled
    && forall i :: 0 <= i < |s.fired| && s.fired[i].called ==> s.fired[i].depth == 0
  }

  /** The same in the middle of a delivery, `cs` being what the running timer still holds. */
  ghost predicate ConservedWith(s: State, cs: seq<Callback>) {
    && s.transactions == 0 && s.queue == []
    && FiredCallbacks(s.fired) + (cs + InTimers(s.timers)) == s.scheduled
    && forall i :: 0 <= i < |s.fired| && s.fired[i].called ==> s.fired[i].depth == 0
  }

  lemma CallKeeps(s: State, cs: seq<Callback>)
    requires cs != [] && ConservedWith(s, cs)
    ensures ConservedWith(Exec(s.(fired := s.fired + [Fired(cs[0], true, s.transactions)]), cs[0].body).0, cs[1..])
  {
    hide Exec;
    var s0 := s.(fired := s.fired + [Fired(cs[0], true, s.transactions)]);
    var s1 := Exec(s0, cs[0].body).0;
    ExecKeeps(s0, cs[0].body);
    FiredStep(s.fired, Fired(cs[0], true, s.transactions));
    var more := s1.scheduled[|s.scheduled|..];
    assert s1.scheduled == s.scheduled + more;
    assert InTimers(s1.timers) == InTimers(s.timers) + more by {
      assert InTimers(s1.timers) + [] == InTimers(s1.timers);
      assert InTimers(s.timers) + [] == InTimers(s.timers);
    }
    assert cs == [cs[0]] + cs[1..];
    var f, t := FiredCallbacks(s.fired), InTimers(s.timers);
    AppendAssoc(f, [cs[0]], cs[1..] + (t + more));
    AppendAssoc([cs[0]], cs[1..], t + more);
    AppendAssoc(cs, t, more);
    AppendAssoc(f, cs + t, more);
  }

  lemma {:induction false} DeliverKeeps(s: State, cs: seq<Callback>)
    requires ConservedWith(s, cs)
    ensures Conserved(Deliver(s, cs))
    decreases cs
  {
    hide Exec;
    if cs == [] {
      assert [] + InTimers(s.timers) == InTimers(s.timers);
    } else {
      CallKeeps(s, cs);
      var (s1, threw) := Exec(s.(fired := s.fired + [Fired(cs[0], true, s.transactions)]), cs[0].body);
      if threw {
        FiredAppend(s1.fired, Dropped(cs[1..]));
        DroppedCallbacks(cs[1..]);
        DroppedNotCalled(cs[1..]);
        AppendAssoc(FiredCallbacks(s1.fired), cs[1..], InTimers(s1.timers));
      } else {
        DeliverKeeps(s1, cs[1..]);
      }
    }
  }

  lemma {:induction false} DroppedNotCalled(cs: seq<Callback>)
    ensures |Dropped(cs)| == |cs| && forall i :: 0 <= i < |cs| ==> Dropped(cs)[i] == Fired(cs[i], false, 0)
  {
    if cs != [] { DroppedNotCalled(cs[1..]); }
  }

  lemma TurnKeeps(s: State, t: Turn)
    requires Conserved(s)
    ensures Conserved(DoTurn(s, t))
  {
    hide Exec, Deliver;
    match t
    case Run(program) =>
      ExecKeeps(s, program);
      var s1 := Exec(s, program).0;
      var more := s1.scheduled[|s.scheduled|..];
      assert s1.scheduled == s.scheduled + more;
      assert InTimers(s1.timers) + [] == InTimers(s1.timers) && InTimers(s.timers) + [] == InTimers(s.timers);
      AppendAssoc(FiredCallbacks(s.fired), InTimers(s.timers), more);
    case Fire =>
      if s.timers != [] {
        InTimersFront(s.timers);
        DeliverKeeps(s.(timers := s.timers[1..]), s.timers[0].Callbacks());
      }
  }

  /**
   * Over every history: between turns the depth is zero and the queue empty, the callbacks taken
   * from timers and those still waiting are exactly the scheduled ones in the order they were
   * scheduled, and none was called inside an open batch.
   */
  lemma {:induction false} ScheduledInOrder(ts: seq<Turn>)
    ensures Conserved(DoTurns(NewManager, ts))
  {
    hide DoTurn;
    if ts != [] {
      ScheduledInOrder(ts[..|ts| - 1]);
      TurnKeeps(DoTurns(NewManager, ts[..|ts| - 1]), ts[|ts| - 1]);
    }
  }

  // ------------------------------------------------------------ the manager itself

  class Manager {
    var queue: seq<Callback>
    var transactions: nat
    var timers: seq<Timer>
    ghost var scheduled: seq<Callback>
    ghost var fired: seq<Fired>

    ghost function Snapshot(): State
      reads this
    {
      State(queue, transactions, timers, scheduled, fired)
    }

    constructor ()
      ensures Snapshot() == NewManager
    {
      queue, transactions, timers, scheduled, fired := [], 0, [], [], [];
    }

    method Schedule(callback: Callback)
      requires Rested(Snapshot())
      modifies this
      ensures Snapshot() == DoSchedule(old(Snapshot()), callback) && Kept(old(Snapshot()), Snapshot())
    {
      hide Kept;
      ScheduleKeeps(Snapshot(), callback);
      scheduled := scheduled + [callback];
      if transactions > 0 {
        queue := queue + [callback];
      } else {
        timers := timers + [Single(callback)];
      }
    }

    method Flush()
      modifies this
      ensures Snapshot() == DoFlush(old(Snapshot()))
    {
      var originalQueue := queue;
      queue := [];
      if |originalQueue| > 0 {
        timers := timers + [Flushed(originalQueue)];
      }
    }

    /** `batch`: the depth goes down again, and the outermost batch flushes, even when the body throws. */
    method RunBatch(body: seq<Command>) returns (threw: bool)
      requires Rested(Snapshot())
      modifies this
      ensures (Snapshot(), threw) == Exec1(old(Snapshot()), Batch(body)) && Kept(old(Snapshot()), Snapshot())
      decreases body, 1
    {
      hide Kept;
      Exec1Keeps(Snapshot(), Batch(body));
      transactions := transactions + 1;
      threw := RunAll(body);
      transactions := if transactions == 0 then 0 else transactions - 1;
      if transactions == 0 { Flush(); }
    }

    method RunAll(cs: seq<Command>) returns (threw: bool)
      requires Rested(Snapshot())
      modifies this
      ensures (Snapshot(), threw) == Exec(old(Snapshot()), cs) && Kept(old(Snapshot()), Snapshot())
                && Rested(Snapshot())
      decreases cs, 0
    {
      hide Kept;
      ExecKeeps(Snapshot(), cs);
      KeptRests(Snapshot(), Exec(Snapshot(), cs).0);
      if cs == [] { return false; }
      Exec1Keeps(Snapshot(), cs[0]);
      KeptRests(Snapshot(), Exec1(Snapshot(), cs[0]).0);
      match cs[0] {
        case Schedule(callback) => Schedule(callback); threw := false;
        case Batch(body) => threw := RunBatch(body);
        case Throw => threw := true;
        case Attempt(body) => var caught := RunAll(body); threw := false;
      }
      if !threw { threw := RunAll(cs[1..]); }
    }
  }
}
