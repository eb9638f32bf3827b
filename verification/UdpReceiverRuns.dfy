/** What every interleaving of the UDP receiver keeps, and why Stop returns. */
module UdpReceiverRuns {
  import opened Bytes
  import opened Sums
  import opened UdpReceiver

  // ---------- invariant ----------

  function GaveUpOne(t: Socket): nat
  {
    if t.at.GaveUp? then 1 else 0
  }

  /** This session has abandoned one packet for each receiver that returned through the stop branch. */
  predicate Counted(cfg: Config, s: State)
  {
    if s.phase == Idle then s.before <= |s.abandoned| <= s.before + cfg.sockets
    else |s.abandoned| == s.before + Sum(GaveUpOne, s.sockets)
  }

  lemma CountedMoved(cfg: Config, s: State, s': State, i: nat, at: Receiver)
    requires Counted(cfg, s) && s.phase != Idle && i < |s.sockets| && !s.sockets[i].at.GaveUp?
    requires s'.sockets == Move(s, i, at).sockets && s'.phase == s.phase && s'.before == s.before
    requires |s'.abandoned| == |s.abandoned| + (if at.GaveUp? then 1 else 0)
    ensures Counted(cfg, s')
  {
    hide Sum;
    SumUpdate(GaveUpOne, s.sockets, i, s'.sockets[i]);
  }

  lemma CountedCaller(cfg: Config, s: State, l: Label)
    requires cfg.workers >= 1 && Control(cfg, s) && Counted(cfg, s) && Enabled(cfg, s, l) && !IsReceivers(l)
             && !IsWorkers(l)
    ensures Counted(cfg, Apply(cfg, s, l))
  {
    hide Sum, CanSend, Cell;
    match l {
      case Start => SumAtMost(GaveUpOne, [], 0);
      case OpenSocket => SumAppend(GaveUpOne, s.sockets, Socket(Ready, false));
      case StopReturns => SumAtMost(GaveUpOne, s.sockets, 1);
      case CloseConn(i) => SumUpdate(GaveUpOne, s.sockets, i, Socket(s.sockets[i].at, true));
      case _ =>
    }
  }

  lemma CountedWorker(cfg: Config, s: State, l: Label)
    requires cfg.workers >= 1 && Control(cfg, s) && Counted(cfg, s) && Enabled(cfg, s, l) && IsWorkers(l)
    ensures Counted(cfg, Apply(cfg, s, l))
  {
    hide Sum, CanSend, Cell;
    if l.Hand? { CountedMoved(cfg, s, Apply(cfg, s, l), l.i, Ready); }
  }

  lemma CountedKept(cfg: Config, s: State, l: Label)
    requires cfg.workers >= 1 && Control(cfg, s) && Counted(cfg, s) && Enabled(cfg, s, l)
    ensures Counted(cfg, Apply(cfg, s, l))
  {
    hide Counted, Enabled, Apply, Move, IsWorkers;
    if IsReceivers(l) {
      ReceiverShape(cfg, s, l);
      CountedMoved(cfg, s, Apply(cfg, s, l), l.i, Target(s, l));
    } else if IsWorkers(l) {
      CountedWorker(cfg, s, l);
    } else {
      CountedCaller(cfg, s, l);
    }
  }

  ghost predicate Inv(cfg: Config, s: State)
  {
    Control(cfg, s) && Exclusive(s) && Balanced(s) && Counted(cfg, s)
  }

  lemma InitInv(cfg: Config)
    requires cfg.sockets >= 1
    ensures Inv(cfg, Init())
  {
  }

  lemma InvKept(cfg: Config, s: State, l: Label)
    requires cfg.workers >= 1 && cfg.sockets >= 1 && Inv(cfg, s) && Enabled(cfg, s, l)
    ensures Inv(cfg, Apply(cfg, s, l))
  {
    hide Control, Counted, Enabled, Apply, Refs, InFlight, Settled;
    var s' := Apply(cfg, s, l);
    ControlKept(cfg, s, l);
    CountedKept(cfg, s, l);
    forall b: Buf ensures Refs(s', b) <= if b < s'.next then 1 else 0 {
      StepConserves(cfg, s, l, b, []);
    }
    forall p: bytes ensures s'.nonempty[p] == InFlight(s', p) + Settled(s', p) {
      StepConserves(cfg, s, l, 0, p);
    }
  }

  // ---------- runs ----------

  predicate IsRun(cfg: Config, s: State, run: seq<Label>)
    requires cfg.workers >= 1
    decreases |run|
  {
    run == [] || (Enabled(cfg, s, run[0]) && IsRun(cfg, Apply(cfg, s, run[0]), run[1..]))
  }

  function Reach(cfg: Config, s: State, run: seq<Label>): State
    requires cfg.workers >= 1 && IsRun(cfg, s, run)
    decreases |run|
  {
    if run == [] then s else Reach(cfg, Apply(cfg, s, run[0]), run[1..])
  }

  lemma {:induction false} RunKeeps(cfg: Config, s: State, run: seq<Label>)
    requires cfg.workers >= 1 && cfg.sockets >= 1 && Inv(cfg, s) && IsRun(cfg, s, run)
    ensures Inv(cfg, Reach(cfg, s, run))
    decreases |run|
  {
    hide Inv, Enabled, Apply;
    if run != [] {
      InvKept(cfg, s, run[0]);
      RunKeeps(cfg, Apply(cfg, s, run[0]), run[1..]);
    }
  }

  /**
   * Every interleaving: no send on a closed channel and no double close, one holder per buffer, and every packet
   * read is still on its way, handled, dropped or abandoned with the content it was read with. Whenever Stop has
   * returned none is on its way and the session abandoned at most one per socket; blocking receivers drop none.
   */
  lemma EveryPacketAccountedFor(given: Option<Config>, run: seq<Label>)
    requires IsRun(Normalize(given), Init(), run)
    ensures var cfg := Normalize(given);
            var s := Reach(cfg, Init(), run);
            && !s.panicked
            && (forall b: Buf :: Refs(s, b) <= 1)
            && (forall p: bytes :: s.nonempty[p] == InFlight(s, p) + Settled(s, p))
            && (s.phase == Idle ==> s.nonempty == s.handled + s.dropped + s.abandoned)
            && (s.phase == Idle ==> s.before <= |s.abandoned| <= s.before + cfg.sockets)
            && (cfg.blocking ==> s.dropped == multiset{})
  {
    hide Reach, IsRun, Refs;
    var cfg := Normalize(given);
    InitInv(cfg);
    RunKeeps(cfg, Init(), run);
    var s := Reach(cfg, Init(), run);
    if s.phase == Idle {
      forall p: bytes ensures InFlight(s, p) == 0 {
        NothingHeld(s.memory, [], [], 0, p);
      }
    }
  }

  lemma {:induction false} RunSplits(cfg: Config, s: State, run: seq<Label>, i: nat)
    requires cfg.workers >= 1 && IsRun(cfg, s, run) && i < |run|
    ensures IsRun(cfg, s, run[..i]) && Enabled(cfg, Reach(cfg, s, run[..i]), run[i])
    decreases i
  {
    hide Enabled, Apply;
    if i > 0 {
      RunSplits(cfg, Apply(cfg, s, run[0]), run[1..], i - 1);
      assert run[..i][1..] == run[1..][..i - 1];
    }
  }

  /**
   * In every run a packet is dropped only by a non-blocking receiver that has not been told to stop, while the open
   * dispatch channel has no room: as many packets wait in it as it holds, and with none held no worker is waiting.
   */
  lemma DropsOnlyWhenFull(given: Option<Config>, run: seq<Label>, i: nat)
    requires IsRun(Normalize(given), Init(), run) && i < |run| && run[i].Drop?
    ensures var cfg := Normalize(given);
            IsRun(cfg, Init(), run[..i])
            && var s := Reach(cfg, Init(), run[..i]);
            && !cfg.blocking && (s.phase == Starting || s.phase == Started)
            && |s.queue| == cfg.queueSize
            && (cfg.queueSize == 0 ==> forall j :: 0 <= j < |s.workers| ==> !s.workers[j].Parked?)
  {
    hide Reach, IsRun, Exclusive, Balanced, Counted;
    var cfg := Normalize(given);
    InitInv(cfg);
    RunSplits(cfg, Init(), run, i);
    RunKeeps(cfg, Init(), run[..i]);
  }

  // ---------- order ----------

  /** What a step puts in the channel, and what it takes out of it. */
  function In(s: State, l: Label): seq<Buf>
  {
    if l.Send? && l.i < |s.sockets| && s.sockets[l.i].at.Sending? then [s.sockets[l.i].at.buf] else []
  }

  function Out(s': State, l: Label): seq<Buf>
  {
    if l.Take? && l.j < |s'.workers| && s'.workers[l.j].Handling? then [s'.workers[l.j].buf] else []
  }

  /** The buffers put in the dispatch channel, and those taken out of it, in the order of a run. */
  function Sent(cfg: Config, s: State, run: seq<Label>): seq<Buf>
    requires cfg.workers >= 1 && IsRun(cfg, s, run)
    decreases |run|
  {
    if run == [] then [] else In(s, run[0]) + Sent(cfg, Apply(cfg, s, run[0]), run[1..])
  }

  function Taken(cfg: Config, s: State, run: seq<Label>): seq<Buf>
    requires cfg.workers >= 1 && IsRun(cfg, s, run)
    decreases |run|
  {
    if run == [] then []
    else
      var s' := Apply(cfg, s, run[0]);
      Out(s', run[0]) + Taken(cfg, s', run[1..])
  }

  lemma QueueTaken(cfg: Config, s: State, l: Label)
    requires cfg.workers >= 1 && Enabled(cfg, s, l) && l.Take?
    ensures s.queue != [] && Out(Apply(cfg, s, l), l) == [s.queue[0]] && Apply(cfg, s, l).queue == s.queue[1..]
  {
    hide CanSend, Cell, Move;
  }

  lemma QueueSent(cfg: Config, s: State, l: Label)
    requires cfg.workers >= 1 && Enabled(cfg, s, l) && l.Send?
    ensures Apply(cfg, s, l).queue == s.queue + In(s, l)
  {
    hide CanSend, Cell, Turn;
  }

  lemma QueueStays(cfg: Config, s: State, l: Label)
    requires cfg.workers >= 1 && Enabled(cfg, s, l) && l != StopReturns && !l.Take? && !l.Send?
    ensures Apply(cfg, s, l).queue == s.queue
  {
    hide CanSend, Cell;
  }

  lemma StopLeavesNone(cfg: Config, s: State)
    requires cfg.workers >= 1 && Control(cfg, s) && Enabled(cfg, s, StopReturns)
    ensures s.queue == [] && Apply(cfg, s, StopReturns).queue == []
  {
    hide CanSend;
    assert s.workers[0].Done?;
  }

  lemma StepKeepsOrder(cfg: Config, s: State, l: Label)
    requires cfg.workers >= 1 && Control(cfg, s) && Enabled(cfg, s, l)
    ensures s.queue + In(s, l) == Out(Apply(cfg, s, l), l) + Apply(cfg, s, l).queue
  {
    hide Control, Enabled, Apply;
    if l == StopReturns {
      StopLeavesNone(cfg, s);
    } else {
      if l.Take? { QueueTaken(cfg, s, l); } else if l.Send? { QueueSent(cfg, s, l); } else { QueueStays(cfg, s, l); }
      Empty(s.queue);
      Empty(Apply(cfg, s, l).queue);
    }
  }

  lemma {:induction false} QueueKeepsOrder(cfg: Config, s: State, run: seq<Label>)
    requires cfg.workers >= 1 && cfg.sockets >= 1 && Inv(cfg, s) && IsRun(cfg, s, run)
    ensures s.queue + Sent(cfg, s, run) == Taken(cfg, s, run) + Reach(cfg, s, run).queue
    decreases |run|
  {
    hide Control, Exclusive, Balanced, Counted, Enabled, Apply, In, Out;
    if run == [] {
      Empty(s.queue);
    } else {
      var l, s' := run[0], Apply(cfg, s, run[0]);
      InvKept(cfg, s, l);
      StepKeepsOrder(cfg, s, l);
      QueueKeepsOrder(cfg, s', run[1..]);
      Assoc(s.queue, In(s, l), Sent(cfg, s', run[1..]));
      Assoc(Out(s', l), s'.queue, Sent(cfg, s', run[1..]));
      Assoc(Out(s', l), Taken(cfg, s', run[1..]), Reach(cfg, s, run).queue);
    }
  }

  /** Workers take packets in the order the receivers put them in the channel; those not taken still wait, in order. */
  lemma FirstInFirstOut(given: Option<Config>, run: seq<Label>)
    requires IsRun(Normalize(given), Init(), run)
    ensures var cfg := Normalize(given);
            Sent(cfg, Init(), run) == Taken(cfg, Init(), run) + Reach(cfg, Init(), run).queue
  {
    hide Inv, IsRun, Reach, Sent, Taken;
    var cfg := Normalize(given);
    InitInv(cfg);
    QueueKeepsOrder(cfg, Init(), run);
    Empty(Sent(cfg, Init(), run));
  }

  // ---------- stopping ----------

  function ReceiverWork(t: Socket): nat
  {
    match t.at
    case Ready => 2
    case Reading(_) => 1
    case Sending(_) => 6
    case Exited => 0
    case GaveUp => 0
  }

  function WorkerWork(w: Worker): nat
  {
    match w
    case Running => 2
    case Parked => 1
    case Handling(_) => 3
    case Done => 0
  }

  /** An upper bound on the steps left before Stop returns. */
  function Work(s: State): nat
  {
    Sum(ReceiverWork, s.sockets) + 3 * |s.queue| + Sum(WorkerWork, s.workers)
    + (match s.phase case Stopping => 2 case Draining => 1 case _ => 0)
  }

  predicate AllClosed(s: State)
  {
    forall i :: 0 <= i < |s.sockets| ==> s.sockets[i].closed
  }

  lemma WorkMoved(s: State, s': State, i: nat, at: Receiver)
    requires AllClosed(s) && i < |s.sockets| && s'.sockets == Move(s, i, at).sockets
    ensures Sum(ReceiverWork, s'.sockets) + ReceiverWork(s.sockets[i])
            == Sum(ReceiverWork, s.sockets) + ReceiverWork(Socket(at, true))
    ensures AllClosed(s')
  {
    hide Sum;
    SumUpdate(ReceiverWork, s.sockets, i, s'.sockets[i]);
  }

  lemma WorkFallsReceiver(cfg: Config, s: State, l: Label)
    requires cfg.workers >= 1 && s.stopClosed && AllClosed(s) && Enabled(cfg, s, l) && IsReceivers(l)
    ensures Work(Apply(cfg, s, l)) < Work(s) && AllClosed(Apply(cfg, s, l))
  {
    hide Sum, Enabled, Apply, Move;
    ReceiverShape(cfg, s, l);
    WorkMoved(s, Apply(cfg, s, l), l.i, Target(s, l));
  }

  lemma WorkFallsWorker(cfg: Config, s: State, l: Label)
    requires cfg.workers >= 1 && AllClosed(s) && Enabled(cfg, s, l) && IsWorkers(l)
    ensures Work(Apply(cfg, s, l)) < Work(s) && AllClosed(Apply(cfg, s, l))
  {
    hide Sum, CanSend, Cell, Returned;
    var s' := Apply(cfg, s, l);
    SumUpdate(WorkerWork, s.workers, l.j, s'.workers[l.j]);
    if l.Hand? { WorkMoved(s, s', l.i, Ready); }
  }

  /** With every connection closed, each step brings Stop closer to its return. */
  lemma WorkFalls(cfg: Config, s: State, l: Label)
    requires cfg.workers >= 1 && Control(cfg, s) && s.stopClosed && AllClosed(s) && Enabled(cfg, s, l)
    ensures Work(Apply(cfg, s, l)) < Work(s) && AllClosed(Apply(cfg, s, l))
  {
    hide Sum, CanSend, Cell, Move, Turn;
    if IsReceivers(l) {
      WorkFallsReceiver(cfg, s, l);
    } else if IsWorkers(l) {
      WorkFallsWorker(cfg, s, l);
    } else {
      SumAtMost(ReceiverWork, [], 0);
      SumAtMost(WorkerWork, [], 0);
    }
  }

  /** Between the close of the stop channel and the return of Stop something can always move. */
  lemma NeverStuck(cfg: Config, s: State) returns (l: Label)
    requires cfg.workers >= 1 && Control(cfg, s) && s.stopClosed
    ensures Enabled(cfg, s, l)
    ensures l.CloseConn? <==> !AllClosed(s)
  {
    hide CanSend;
    if i: nat :| i < |s.sockets| && !s.sockets[i].closed {
      l := CloseConn(i);
    } else if i: nat :| i < |s.sockets| && !Returned(s.sockets[i].at) {
      match s.sockets[i].at {
        case Ready => l := FetchNew(i);
        case Reading(_) => l := ReadError(i);
        case _ => l := GiveUp(i);
      }
    } else if s.phase == Stopping {
      l := CloseDispatch;
    } else if j: nat :| j < |s.workers| && !s.workers[j].Done? {
      match s.workers[j] {
        case Running => l := Park(j);
        case Handling(_) => l := Finish(j);
        case _ => l := if s.queue == [] then WorkerReturns(j) else Take(j);
      }
    } else {
      l := StopReturns;
    }
  }

  /** Once the connections are closed, a run that has not yet left Stop has at most `Work` steps. */
  lemma {:induction false} StopIsBounded(cfg: Config, s: State, run: seq<Label>)
    requires cfg.workers >= 1 && cfg.sockets >= 1 && Inv(cfg, s) && s.stopClosed && AllClosed(s) && IsRun(cfg, s, run)
    requires StopReturns !in run
    ensures |run| <= Work(s) && Reach(cfg, s, run).stopClosed && AllClosed(Reach(cfg, s, run))
    decreases |run|
  {
    hide Work, AllClosed, Control, Exclusive, Balanced, Counted;
    if run != [] {
      var s' := Apply(cfg, s, run[0]);
      InvKept(cfg, s, run[0]);
      WorkFalls(cfg, s, run[0]);
      StillStopping(cfg, s, run[0]);
      StopIsBounded(cfg, s', run[1..]);
    }
  }

  lemma StillStopping(cfg: Config, s: State, l: Label)
    requires cfg.workers >= 1 && Control(cfg, s) && s.stopClosed && Enabled(cfg, s, l) && l != StopReturns
    ensures Apply(cfg, s, l).stopClosed
  {
  }
}
