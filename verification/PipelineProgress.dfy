/** Once the sources have stopped, the pipeline winds up: something can move, and it cannot move for ever. */
module PipelineProgress {
  import opened Sums
  import opened Pipeline
  import opened PipelineRuns

  // ---------- something can move ----------

  /** How far a stage is from the end of the pipeline. */
  function Rank(st: Stage): nat
  {
    match st
    case Decoding => 4
    case Processing => 3
    case Routing => 2
    case Aggregating(_) => 1
    case Encoding => 0
  }

  ghost predicate Buffered(cfg: Config)
  {
    forall c :: cfg.cap(c) > 0
  }

  lemma Downstream(cfg: Config, s: State, st: Stage, c: Chan) returns (k: nat)
    requires Crew(cfg, s) && MaySend(cfg, st, c)
    ensures k < |s.workers| && s.workers[k].stage == StageOf(c)
    ensures Input(StageOf(c)) == c && Rank(StageOf(c)) < Rank(st)
  {
    assert Staffed(s, StageOf(c));
    k :| k < |s.workers| && s.workers[k].stage == StageOf(c);
  }

  /** A worker with something to do can do it, or someone further on can make room. */
  lemma {:induction false} SomeoneMoves(cfg: Config, s: State, j: nat) returns (l: Label)
    requires Control(cfg, s) && Buffered(cfg) && j < |s.workers| && !s.workers[j].hand.Returned?
    requires s.workers[j].hand.Waiting? ==>
               Q(s, Input(s.workers[j].stage)) != [] || Input(s.workers[j].stage) in s.closed
    ensures Enabled(cfg, s, l) && !l.Tick?
    decreases Rank(s.workers[j].stage)
  {
    hide Crew, OnTime, ClosedInOrder, Q, Input, MaySend, RouteOf;
    var Worker(st, h) := s.workers[j];
    if h.Waiting? {
      if Q(s, Input(st)) != [] {
        l := Take(j, if st.Routing? then Passed(RouteOf(cfg, Q(s, Input(st))[0])) else Logged);
      } else {
        l := BeginClose(j, []);
      }
    } else if Outbox(h) == [] {
      l := if h.Busy? then Settle(j) else if st.Routing? && h.next < cfg.aggregators then CloseAgg(j) else Return(j);
    } else {
      var c := Outbox(h)[0].chan;
      if Room(cfg, s, c) {
        l := Send(j);
      } else {
        assert MaySend(cfg, st, c);
        var k := Downstream(cfg, s, st, c);
        l := SomeoneMoves(cfg, s, k);
      }
    }
  }

  lemma StageMoves(cfg: Config, s: State, j: nat) returns (l: Label)
    requires Control(cfg, s) && Buffered(cfg) && j < |s.workers| && !s.workers[j].hand.Returned?
    requires Input(s.workers[j].stage) in s.closed
    ensures Enabled(cfg, s, l) && !l.Tick?
  {
    hide Control, Enabled;
    l := SomeoneMoves(cfg, s, j);
  }

  lemma AggregatorsClosed(cfg: Config, s: State, i: nat)
    requires Control(cfg, s) && s.pc >= 5 && i < cfg.aggregators
    ensures CAgg(i) in s.closed
  {
    hide Drained, Addressed;
    assert Staffed(s, Routing);
    var j :| 0 <= j < |s.workers| && s.workers[j].stage == Routing;
  }

  lemma AggregatorIndex(cfg: Config, s: State, j: nat)
    requires Crew(cfg, s) && j < |s.workers| && s.workers[j].stage.Aggregating?
    ensures s.workers[j].stage.i < cfg.aggregators
  {
    hide Staffed;
  }

  predicate Late(s: State, j: nat)
  {
    j < |s.workers| && !s.workers[j].hand.Returned? && Deadline(s.workers[j].stage) == s.pc
  }

  /** The stage the caller waits for reads from a channel that is closed. */
  lemma LateMoves(cfg: Config, s: State, j: nat) returns (l: Label)
    requires Control(cfg, s) && Buffered(cfg) && Late(s, j)
    ensures Enabled(cfg, s, l) && !l.Tick?
  {
    hide Crew, OnTime, Drained, Addressed, RouterCloses, Enabled, Buffered;
    if s.workers[j].stage.Aggregating? {
      AggregatorIndex(cfg, s, j);
      AggregatorsClosed(cfg, s, s.workers[j].stage.i);
    }
    if s.workers[j].stage.Routing? && cfg.aggregators == 0 { NoAggregation(cfg, s, j); }
    l := StageMoves(cfg, s, j);
  }

  /** Once the sources have stopped, something other than a timer can move until everything is done. */
  lemma DrainNeverBlocks(cfg: Config, s: State) returns (l: Label)
    requires Control(cfg, s) && Buffered(cfg) && 1 <= s.pc < 7
    ensures Enabled(cfg, s, l) && !l.Tick?
  {
    hide Crew, OnTime, Drained, Addressed, RouterCloses, Buffered;
    if j: nat :| Late(s, j) {
      l := LateMoves(cfg, s, j);
    } else {
      assert forall j: nat :: j < |s.workers| && Deadline(s.workers[j].stage) == s.pc ==>
                                Late(s, j) || s.workers[j].hand.Returned?;
      l := match s.pc
           case 1 => CloseDecode
           case 2 => CloseProcess
           case 3 => if cfg.aggregators > 0 then CloseRoute else CloseEncode
           case 4 => RouterGone
           case 5 => CloseEncode
           case _ => AllDone;
    }
  }

  // ---------- and not for ever ----------

  function Active(r: nat): Worker -> nat
  {
    (w: Worker) => if Rank(w.stage) == r && !WindsUp(w.hand) then 1 else 0
  }

  function Weight(n: nat, h: Hand): nat
  {
    match h
    case Waiting => 1
    case Busy(o) => 2 + |o|
    case Closing(o, next) => 1 + |o| + (if next < n then n - next else 0)
    case Returned => 0
  }

  function Work(n: nat, r: nat): Worker -> nat
  {
    (w: Worker) => if Rank(w.stage) == r then Weight(n, w.hand) else 0
  }

  function AggregatorQueues(s: State, n: nat): nat
  {
    if n == 0 then 0 else AggregatorQueues(s, n - 1) + |Q(s, CAgg(n - 1))|
  }

  function Queued(cfg: Config, s: State, r: nat): nat
  {
    match r
    case 4 => |Q(s, CDecode)|
    case 3 => |Q(s, CProcess)|
    case 2 => |Q(s, CRoute)|
    case 1 => AggregatorQueues(s, cfg.aggregators)
    case _ => |Q(s, CEncode)|
  }

  /** What the stages of one rank still have to do. */
  datatype Load = Load(active: nat, queued: nat, work: nat)

  function LoadOf(cfg: Config, s: State, r: nat): Load
  {
    Load(Sum(Active(r), s.workers), Queued(cfg, s, r), Sum(Work(cfg.aggregators, r), s.workers))
  }

  predicate Less(a: Load, b: Load)
  {
    a.active < b.active || (a.active == b.active && (a.queued < b.queued || (a.queued == b.queued && a.work < b.work)))
  }

  /** The caller got further, or some stage has less to do and those before it as much as they had. */
  ghost predicate Lower(cfg: Config, s': State, s: State)
  {
    s'.pc > s.pc || (s'.pc == s.pc && exists r: nat :: LowerAt(cfg, s', s, r))
  }

  predicate LowerAt(cfg: Config, s': State, s: State, r: nat)
  {
    r <= 4 && Less(LoadOf(cfg, s', r), LoadOf(cfg, s, r)) &&
    forall q :: r < q <= 4 ==> LoadOf(cfg, s', q) == LoadOf(cfg, s, q)
  }

  lemma {:induction false} QueuesSame(s: State, s': State, n: nat)
    requires forall i: nat :: Q(s', CAgg(i)) == Q(s, CAgg(i))
    ensures AggregatorQueues(s', n) == AggregatorQueues(s, n)
  {
    hide Q;
    if n > 0 { QueuesSame(s, s', n - 1); }
  }

  lemma {:induction false} QueuesLess(s: State, s': State, n: nat, k: nat)
    requires forall i: nat :: i != k ==> Q(s', CAgg(i)) == Q(s, CAgg(i))
    requires |Q(s', CAgg(k))| + 1 == |Q(s, CAgg(k))|
    ensures AggregatorQueues(s', n) + (if k < n then 1 else 0) == AggregatorQueues(s, n)
  {
    hide Q;
    if n > 0 { QueuesLess(s, s', n - 1, k); }
  }

  lemma QueuedSame(cfg: Config, s: State, s': State, r: nat)
    requires r <= 4 && forall c :: Rank(StageOf(c)) == r ==> Q(s', c) == Q(s, c)
    ensures Queued(cfg, s', r) == Queued(cfg, s, r)
  {
    hide Q, AggregatorQueues;
    if r == 1 { QueuesSame(s, s', cfg.aggregators); }
  }

  lemma WorkerSums(cfg: Config, s: State, s': State, l: Label, r: nat)
    requires IsWorker(l) && l.j < |s.workers|
    requires s'.workers == s.workers[l.j := Worker(s.workers[l.j].stage, NewHand(s, l))]
    ensures Sum(Active(r), s'.workers) + Active(r)(s.workers[l.j])
            == Sum(Active(r), s.workers) + Active(r)(Worker(s.workers[l.j].stage, NewHand(s, l)))
    ensures Sum(Work(cfg.aggregators, r), s'.workers) + Work(cfg.aggregators, r)(s.workers[l.j])
            == Sum(Work(cfg.aggregators, r), s.workers)
               + Work(cfg.aggregators, r)(Worker(s.workers[l.j].stage, NewHand(s, l)))
  {
    hide Sum, NewHand, Active, Work;
    var w := Worker(s.workers[l.j].stage, NewHand(s, l));
    SumUpdate(Active(r), s.workers, l.j, w);
    SumUpdate(Work(cfg.aggregators, r), s.workers, l.j, w);
  }

  /** What a step does to its worker's hand. */
  lemma HandLess(cfg: Config, s: State, l: Label)
    requires IsWorker(l) && !l.Tick? && WorkerEnabled(cfg, s, l)
    ensures WindsUp(NewHand(s, l)) <==> WindsUp(s.workers[l.j].hand) || l.BeginClose?
    ensures l.BeginClose? ==> !WindsUp(s.workers[l.j].hand)
    ensures !l.Take? && !l.BeginClose? ==>
              Weight(cfg.aggregators, NewHand(s, l)) < Weight(cfg.aggregators, s.workers[l.j].hand)
  {
    hide Outputs, Room, Lawful, Q;
  }

  /** A worker's step leaves the queues of its own stage alone, or takes from them. */
  lemma QueuesAfter(cfg: Config, s: State, l: Label, c: Chan)
    requires Control(cfg, s) && IsWorker(l) && WorkerEnabled(cfg, s, l)
             && Rank(StageOf(c)) >= Rank(s.workers[l.j].stage)
    ensures var s' := WorkerStep(cfg, s, l);
            if l.Take? && c == Input(s.workers[l.j].stage) then |Q(s', c)| + 1 == |Q(s, c)| else Q(s', c) == Q(s, c)
  {
    hide Crew, OnTime, ClosedInOrder, Drained, WorkerStep, Q, Room, Lawful;
    WorkerQueues(cfg, s, l, c);
    if l.Send? { assert MaySend(cfg, s.workers[l.j].stage, Outbox(s.workers[l.j].hand)[0].chan); }
  }

  lemma QueuedAfter(cfg: Config, s: State, l: Label, r: nat)
    requires Control(cfg, s) && IsWorker(l) && WorkerEnabled(cfg, s, l) && Rank(s.workers[l.j].stage) <= r <= 4
    ensures var s' := WorkerStep(cfg, s, l);
            if l.Take? && r == Rank(s.workers[l.j].stage) then Queued(cfg, s', r) + 1 == Queued(cfg, s, r)
            else Queued(cfg, s', r) == Queued(cfg, s, r)
  {
    hide Control, WorkerStep, WorkerEnabled, Q, AggregatorQueues;
    EnabledWorker(cfg, s, l);
    var s', st := WorkerStep(cfg, s, l), s.workers[l.j].stage;
    forall c | Rank(StageOf(c)) == r
      ensures if l.Take? && c == Input(st) then |Q(s', c)| + 1 == |Q(s, c)| else Q(s', c) == Q(s, c)
    {
      QueuesAfter(cfg, s, l, c);
    }
    if !l.Take? || r != Rank(st) {
      QueuedSame(cfg, s, s', r);
    } else if r == 1 {
      AggregatorHere(cfg, s, l.j);
      QueuesLess(s, s', cfg.aggregators, st.i);
    } else {
      assert Rank(StageOf(Input(st))) == r;
    }
  }

  lemma AggregatorHere(cfg: Config, s: State, j: nat)
    requires Control(cfg, s) && j < |s.workers| && s.workers[j].stage.Aggregating?
    ensures s.workers[j].stage.i < cfg.aggregators
  {
    hide Crew, OnTime, ClosedInOrder, Drained, Addressed;
    AggregatorIndex(cfg, s, j);
  }

  lemma WorkerLowers(cfg: Config, s: State, l: Label)
    requires Control(cfg, s) && IsWorker(l) && !l.Tick? && WorkerEnabled(cfg, s, l)
    ensures LowerAt(cfg, WorkerStep(cfg, s, l), s, Rank(s.workers[l.j].stage))
  {
    hide Control, WorkerStep, WorkerEnabled, NewHand, Weight, WindsUp, Queued, Sum, SameStages;
    EnabledWorker(cfg, s, l);
    var s', r := WorkerStep(cfg, s, l), Rank(s.workers[l.j].stage);
    WorkerShape(cfg, s, l);
    HandLess(cfg, s, l);
    QueuedAfter(cfg, s, l, r);
    WorkerSums(cfg, s, s', l, r);
    forall q | r < q <= 4 ensures LoadOf(cfg, s', q) == LoadOf(cfg, s, q) {
      WorkerSums(cfg, s, s', l, q);
      QueuedAfter(cfg, s, l, q);
    }
  }

  lemma CallerAdvances(cfg: Config, s: State, l: Label)
    requires Enabled(cfg, s, l) && !IsWorker(l) && s.pc >= 1
    ensures Apply(cfg, s, l).pc > s.pc
  {
    hide Gone, Room, Put, Close;
  }

  /** Every step but a timer's brings the end nearer. */
  lemma StepLowers(cfg: Config, s: State, l: Label)
    requires Control(cfg, s) && Enabled(cfg, s, l) && !l.Tick? && s.pc >= 1
    ensures Control(cfg, Apply(cfg, s, l)) && Lower(cfg, Apply(cfg, s, l), s)
  {
    hide Control, WorkerEnabled, WorkerStep, LowerAt;
    ControlKept(cfg, s, l);
    if IsWorker(l) {
      WorkerLowers(cfg, s, l);
      WorkerShape(cfg, s, l);
    } else {
      CallerAdvances(cfg, s, l);
    }
  }

  /** From any point after which no timer fires, however the steps are chosen, the drain ends. */
  lemma {:induction false} EveryDrainEnds(cfg: Config, trace: nat -> State, choice: nat -> Label, n: nat)
    requires Control(cfg, trace(n)) && trace(n).pc >= 1
    requires forall k: nat :: k >= n && trace(k).pc < 7 ==> Enabled(cfg, trace(k), choice(k)) && !choice(k).Tick?
    requires forall k: nat :: k >= n && trace(k).pc < 7 ==> trace(k + 1) == Apply(cfg, trace(k), choice(k))
    ensures exists k: nat :: k >= n && trace(k).pc == 7
    decreases 7 - trace(n).pc,
              LoadOf(cfg, trace(n), 4).active, LoadOf(cfg, trace(n), 4).queued, LoadOf(cfg, trace(n), 4).work,
              LoadOf(cfg, trace(n), 3).active, LoadOf(cfg, trace(n), 3).queued, LoadOf(cfg, trace(n), 3).work,
              LoadOf(cfg, trace(n), 2).active, LoadOf(cfg, trace(n), 2).queued, LoadOf(cfg, trace(n), 2).work,
              LoadOf(cfg, trace(n), 1).active, LoadOf(cfg, trace(n), 1).queued, LoadOf(cfg, trace(n), 1).work,
              LoadOf(cfg, trace(n), 0).active, LoadOf(cfg, trace(n), 0).queued, LoadOf(cfg, trace(n), 0).work
  {
    hide Enabled, Apply, LoadOf, Crew, OnTime, ClosedInOrder, Drained, Addressed;
    if trace(n).pc < 7 {
      StepLowers(cfg, trace(n), choice(n));
      EveryDrainEnds(cfg, trace, choice, n + 1);
    }
  }

  /** From every state whose sources have stopped, the pipeline can run to its end without waiting for a timer. */
  lemma {:induction false} DrainEnds(cfg: Config, s: State) returns (run: seq<Label>)
    requires Control(cfg, s) && Buffered(cfg) && s.pc >= 1
    ensures IsRun(cfg, s, run) && Reach(cfg, s, run).pc == 7
    ensures forall k :: 0 <= k < |run| ==> !run[k].Tick?
    decreases 7 - s.pc,
              LoadOf(cfg, s, 4).active, LoadOf(cfg, s, 4).queued, LoadOf(cfg, s, 4).work,
              LoadOf(cfg, s, 3).active, LoadOf(cfg, s, 3).queued, LoadOf(cfg, s, 3).work,
              LoadOf(cfg, s, 2).active, LoadOf(cfg, s, 2).queued, LoadOf(cfg, s, 2).work,
              LoadOf(cfg, s, 1).active, LoadOf(cfg, s, 1).queued, LoadOf(cfg, s, 1).work,
              LoadOf(cfg, s, 0).active, LoadOf(cfg, s, 0).queued, LoadOf(cfg, s, 0).work
  {
    hide Enabled, Apply, LoadOf, Crew, OnTime, ClosedInOrder, Drained, Addressed, Buffered;
    run := [];
    if s.pc < 7 {
      var l := DrainNeverBlocks(cfg, s);
      StepLowers(cfg, s, l);
      var rest := DrainEnds(cfg, Apply(cfg, s, l));
      run := [l] + rest;
      assert run[1..] == rest;
    }
  }
}
