/**
 * The ReFlow pipeline as a system of steps: one decoder, processors, a router, aggregators and encoders pass events
 * over bounded channels, and the caller closes the stages from left to right.
 */
module Pipeline {
  type Item = nat

  datatype Chan = CDecode | CProcess | CRoute | CAgg(i: nat) | CEncode

  datatype Msg = Msg(chan: Chan, item: Item)

  datatype Stage = Decoding | Processing | Routing | Aggregating(i: nat) | Encoding

  /**
   * A worker waits on its channel, sends what an event or a timer made one by one, winds up after its channel is
   * closed and drained, or has returned.
   */
  datatype Hand = Waiting | Busy(outbox: seq<Msg>) | Closing(outbox: seq<Msg>, next: nat) | Returned

  datatype Worker = Worker(stage: Stage, hand: Hand)

  /** What became of an event: it was passed on as other events, absorbed by an aggregate, or logged as an error. */
  datatype Outcome = Passed(outs: seq<Msg>) | Absorbed | Logged

  /** One event taken from a channel, one timer of an aggregator, or its last flush. */
  datatype Entry = Taken(msg: Msg, outcome: Outcome) | Ticked(i: nat, outs: seq<Msg>) | Flush(i: nat, outs: seq<Msg>)

  /**
   * What routing asks of an event: whether it is nil, whether it is a control event that goes round the aggregators,
   * whether it passes an aggregator's filter and whether it has the fields of its key.
   */
  datatype Config = Config(
    aggregators: nat, cap: Chan -> nat,
    isNil: Item -> bool, isControl: Item -> bool, filter: (Item, nat) -> bool, hasKey: (Item, nat) -> bool)

  /**
   * `pc` is how far the caller has got: 0 sources running, 1 sources stopped, 2 to 6 the successive closings, 7 done.
   * `external` records what came from outside, `sent` what went into a channel, and `log` what became of what was
   * taken out, in order.
   */
  datatype State = State(
    pc: nat, panicked: bool, closed: set<Chan>, queue: map<Chan, seq<Item>>, workers: seq<Worker>,
    external: multiset<Msg>, sent: multiset<Msg>, log: seq<Entry>)

  function Q(s: State, c: Chan): seq<Item>
  {
    if c in s.queue then s.queue[c] else []
  }

  function Input(st: Stage): Chan
  {
    match st
    case Decoding => CDecode
    case Processing => CProcess
    case Routing => CRoute
    case Aggregating(i) => CAgg(i)
    case Encoding => CEncode
  }

  /** Where a stage sends: processors to the router when there are aggregators, to the encoders otherwise. */
  predicate MaySend(cfg: Config, st: Stage, c: Chan)
  {
    match st
    case Decoding => c == CProcess
    case Processing => c == (if cfg.aggregators > 0 then CRoute else CEncode)
    case Routing => c == CEncode || (c.CAgg? && c.i < cfg.aggregators)
    case Aggregating(_) => c == CEncode
    case Encoding => false
  }

  predicate Outputs(cfg: Config, st: Stage, outs: seq<Msg>)
  {
    forall k :: 0 <= k < |outs| ==> MaySend(cfg, st, outs[k].chan)
  }

  // ---------- routing ----------

  predicate Matches(cfg: Config, x: Item, i: nat)
  {
    cfg.filter(x, i) && cfg.hasKey(x, i)
  }

  /** The aggregators below `n` that take the event, in order. */
  function Matched(cfg: Config, x: Item, n: nat): seq<nat>
  {
    if n == 0 then [] else Matched(cfg, x, n - 1) + (if Matches(cfg, x, n - 1) then [n - 1] else [])
  }

  function ToAggregators(x: Item, targets: seq<nat>): seq<Msg>
  {
    if targets == [] then [] else [Msg(CAgg(targets[0]), x)] + ToAggregators(x, targets[1..])
  }

  /** An event goes to every aggregator that takes it, else to the encoders; only nil goes nowhere. */
  function RouteOf(cfg: Config, x: Item): seq<Msg>
  {
    if cfg.isNil(x) then []
    else if cfg.isControl(x) || Matched(cfg, x, cfg.aggregators) == [] then [Msg(CEncode, x)]
    else ToAggregators(x, Matched(cfg, x, cfg.aggregators))
  }

  method MatchingAggregateWorkers(cfg: Config, x: Item) returns (matched: seq<nat>, missingKey: bool)
    ensures matched == Matched(cfg, x, cfg.aggregators)
    ensures missingKey
            <==> matched == [] && exists i :: 0 <= i < cfg.aggregators && cfg.filter(x, i) && !cfg.hasKey(x, i)
  {
    matched, missingKey := [], false;
    for i := 0 to cfg.aggregators
      invariant matched == Matched(cfg, x, i)
      invariant missingKey <==> exists k :: 0 <= k < i && cfg.filter(x, k) && !cfg.hasKey(x, k)
    {
      if cfg.filter(x, i) {
        if !cfg.hasKey(x, i) {
          missingKey := true;
        } else {
          matched := matched + [i];
        }
      }
    }
    if |matched| > 0 {
      missingKey := false;
    }
  }

  /** What a stage may make of an event. */
  predicate Lawful(cfg: Config, st: Stage, x: Item, o: Outcome)
  {
    match st
    case Routing => o == Passed(RouteOf(cfg, x))
    case Aggregating(_) => o.Passed? ==> Outputs(cfg, st, o.outs)
    case Encoding => o == Passed([]) || o.Logged?
    case _ => !o.Absorbed? && (o.Passed? ==> Outputs(cfg, st, o.outs))
  }

  function OutsOf(o: Outcome): seq<Msg>
  {
    if o.Passed? then o.outs else []
  }

  predicate Gone(s: State, st: Stage -> bool)
  {
    forall j :: 0 <= j < |s.workers| && st(s.workers[j].stage) ==> s.workers[j].hand.Returned?
  }

  // ---------- steps ----------

  datatype Label =
    | Accept(x: Item)
    | InitEmit(m: Msg)
    | StopSources
    | CloseDecode
    | CloseProcess
    | CloseRoute
    | RouterGone
    | CloseEncode
    | AllDone
    | Take(j: nat, outcome: Outcome)
    | Tick(j: nat, outs: seq<Msg>)
    | Send(j: nat)
    | Settle(j: nat)
    | BeginClose(j: nat, outs: seq<Msg>)
    | CloseAgg(j: nat)
    | Return(j: nat)

  function Outbox(h: Hand): seq<Msg>
  {
    match h
    case Busy(o) => o
    case Closing(o, _) => o
    case _ => []
  }

  function WithOutbox(h: Hand, o: seq<Msg>): Hand
  {
    match h
    case Busy(_) => Busy(o)
    case Closing(_, n) => Closing(o, n)
    case _ => h
  }

  predicate Room(cfg: Config, s: State, c: Chan)
  {
    |Q(s, c)| < cfg.cap(c)
  }

  predicate IsWorker(l: Label)
  {
    l.Take? || l.Tick? || l.Send? || l.Settle? || l.BeginClose? || l.CloseAgg? || l.Return?
  }

  predicate WorkerEnabled(cfg: Config, s: State, l: Label)
    requires IsWorker(l)
  {
    l.j < |s.workers| &&
    var Worker(st, h) := s.workers[l.j];
    match l
    case Take(_, o) => h.Waiting? && Q(s, Input(st)) != [] && Lawful(cfg, st, Q(s, Input(st))[0], o)
    case Tick(_, outs) => h.Waiting? && st.Aggregating? && Outputs(cfg, st, outs)
    case Send(_) => Outbox(h) != [] && (Outbox(h)[0].chan in s.closed || Room(cfg, s, Outbox(h)[0].chan))
    case Settle(_) => h.Busy? && h.outbox == []
    case BeginClose(_, outs) =>
      && h.Waiting? && Q(s, Input(st)) == [] && Input(st) in s.closed
      && (if st.Aggregating? then Outputs(cfg, st, outs) else outs == [])
    case CloseAgg(_) => h.Closing? && st.Routing? && h.next < cfg.aggregators
    case Return(_) => h.Closing? && h.outbox == [] && (st.Routing? ==> h.next >= cfg.aggregators)
  }

  /** Every wait of the caller is the guard of what it does next. */
  predicate Enabled(cfg: Config, s: State, l: Label)
  {
    !s.panicked &&
    if IsWorker(l) then WorkerEnabled(cfg, s, l)
    else
      match l
      case Accept(_) => s.pc == 0 && Room(cfg, s, CDecode)
      case InitEmit(m) =>
        s.pc == 0 && (m.chan == CEncode || (m.chan == CRoute && cfg.aggregators > 0)) && Room(cfg, s, m.chan)
      case StopSources => s.pc == 0
      case CloseDecode => s.pc == 1
      case CloseProcess => s.pc == 2 && Gone(s, (st: Stage) => st.Decoding?)
      case CloseRoute => s.pc == 3 && cfg.aggregators > 0 && Gone(s, (st: Stage) => st.Processing?)
      case RouterGone => s.pc == 4 && Gone(s, (st: Stage) => st.Routing?)
      case CloseEncode =>
        if cfg.aggregators > 0 then s.pc == 5 && Gone(s, (st: Stage) => st.Aggregating?)
        else s.pc == 3 && Gone(s, (st: Stage) => st.Processing?)
      case AllDone => s.pc == 6 && Gone(s, (st: Stage) => st.Encoding?)
  }

  function Close(s: State, c: Chan): State
  {
    s.(closed := s.closed + {c}, panicked := s.panicked || c in s.closed)
  }

  function Put(s: State, m: Msg): State
  {
    s.(queue := s.queue[m.chan := Q(s, m.chan) + [m.item]], sent := s.sent + multiset{m},
       panicked := s.panicked || m.chan in s.closed)
  }

  function Turn(s: State, j: nat, h: Hand): State
    requires j < |s.workers|
  {
    s.(workers := s.workers[j := Worker(s.workers[j].stage, h)])
  }

  function WorkerStep(cfg: Config, s: State, l: Label): State
    requires IsWorker(l) && WorkerEnabled(cfg, s, l)
  {
    var Worker(st, h) := s.workers[l.j];
    match l
    case Take(j, o) =>
      var c := Input(st);
      Turn(s, j, Busy(OutsOf(o))).(queue := s.queue[c := Q(s, c)[1..]], log := s.log + [Taken(Msg(c, Q(s, c)[0]), o)])
    case Tick(j, outs) => Turn(s, j, Busy(outs)).(log := s.log + [Ticked(st.i, outs)])
    case Send(j) => Put(Turn(s, j, WithOutbox(h, Outbox(h)[1..])), Outbox(h)[0])
    case Settle(j) => Turn(s, j, Waiting)
    case BeginClose(j, outs) =>
      Turn(s, j, Closing(outs, 0)).(log := if st.Aggregating? then s.log + [Flush(st.i, outs)] else s.log)
    case CloseAgg(j) => Close(Turn(s, j, Closing(h.outbox, h.next + 1)), CAgg(h.next))
    case Return(j) => Turn(s, j, Returned)
  }

  function Apply(cfg: Config, s: State, l: Label): State
    requires Enabled(cfg, s, l)
  {
    if IsWorker(l) then WorkerStep(cfg, s, l)
    else
      match l
      case Accept(x) => Put(s, Msg(CDecode, x)).(external := s.external + multiset{Msg(CDecode, x)})
      case InitEmit(m) => Put(s, m).(external := s.external + multiset{m})
      case StopSources => s.(pc := 1)
      case CloseDecode => Close(s, CDecode).(pc := 2)
      case CloseProcess => Close(s, CProcess).(pc := 3)
      case CloseRoute => Close(s, CRoute).(pc := 4)
      case RouterGone => s.(pc := 5)
      case CloseEncode => Close(s, CEncode).(pc := 6)
      case AllDone => s.(pc := 7)
  }

  // ---------- control ----------

  predicate Staffed(s: State, st: Stage)
  {
    exists j :: 0 <= j < |s.workers| && s.workers[j].stage == st
  }

  /** Every channel in use has a worker behind it: one decoder, one router, one for each aggregator. */
  predicate Crew(cfg: Config, s: State)
  {
    && Staffed(s, Decoding) && Staffed(s, Processing) && Staffed(s, Encoding)
    && (cfg.aggregators > 0 ==> Staffed(s, Routing))
    && (forall i :: 0 <= i < cfg.aggregators ==> Staffed(s, Aggregating(i)))
    && (forall j :: 0 <= j < |s.workers| && s.workers[j].stage.Aggregating? ==> s.workers[j].stage.i < cfg.aggregators)
    && (forall j, k :: 0 <= j < k < |s.workers| && s.workers[j].stage == s.workers[k].stage ==>
          s.workers[j].stage.Processing? || s.workers[j].stage.Encoding?)
    && (cfg.aggregators == 0 ==> forall j :: 0 <= j < |s.workers| ==> !s.workers[j].stage.Routing?)
  }

  /** How far the caller can be while a stage still works. */
  function Deadline(st: Stage): nat
  {
    match st
    case Decoding => 2
    case Processing => 3
    case Routing => 4
    case Aggregating(_) => 5
    case Encoding => 6
  }

  /** A stage is at work only until the caller has waited for it. */
  predicate OnTime(s: State)
  {
    forall j :: 0 <= j < |s.workers| && !s.workers[j].hand.Returned? ==> s.pc <= Deadline(s.workers[j].stage)
  }

  /** Which channels are closed at each point of the caller. */
  ghost predicate ClosedInOrder(cfg: Config, s: State)
  {
    && (CDecode in s.closed <==> s.pc >= 2) && (CProcess in s.closed <==> s.pc >= 3)
    && (CRoute in s.closed <==> s.pc >= 4 && cfg.aggregators > 0) && (CEncode in s.closed <==> s.pc >= 6)
    && forall j :: 0 <= j < |s.workers| && s.workers[j].stage.Routing? ==> RouterCloses(cfg, s, s.workers[j].hand)
  }

  /** The router closes the aggregators' channels one by one, after its last send. */
  ghost predicate RouterCloses(cfg: Config, s: State, h: Hand)
  {
    var n := match h case Returned => cfg.aggregators case Closing(_, n) => n case _ => 0;
    n <= cfg.aggregators && (h.Closing? ==> h.outbox == []) && forall i: nat :: CAgg(i) in s.closed <==> i < n
  }

  /** A worker that winds up or has returned left its channel closed and empty. */
  predicate Drained(s: State)
  {
    forall j :: 0 <= j < |s.workers| && (s.workers[j].hand.Closing? || s.workers[j].hand.Returned?) ==>
                  Input(s.workers[j].stage) in s.closed && Q(s, Input(s.workers[j].stage)) == []
  }

  /** What waits in an outbox may be sent by its worker. */
  predicate Addressed(cfg: Config, s: State)
  {
    forall j :: 0 <= j < |s.workers| ==> Outputs(cfg, s.workers[j].stage, Outbox(s.workers[j].hand))
  }

  ghost predicate Control(cfg: Config, s: State)
  {
    && !s.panicked && s.pc <= 7 && (cfg.aggregators == 0 ==> s.pc != 4 && s.pc != 5 && Q(s, CRoute) == [])
    && Crew(cfg, s) && OnTime(s) && ClosedInOrder(cfg, s) && Drained(s) && Addressed(cfg, s)
  }

  /** No worker sends on a closed channel. */
  lemma SendsAreOpen(cfg: Config, s: State, j: nat)
    requires Control(cfg, s) && j < |s.workers| && Outbox(s.workers[j].hand) != []
    ensures Outbox(s.workers[j].hand)[0].chan !in s.closed
  {
    hide Crew, Drained;
    var Worker(st, h) := s.workers[j];
    assert MaySend(cfg, st, Outbox(h)[0].chan);
  }

  predicate SameStages(s: State, s': State)
  {
    |s'.workers| == |s.workers| && forall j :: 0 <= j < |s.workers| ==> s'.workers[j].stage == s.workers[j].stage
  }

  lemma {:induction false} CrewKept(cfg: Config, s: State, s': State)
    requires Crew(cfg, s) && SameStages(s, s')
    ensures Crew(cfg, s')
  {
    hide Crew;
    StaffKept(s, s');
    CrewAgain(cfg, s, s');
  }

  lemma StaffKept(s: State, s': State)
    requires SameStages(s, s')
    ensures forall st :: Staffed(s, st) ==> Staffed(s', st)
  {
    forall st | Staffed(s, st) ensures Staffed(s', st) {
      var j :| 0 <= j < |s.workers| && s.workers[j].stage == st;
      assert s'.workers[j].stage == st;
    }
  }

  lemma CrewAgain(cfg: Config, s: State, s': State)
    requires Crew(cfg, s) && SameStages(s, s') && forall st :: Staffed(s, st) ==> Staffed(s', st)
    ensures Crew(cfg, s')
  {
    hide Staffed;
  }

  /** The hand a worker's step leaves it with. */
  function NewHand(s: State, l: Label): Hand
    requires IsWorker(l) && l.j < |s.workers|
  {
    var Worker(st, h) := s.workers[l.j];
    match l
    case Take(_, o) => Busy(OutsOf(o))
    case Tick(_, outs) => Busy(outs)
    case Send(_) => if Outbox(h) == [] then h else WithOutbox(h, Outbox(h)[1..])
    case Settle(_) => Waiting
    case BeginClose(_, outs) => Closing(outs, 0)
    case CloseAgg(_) => if h.Closing? then Closing(h.outbox, h.next + 1) else h
    case Return(_) => Returned
  }

  lemma WorkerShape(cfg: Config, s: State, l: Label)
    requires IsWorker(l) && WorkerEnabled(cfg, s, l)
    ensures var s', w := WorkerStep(cfg, s, l), s.workers[l.j];
            && s'.pc == s.pc && s'.workers == s.workers[l.j := Worker(w.stage, NewHand(s, l))] && SameStages(s, s')
            && s'.closed == s.closed + (if l.CloseAgg? then {CAgg(w.hand.next)} else {})
            && (l.Send? ==> s'.panicked == (s.panicked || Outbox(w.hand)[0].chan in s.closed))
            && (l.CloseAgg? ==> s'.panicked == (s.panicked || CAgg(w.hand.next) in s.closed))
            && (!l.Send? && !l.CloseAgg? ==> s'.panicked == s.panicked)
  {
    hide MaySend, Outputs, Room, Q, Input, Lawful;
  }

  lemma WorkerQueues(cfg: Config, s: State, l: Label, c: Chan)
    requires IsWorker(l) && WorkerEnabled(cfg, s, l)
    ensures var s', w := WorkerStep(cfg, s, l), s.workers[l.j];
            Q(s', c) == if l.Take? && c == Input(w.stage) then Q(s, c)[1..]
                        else if l.Send? && c == Outbox(w.hand)[0].chan then Q(s, c) + [Outbox(w.hand)[0].item]
                        else Q(s, c)
  {
    hide MaySend, Outputs, Room, Input, Lawful;
  }

  lemma WorkerOnTime(cfg: Config, s: State, s': State, l: Label)
    requires IsWorker(l) && WorkerEnabled(cfg, s, l) && OnTime(s) && s'.pc == s.pc
    requires s'.workers == s.workers[l.j := Worker(s.workers[l.j].stage, NewHand(s, l))]
    ensures OnTime(s')
  {
    hide MaySend, Outputs, Room, Input, Q, Lawful;
  }

  lemma {:induction false} MatchedInRange(cfg: Config, x: Item, n: nat)
    ensures forall k :: 0 <= k < |Matched(cfg, x, n)| ==> Matched(cfg, x, n)[k] < n
  {
    if n > 0 { MatchedInRange(cfg, x, n - 1); }
  }

  lemma {:induction false} AggregatorsAddressed(cfg: Config, x: Item, targets: seq<nat>)
    requires forall k :: 0 <= k < |targets| ==> targets[k] < cfg.aggregators
    ensures Outputs(cfg, Routing, ToAggregators(x, targets))
  {
    if targets != [] { AggregatorsAddressed(cfg, x, targets[1..]); }
  }

  lemma RouteAddressed(cfg: Config, x: Item)
    ensures Outputs(cfg, Routing, RouteOf(cfg, x))
  {
    hide Matched, ToAggregators;
    MatchedInRange(cfg, x, cfg.aggregators);
    AggregatorsAddressed(cfg, x, Matched(cfg, x, cfg.aggregators));
  }

  lemma TakenOutputs(cfg: Config, st: Stage, x: Item, o: Outcome)
    requires Lawful(cfg, st, x, o)
    ensures Outputs(cfg, st, OutsOf(o))
  {
    hide RouteOf, MaySend;
    RouteAddressed(cfg, x);
  }

  lemma WorkerAddressed(cfg: Config, s: State, s': State, l: Label)
    requires IsWorker(l) && WorkerEnabled(cfg, s, l) && Addressed(cfg, s)
    requires s'.workers == s.workers[l.j := Worker(s.workers[l.j].stage, NewHand(s, l))]
    ensures Addressed(cfg, s')
  {
    hide MaySend, Room, Input, Q, RouteOf;
    if l.Take? { TakenOutputs(cfg, s.workers[l.j].stage, Q(s, Input(s.workers[l.j].stage))[0], l.outcome); }
    forall j | 0 <= j < |s'.workers| ensures Outputs(cfg, s'.workers[j].stage, Outbox(s'.workers[j].hand)) {
      assert Outputs(cfg, s.workers[j].stage, Outbox(s.workers[j].hand));
    }
  }

  /** Nobody else puts anything into a channel that a worker found closed and empty. */
  lemma WorkerDrained(cfg: Config, s: State, s': State, l: Label)
    requires IsWorker(l) && WorkerEnabled(cfg, s, l) && Drained(s) && s'.closed >= s.closed
    requires s'.workers == s.workers[l.j := Worker(s.workers[l.j].stage, NewHand(s, l))]
    requires forall c :: c in s.closed && Q(s, c) == [] ==> Q(s', c) == []
    ensures Drained(s')
  {
    hide MaySend, Outputs, Room, Input, Q, Lawful;
  }

  lemma RouterStep(cfg: Config, s: State, s': State, l: Label)
    requires IsWorker(l) && WorkerEnabled(cfg, s, l) && ClosedInOrder(cfg, s) && s'.pc == s.pc && Crew(cfg, s)
    requires s'.workers == s.workers[l.j := Worker(s.workers[l.j].stage, NewHand(s, l))]
    requires s'.closed == s.closed + (if l.CloseAgg? then {CAgg(s.workers[l.j].hand.next)} else {})
    ensures ClosedInOrder(cfg, s')
    ensures l.CloseAgg? ==> CAgg(s.workers[l.j].hand.next) !in s.closed
  {
    hide MaySend, Outputs, Room, Input, Q, Staffed, Lawful;
    if l.CloseAgg? {
      forall j | 0 <= j < |s'.workers| && s'.workers[j].stage.Routing?
        ensures RouterCloses(cfg, s', s'.workers[j].hand)
      {
        OneRouter(cfg, s, j, l.j);
      }
    }
  }

  lemma OneRouter(cfg: Config, s: State, j: nat, k: nat)
    requires Crew(cfg, s) && j < |s.workers| && k < |s.workers| && s.workers[j].stage.Routing?
             && s.workers[k].stage.Routing?
    ensures j == k
  {
    hide Staffed;
  }

  lemma ControlWorker(cfg: Config, s: State, l: Label)
    requires Control(cfg, s) && IsWorker(l) && WorkerEnabled(cfg, s, l)
    ensures Control(cfg, WorkerStep(cfg, s, l))
  {
    hide Crew, OnTime, ClosedInOrder, Drained, Addressed, WorkerStep, WorkerEnabled, NewHand, SameStages;
    var s' := WorkerStep(cfg, s, l);
    WorkerShape(cfg, s, l);
    CrewKept(cfg, s, s');
    WorkerOnTime(cfg, s, s', l);
    WorkerAddressed(cfg, s, s', l);
    RouterStep(cfg, s, s', l);
    if l.Send? { SendEnabled(cfg, s, l); SendsAreOpen(cfg, s, l.j); }
    if l.Take? { TakeEnabled(cfg, s, l); }
    forall c: Chan
      ensures Q(s', c) == if l.Take? && c == Input(s.workers[l.j].stage) then Q(s, c)[1..]
                          else if l.Send? && c == Outbox(s.workers[l.j].hand)[0].chan
                            then Q(s, c) + [Outbox(s.workers[l.j].hand)[0].item]
                          else Q(s, c)
    {
      WorkerQueues(cfg, s, l, c);
    }
    WorkerDrained(cfg, s, s', l);
    if cfg.aggregators == 0 { NoRoute(cfg, s, l); }
  }

  lemma SendEnabled(cfg: Config, s: State, l: Label)
    requires l.Send? && WorkerEnabled(cfg, s, l)
    ensures l.j < |s.workers| && Outbox(s.workers[l.j].hand) != []
  {
  }

  lemma TakeEnabled(cfg: Config, s: State, l: Label)
    requires l.Take? && WorkerEnabled(cfg, s, l)
    ensures l.j < |s.workers| && Q(s, Input(s.workers[l.j].stage)) != []
  {
  }

  lemma NoRoute(cfg: Config, s: State, l: Label)
    requires Control(cfg, s) && cfg.aggregators == 0 && IsWorker(l) && WorkerEnabled(cfg, s, l)
    ensures l.Take? ==> Input(s.workers[l.j].stage) != CRoute
    ensures l.Send? ==> Outbox(s.workers[l.j].hand) != [] && Outbox(s.workers[l.j].hand)[0].chan != CRoute
  {
    hide OnTime, ClosedInOrder, Drained, Staffed;
    if l.Send? { assert MaySend(cfg, s.workers[l.j].stage, Outbox(s.workers[l.j].hand)[0].chan); }
  }

  lemma NoAggregation(cfg: Config, s: State, j: nat)
    requires Crew(cfg, s) && cfg.aggregators == 0 && j < |s.workers|
    ensures !s.workers[j].stage.Routing? && !s.workers[j].stage.Aggregating?
  {
    hide Staffed;
  }

  /** Each closing waits for the stage before it. */
  lemma CallerOnTime(cfg: Config, s: State, l: Label)
    requires Crew(cfg, s) && OnTime(s) && !IsWorker(l) && Enabled(cfg, s, l)
    ensures OnTime(Apply(cfg, s, l))
  {
    hide Crew, Room;
    var s' := Apply(cfg, s, l);
    assert s'.workers == s.workers;
    forall j | 0 <= j < |s.workers| && !s.workers[j].hand.Returned? ensures s'.pc <= Deadline(s.workers[j].stage) {
      if cfg.aggregators == 0 { NoAggregation(cfg, s, j); }
    }
  }

  lemma CallerCloses(cfg: Config, s: State, l: Label)
    requires !s.panicked && ClosedInOrder(cfg, s) && !IsWorker(l) && Enabled(cfg, s, l) && s.pc <= 7
    requires cfg.aggregators == 0 ==> s.pc != 4 && s.pc != 5
    ensures ClosedInOrder(cfg, Apply(cfg, s, l)) && !Apply(cfg, s, l).panicked && Apply(cfg, s, l).pc <= 7
    ensures cfg.aggregators == 0 ==> Apply(cfg, s, l).pc != 4 && Apply(cfg, s, l).pc != 5
  {
    hide Room, Gone, Q;
    assert Apply(cfg, s, l).workers == s.workers;
  }

  lemma CallerDrained(cfg: Config, s: State, l: Label)
    requires Drained(s) && ClosedInOrder(cfg, s) && !IsWorker(l) && Enabled(cfg, s, l)
    requires cfg.aggregators == 0 ==> Q(s, CRoute) == []
    ensures Drained(Apply(cfg, s, l))
    ensures cfg.aggregators == 0 ==> Q(Apply(cfg, s, l), CRoute) == []
  {
    hide Room, Gone, RouterCloses;
    assert Apply(cfg, s, l).workers == s.workers;
  }

  lemma ControlCaller(cfg: Config, s: State, l: Label)
    requires Control(cfg, s) && !IsWorker(l) && Enabled(cfg, s, l)
    ensures Control(cfg, Apply(cfg, s, l))
  {
    hide Crew, Addressed, OnTime, ClosedInOrder, Drained, Enabled, Apply;
    CallerWorkers(cfg, s, l);
    CrewKept(cfg, s, Apply(cfg, s, l));
    AddressedKept(cfg, s, Apply(cfg, s, l));
    CallerOnTime(cfg, s, l);
    CallerCloses(cfg, s, l);
    CallerDrained(cfg, s, l);
  }

  lemma CallerWorkers(cfg: Config, s: State, l: Label)
    requires !IsWorker(l) && Enabled(cfg, s, l)
    ensures Apply(cfg, s, l).workers == s.workers && SameStages(s, Apply(cfg, s, l))
  {
    hide Room, Gone;
  }

  lemma AddressedKept(cfg: Config, s: State, s': State)
    requires Addressed(cfg, s) && s'.workers == s.workers
    ensures Addressed(cfg, s')
  {
  }

  lemma ControlKept(cfg: Config, s: State, l: Label)
    requires Control(cfg, s) && Enabled(cfg, s, l)
    ensures Control(cfg, Apply(cfg, s, l))
  {
    hide Control, WorkerEnabled, WorkerStep;
    if IsWorker(l) { ControlWorker(cfg, s, l); } else { ControlCaller(cfg, s, l); }
  }

  /**
   * A channel is closed only after all its senders have finished: a worker that may send on it has returned, or is the
   * router closing it with nothing left to send; and the sources have stopped before any channel they feed is closed.
   */
  ghost predicate ClosedAfterSenders(cfg: Config, s: State)
  {
    && (forall j, c :: 0 <= j < |s.workers| && c in s.closed && MaySend(cfg, s.workers[j].stage, c) ==>
          s.workers[j].hand.Returned? || (s.workers[j].hand.Closing? && s.workers[j].hand.outbox == []))
    && (CDecode in s.closed || CRoute in s.closed || CEncode in s.closed ==> s.pc >= 1)
  }

  lemma SendersFirst(cfg: Config, s: State)
    requires Control(cfg, s)
    ensures ClosedAfterSenders(cfg, s)
  {
    hide Crew, Drained, Addressed;
    forall j, c | 0 <= j < |s.workers| && c in s.closed && MaySend(cfg, s.workers[j].stage, c)
      ensures s.workers[j].hand.Returned? || (s.workers[j].hand.Closing? && s.workers[j].hand.outbox == [])
    {
      if c.CAgg? { assert RouterCloses(cfg, s, s.workers[j].hand); }
    }
  }
}
