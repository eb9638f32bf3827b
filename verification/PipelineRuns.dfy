/** What becomes of every event in every run of the pipeline. */
module PipelineRuns {
  import opened Sums
  import opened Pipeline

  // ---------- counting events ----------

  function InQueue(s: State, m: Msg): nat
  {
    multiset(Q(s, m.chan))[m.item]
  }

  function Pending(m: Msg): Worker -> nat
  {
    (w: Worker) => multiset(Outbox(w.hand))[m]
  }

  function MadeBy(e: Entry): seq<Msg>
  {
    match e
    case Taken(_, o) => OutsOf(o)
    case Ticked(_, outs) => outs
    case Flush(_, outs) => outs
  }

  /** How often a message was taken out of its channel. */
  function TakenCount(log: seq<Entry>, m: Msg): nat
  {
    if log == [] then 0
    else
      var e := log[|log| - 1];
      TakenCount(log[..|log| - 1], m) + (if e.Taken? && e.msg == m then 1 else 0)
  }

  /** How often a message was made by a worker. */
  function MadeCount(log: seq<Entry>, m: Msg): nat
  {
    if log == [] then 0 else MadeCount(log[..|log| - 1], m) + multiset(MadeBy(log[|log| - 1]))[m]
  }

  lemma LogSnoc(log: seq<Entry>, e: Entry, m: Msg)
    ensures TakenCount(log + [e], m) == TakenCount(log, m) + (if e.Taken? && e.msg == m then 1 else 0)
    ensures MadeCount(log + [e], m) == MadeCount(log, m) + multiset(MadeBy(e))[m]
  {
    assert (log + [e])[..|log|] == log;
  }

  /** Every event put into a channel waits there or was taken out of it. */
  predicate Kept(s: State, m: Msg)
  {
    s.sent[m] == InQueue(s, m) + TakenCount(s.log, m)
  }

  /** Everything that came from outside or was made by a worker went into a channel or waits in an outbox. */
  predicate Delivered(s: State, m: Msg)
  {
    s.external[m] + MadeCount(s.log, m) == s.sent[m] + Sum(Pending(m), s.workers)
  }

  lemma Snoc(q: seq<Item>, y: Item, x: Item)
    ensures multiset(q + [y])[x] == multiset(q)[x] + (if y == x then 1 else 0)
  {
  }

  lemma Cons(q: seq<Item>, x: Item)
    requires q != []
    ensures multiset(q)[x] == multiset(q[1..])[x] + (if q[0] == x then 1 else 0)
  {
    assert q == [q[0]] + q[1..];
  }

  lemma ConsMsg(o: seq<Msg>, m: Msg)
    requires o != []
    ensures multiset(o)[m] == multiset(o[1..])[m] + (if o[0] == m then 1 else 0)
  {
    assert o == [o[0]] + o[1..];
  }

  lemma TurnCounts(s: State, j: nat, h: Hand, m: Msg)
    requires j < |s.workers|
    ensures Sum(Pending(m), Turn(s, j, h).workers) + multiset(Outbox(s.workers[j].hand))[m]
            == Sum(Pending(m), s.workers) + multiset(Outbox(h))[m]
  {
    hide Sum;
    SumUpdate(Pending(m), s.workers, j, Worker(s.workers[j].stage, h));
  }

  lemma TakeCounts(s: State, j: nat, o: Outcome, m: Msg)
    requires j < |s.workers| && s.workers[j].hand.Waiting? && Q(s, Input(s.workers[j].stage)) != []
    requires Kept(s, m) && Delivered(s, m)
    ensures var c := Input(s.workers[j].stage);
            var s' := Turn(s, j, Busy(OutsOf(o)))
                      .(queue := s.queue[c := Q(s, c)[1..]], log := s.log + [Taken(Msg(c, Q(s, c)[0]), o)]);
            Kept(s', m) && Delivered(s', m)
  {
    hide Sum, Input, TakenCount, MadeCount;
    var c := Input(s.workers[j].stage);
    TurnCounts(s, j, Busy(OutsOf(o)), m);
    Cons(Q(s, c), m.item);
    LogSnoc(s.log, Taken(Msg(c, Q(s, c)[0]), o), m);
  }

  /** A timer or the last flush: the entry says what is put into the outbox. */
  lemma ReleaseCounts(s: State, j: nat, h: Hand, e: Entry, m: Msg)
    requires j < |s.workers| && s.workers[j].hand.Waiting? && !e.Taken? && Outbox(h) == MadeBy(e)
    requires Kept(s, m) && Delivered(s, m)
    ensures var s' := Turn(s, j, h).(log := s.log + [e]); Kept(s', m) && Delivered(s', m)
  {
    hide Sum, TakenCount, MadeCount;
    TurnCounts(s, j, h, m);
    LogSnoc(s.log, e, m);
  }

  lemma PutCounts(s: State, out: Msg, m: Msg)
    ensures var s' := Put(s, out);
            && InQueue(s', m) == InQueue(s, m) + (if out == m then 1 else 0)
            && s'.sent[m] == s.sent[m] + (if out == m then 1 else 0)
  {
    Snoc(Q(s, out.chan), out.item, m.item);
  }

  lemma SameQueue(s: State, s': State, m: Msg)
    requires s'.queue == s.queue
    ensures InQueue(s', m) == InQueue(s, m)
  {
  }

  lemma SendCounts(s: State, j: nat, m: Msg)
    requires j < |s.workers| && Outbox(s.workers[j].hand) != [] && Kept(s, m) && Delivered(s, m)
    ensures var h := s.workers[j].hand;
            var s' := Put(Turn(s, j, WithOutbox(h, Outbox(h)[1..])), Outbox(h)[0]);
            Kept(s', m) && Delivered(s', m)
  {
    hide Sum, InQueue, TakenCount, MadeCount;
    var h := s.workers[j].hand;
    var turned := Turn(s, j, WithOutbox(h, Outbox(h)[1..]));
    TurnCounts(s, j, WithOutbox(h, Outbox(h)[1..]), m);
    SameQueue(s, turned, m);
    PutCounts(turned, Outbox(h)[0], m);
    ConsMsg(Outbox(h), m);
  }

  lemma EmptyCounts(s: State, j: nat, h: Hand, m: Msg)
    requires j < |s.workers| && Outbox(h) == Outbox(s.workers[j].hand) && Kept(s, m) && Delivered(s, m)
    ensures Kept(Turn(s, j, h), m) && Delivered(Turn(s, j, h), m)
  {
    hide Sum, TakenCount, MadeCount;
    TurnCounts(s, j, h, m);
  }

  lemma ClosedCounts(s: State, c: Chan, m: Msg)
    requires Kept(s, m) && Delivered(s, m)
    ensures Kept(Close(s, c), m) && Delivered(Close(s, c), m)
  {
    hide Sum, TakenCount, MadeCount;
  }

  lemma WorkerCounts(cfg: Config, s: State, l: Label, m: Msg)
    requires IsWorker(l) && WorkerEnabled(cfg, s, l) && Kept(s, m) && Delivered(s, m)
    ensures Kept(WorkerStep(cfg, s, l), m) && Delivered(WorkerStep(cfg, s, l), m)
  {
    hide Kept, Delivered, MaySend, Outputs, Room, Put, Close, Turn, Q, Lawful;
    var Worker(st, h) := s.workers[l.j];
    match l {
      case Take(j, o) => TakeCounts(s, j, o, m);
      case Tick(j, outs) => ReleaseCounts(s, j, Busy(outs), Ticked(st.i, outs), m);
      case Send(j) => SendCounts(s, j, m);
      case Settle(j) => EmptyCounts(s, j, Waiting, m);
      case BeginClose(j, outs) =>
        if st.Aggregating? {
          ReleaseCounts(s, j, Closing(outs, 0), Flush(st.i, outs), m);
        } else {
          EmptyCounts(s, j, Closing(outs, 0), m);
          TurnLog(s, j, Closing(outs, 0));
        }
      case CloseAgg(j) =>
        EmptyCounts(s, j, Closing(h.outbox, h.next + 1), m);
        ClosedCounts(Turn(s, j, Closing(h.outbox, h.next + 1)), CAgg(h.next), m);
      case Return(j) => EmptyCounts(s, j, Returned, m);
    }
  }

  lemma TurnLog(s: State, j: nat, h: Hand)
    requires j < |s.workers|
    ensures Turn(s, j, h).(log := s.log) == Turn(s, j, h)
  {
  }

  lemma ExternalCounts(s: State, out: Msg, m: Msg)
    requires Kept(s, m) && Delivered(s, m)
    ensures var s' := Put(s, out).(external := s.external + multiset{out}); Kept(s', m) && Delivered(s', m)
  {
    hide Sum, InQueue, TakenCount, MadeCount;
    PutCounts(s, out, m);
    SameQueue(Put(s, out), Put(s, out).(external := s.external + multiset{out}), m);
  }

  lemma StepCounts(s: State, pc: nat, m: Msg)
    requires Kept(s, m) && Delivered(s, m)
    ensures Kept(s.(pc := pc), m) && Delivered(s.(pc := pc), m)
  {
    hide Sum, TakenCount, MadeCount;
  }

  lemma CallerCounts(cfg: Config, s: State, l: Label, m: Msg)
    requires !IsWorker(l) && Enabled(cfg, s, l) && Kept(s, m) && Delivered(s, m)
    ensures Kept(Apply(cfg, s, l), m) && Delivered(Apply(cfg, s, l), m)
  {
    hide Kept, Delivered, Gone, Room, Put, Close;
    match l {
      case Accept(x) => ExternalCounts(s, Msg(CDecode, x), m);
      case InitEmit(out) => ExternalCounts(s, out, m);
      case StopSources => StepCounts(s, 1, m);
      case CloseDecode => ClosedCounts(s, CDecode, m); StepCounts(Close(s, CDecode), 2, m);
      case CloseProcess => ClosedCounts(s, CProcess, m); StepCounts(Close(s, CProcess), 3, m);
      case CloseRoute => ClosedCounts(s, CRoute, m); StepCounts(Close(s, CRoute), 4, m);
      case RouterGone => StepCounts(s, 5, m);
      case CloseEncode => ClosedCounts(s, CEncode, m); StepCounts(Close(s, CEncode), 6, m);
      case AllDone => StepCounts(s, 7, m);
    }
  }

  // ---------- the log ----------

  function StageOf(c: Chan): Stage
  {
    match c
    case CDecode => Decoding
    case CProcess => Processing
    case CRoute => Routing
    case CAgg(i) => Aggregating(i)
    case CEncode => Encoding
  }

  /** What a log may say: every event taken met a lawful end, and timers release events for the encoders. */
  predicate EntryOk(cfg: Config, e: Entry)
  {
    match e
    case Taken(m, o) => Lawful(cfg, StageOf(m.chan), m.item, o)
    case Ticked(i, outs) => Outputs(cfg, Aggregating(i), outs)
    case Flush(i, outs) => Outputs(cfg, Aggregating(i), outs)
  }

  predicate LogOk(cfg: Config, log: seq<Entry>)
  {
    forall k :: 0 <= k < |log| ==> EntryOk(cfg, log[k])
  }

  predicate About(e: Entry, i: nat)
  {
    match e
    case Taken(m, _) => m.chan == CAgg(i)
    case Ticked(k, _) => k == i
    case Flush(k, _) => k == i
  }

  predicate IsFlush(e: Entry, i: nat)
  {
    e.Flush? && e.i == i
  }

  predicate Flushed(log: seq<Entry>, i: nat)
  {
    exists p :: 0 <= p < |log| && IsFlush(log[p], i)
  }

  /** Nothing happens to an aggregator after its flush, not even a second one. */
  predicate FlushIsLast(log: seq<Entry>, i: nat)
  {
    forall p, q :: 0 <= p < q < |log| && IsFlush(log[p], i) ==> !About(log[q], i)
  }

  predicate WindsUp(h: Hand)
  {
    h.Closing? || h.Returned?
  }

  predicate InUse(cfg: Config, c: Chan)
  {
    match c
    case CAgg(i) => i < cfg.aggregators
    case CRoute => cfg.aggregators > 0
    case _ => true
  }

  ghost predicate Tidy(cfg: Config, s: State)
  {
    && LogOk(cfg, s.log)
    && (forall i: nat :: FlushIsLast(s.log, i))
    && (forall j :: 0 <= j < |s.workers| && s.workers[j].stage.Aggregating? ==>
          (Flushed(s.log, s.workers[j].stage.i) <==> WindsUp(s.workers[j].hand)))
    && (forall m: Msg :: !InUse(cfg, m.chan) ==> s.sent[m] == 0)
    && (forall m: Msg :: m.chan.CAgg? ==> s.external[m] == 0)
  }

  lemma FlushedSnoc(log: seq<Entry>, e: Entry, i: nat)
    ensures Flushed(log + [e], i) <==> Flushed(log, i) || IsFlush(e, i)
  {
    var all := log + [e];
    if p :| 0 <= p < |log| && IsFlush(log[p], i) { assert IsFlush(all[p], i); }
    if IsFlush(e, i) { assert IsFlush(all[|log|], i); }
  }

  lemma FlushLastSnoc(log: seq<Entry>, e: Entry, i: nat)
    requires FlushIsLast(log, i) && (About(e, i) ==> !Flushed(log, i))
    ensures FlushIsLast(log + [e], i)
  {
    hide About, IsFlush;
    var all := log + [e];
    forall p, q | 0 <= p < q < |all| && IsFlush(all[p], i) ensures !About(all[q], i) {
      assert all[p] == log[p];
      if q < |log| { assert all[q] == log[q]; }
    }
  }

  /** Which entry a worker's step adds to the log. */
  function NewEntry(s: State, l: Label): seq<Entry>
    requires IsWorker(l) && l.j < |s.workers|
  {
    var Worker(st, h) := s.workers[l.j];
    match l
    case Take(_, o) => if Q(s, Input(st)) == [] then [] else [Taken(Msg(Input(st), Q(s, Input(st))[0]), o)]
    case Tick(_, outs) => if st.Aggregating? then [Ticked(st.i, outs)] else []
    case BeginClose(_, outs) => if st.Aggregating? then [Flush(st.i, outs)] else []
    case _ => []
  }

  lemma WorkerLog(cfg: Config, s: State, l: Label)
    requires IsWorker(l) && WorkerEnabled(cfg, s, l)
    ensures var s' := WorkerStep(cfg, s, l);
            && s'.log == s.log + NewEntry(s, l) && s'.external == s.external
            && s'.workers == s.workers[l.j := Worker(s.workers[l.j].stage, NewHand(s, l))]
            && (forall m: Msg ::
                  s'.sent[m] == s.sent[m] + (if l.Send? && m == Outbox(s.workers[l.j].hand)[0] then 1 else 0))
  {
    hide MaySend, Outputs, Room, Lawful, Q, Input;
    assert s.log + [] == s.log;
  }

  lemma NewEntryOk(cfg: Config, s: State, l: Label)
    requires IsWorker(l) && WorkerEnabled(cfg, s, l) && LogOk(cfg, s.log)
    ensures LogOk(cfg, s.log + NewEntry(s, l))
  {
    hide Outputs, Room, Q, RouteOf;
    var Worker(st, h) := s.workers[l.j];
    assert StageOf(Input(st)) == st;
  }

  /** Whose turn it is when the log mentions an aggregator. */
  lemma NewEntryAbout(cfg: Config, s: State, l: Label, i: nat)
    requires IsWorker(l) && WorkerEnabled(cfg, s, l) && NewEntry(s, l) != [] && About(NewEntry(s, l)[0], i)
    ensures s.workers[l.j].stage == Aggregating(i) && s.workers[l.j].hand.Waiting?
    ensures IsFlush(NewEntry(s, l)[0], i) <==> l.BeginClose?
  {
    hide Outputs, Room, Q, RouteOf, Lawful;
  }

  lemma LogOrder(cfg: Config, s: State, l: Label, i: nat)
    requires Tidy(cfg, s) && IsWorker(l) && WorkerEnabled(cfg, s, l)
    ensures FlushIsLast(s.log + NewEntry(s, l), i)
    ensures Flushed(s.log + NewEntry(s, l), i)
            <==> Flushed(s.log, i) || (l.BeginClose? && s.workers[l.j].stage == Aggregating(i))
  {
    hide WorkerEnabled, FlushIsLast, Flushed, LogOk;
    EnabledWorker(cfg, s, l);
    var new_ := NewEntry(s, l);
    if new_ == [] {
      assert s.log + new_ == s.log;
    } else {
      assert new_ == [new_[0]];
      FlushedSnoc(s.log, new_[0], i);
      if About(new_[0], i) { NewEntryAbout(cfg, s, l, i); }
      FlushLastSnoc(s.log, new_[0], i);
    }
  }

  lemma EnabledWorker(cfg: Config, s: State, l: Label)
    requires IsWorker(l) && WorkerEnabled(cfg, s, l)
    ensures l.j < |s.workers| && |NewEntry(s, l)| <= 1
    ensures l.BeginClose? && s.workers[l.j].stage.Aggregating? ==>
              NewEntry(s, l) == [Flush(s.workers[l.j].stage.i, l.outs)]
  {
    hide Outputs, Room, Lawful;
  }

  lemma HandChange(cfg: Config, s: State, l: Label)
    requires IsWorker(l) && WorkerEnabled(cfg, s, l)
    ensures WindsUp(NewHand(s, l)) <==> WindsUp(s.workers[l.j].hand) || l.BeginClose?
  {
    hide Outputs, Room, Lawful, Q;
  }

  lemma OneAggregator(cfg: Config, s: State, j: nat, k: nat)
    requires Crew(cfg, s) && j < |s.workers| && k < |s.workers|
    requires s.workers[j].stage.Aggregating? && s.workers[j].stage == s.workers[k].stage
    ensures j == k
  {
    hide Staffed;
  }

  lemma TidyWorker(cfg: Config, s: State, l: Label)
    requires Control(cfg, s) && Tidy(cfg, s) && IsWorker(l) && WorkerEnabled(cfg, s, l)
    ensures Tidy(cfg, WorkerStep(cfg, s, l))
  {
    hide Control, Tidy, WorkerStep, NewHand, NewEntry, Flushed, FlushIsLast, LogOk, WindsUp, InUse, WorkerEnabled;
    var s' := WorkerStep(cfg, s, l);
    WorkerLog(cfg, s, l);
    NewEntryOk2(cfg, s, l);
    EnabledWorker(cfg, s, l);
    forall i: nat ensures FlushIsLast(s'.log, i) { LogOrder(cfg, s, l, i); }
    forall j | 0 <= j < |s'.workers| && s'.workers[j].stage.Aggregating?
      ensures Flushed(s'.log, s'.workers[j].stage.i) <==> WindsUp(s'.workers[j].hand)
    {
      AggregatorWindsUp(cfg, s, l, j);
    }
    forall m: Msg | !InUse(cfg, m.chan) ensures s'.sent[m] == 0 { SentInUse(cfg, s, l, m); }
    forall m: Msg | m.chan.CAgg? ensures s'.external[m] == 0 { NothingExternal(cfg, s, m); }
    TidyIs(cfg, s');
  }

  lemma TidyIs(cfg: Config, s: State)
    requires LogOk(cfg, s.log) && forall i: nat :: FlushIsLast(s.log, i)
    requires forall j :: 0 <= j < |s.workers| && s.workers[j].stage.Aggregating? ==>
                           (Flushed(s.log, s.workers[j].stage.i) <==> WindsUp(s.workers[j].hand))
    requires forall m: Msg :: !InUse(cfg, m.chan) ==> s.sent[m] == 0
    requires forall m: Msg :: m.chan.CAgg? ==> s.external[m] == 0
    ensures Tidy(cfg, s)
  {
  }

  lemma NewEntryOk2(cfg: Config, s: State, l: Label)
    requires Tidy(cfg, s) && IsWorker(l) && WorkerEnabled(cfg, s, l)
    ensures LogOk(cfg, s.log + NewEntry(s, l))
  {
    hide LogOk, FlushIsLast, Flushed;
    NewEntryOk(cfg, s, l);
  }

  lemma NothingExternal(cfg: Config, s: State, m: Msg)
    requires Tidy(cfg, s) && m.chan.CAgg?
    ensures s.external[m] == 0
  {
    hide LogOk, FlushIsLast, Flushed;
  }

  lemma SentInUse(cfg: Config, s: State, l: Label, m: Msg)
    requires Control(cfg, s) && Tidy(cfg, s) && IsWorker(l) && WorkerEnabled(cfg, s, l) && !InUse(cfg, m.chan)
    ensures WorkerStep(cfg, s, l).sent[m] == 0
  {
    hide Crew, OnTime, ClosedInOrder, Drained, Room, Q, Input, LogOk, FlushIsLast, Flushed, WorkerStep, Lawful;
    WorkerLog(cfg, s, l);
    if l.Send? { assert MaySend(cfg, s.workers[l.j].stage, Outbox(s.workers[l.j].hand)[0].chan); }
  }

  lemma AggregatorWindsUp(cfg: Config, s: State, l: Label, j: nat)
    requires Control(cfg, s) && Tidy(cfg, s) && IsWorker(l) && WorkerEnabled(cfg, s, l)
    requires j < |s.workers| && s.workers[j].stage.Aggregating?
    ensures var s' := WorkerStep(cfg, s, l);
            && |s'.workers| == |s.workers| && s'.workers[j].stage == s.workers[j].stage
            && (Flushed(s'.log, s.workers[j].stage.i) <==> WindsUp(s'.workers[j].hand))
  {
    hide Crew, OnTime, ClosedInOrder, Drained, Addressed, WorkerEnabled, WorkerStep, NewHand, NewEntry, Flushed,
         FlushIsLast, LogOk;
    WorkerLog(cfg, s, l);
    EnabledWorker(cfg, s, l);
    LogOrder(cfg, s, l, s.workers[j].stage.i);
    HandChange(cfg, s, l);
    if s.workers[l.j].stage == s.workers[j].stage { OneAggregator(cfg, s, j, l.j); }
  }

  lemma CallerLog(cfg: Config, s: State, l: Label)
    requires !IsWorker(l) && Enabled(cfg, s, l)
    ensures var s' := Apply(cfg, s, l);
            && s'.workers == s.workers && s'.log == s.log
            && (forall m: Msg :: !InUse(cfg, m.chan) ==> s'.sent[m] == s.sent[m])
            && (forall m: Msg :: m.chan.CAgg? ==> s'.external[m] == s.external[m])
  {
    hide Gone, Room, Q;
  }

  lemma TidyCaller(cfg: Config, s: State, l: Label)
    requires Tidy(cfg, s) && !IsWorker(l) && Enabled(cfg, s, l)
    ensures Tidy(cfg, Apply(cfg, s, l))
  {
    hide Enabled, Apply, LogOk, FlushIsLast, Flushed;
    CallerLog(cfg, s, l);
  }

  // ---------- runs ----------

  ghost predicate Inv(cfg: Config, s: State)
  {
    Control(cfg, s) && Tidy(cfg, s) && forall m: Msg :: Kept(s, m) && Delivered(s, m)
  }

  lemma InvKept(cfg: Config, s: State, l: Label)
    requires Inv(cfg, s) && Enabled(cfg, s, l)
    ensures Inv(cfg, Apply(cfg, s, l))
  {
    hide Control, Tidy, Kept, Delivered, WorkerEnabled, WorkerStep;
    ControlKept(cfg, s, l);
    var s' := Apply(cfg, s, l);
    if IsWorker(l) { TidyWorker(cfg, s, l); } else { TidyCaller(cfg, s, l); }
    forall m: Msg ensures Kept(s', m) && Delivered(s', m) {
      if IsWorker(l) { WorkerCounts(cfg, s, l, m); } else { CallerCounts(cfg, s, l, m); }
    }
  }

  /** Before anything has happened: every worker waits, every channel is open and empty. */
  predicate Begins(cfg: Config, s: State)
  {
    && s == State(0, false, {}, map[], s.workers, multiset{}, multiset{}, []) && Crew(cfg, s)
    && forall j :: 0 <= j < |s.workers| ==> s.workers[j].hand.Waiting?
  }

  lemma InvBegins(cfg: Config, s: State)
    requires Begins(cfg, s)
    ensures Inv(cfg, s)
  {
    hide Crew;
    forall m: Msg ensures Kept(s, m) && Delivered(s, m) {
      SumAtMost(Pending(m), s.workers, 0);
    }
  }

  predicate IsRun(cfg: Config, s: State, run: seq<Label>)
    decreases |run|
  {
    run == [] || (Enabled(cfg, s, run[0]) && IsRun(cfg, Apply(cfg, s, run[0]), run[1..]))
  }

  function Reach(cfg: Config, s: State, run: seq<Label>): State
    requires IsRun(cfg, s, run)
    decreases |run|
  {
    if run == [] then s else Reach(cfg, Apply(cfg, s, run[0]), run[1..])
  }

  lemma {:induction false} RunKeeps(cfg: Config, s: State, run: seq<Label>)
    requires Inv(cfg, s) && IsRun(cfg, s, run)
    ensures Inv(cfg, Reach(cfg, s, run))
    decreases |run|
  {
    hide Inv, Enabled, Apply;
    if run != [] {
      InvKept(cfg, s, run[0]);
      RunKeeps(cfg, Apply(cfg, s, run[0]), run[1..]);
    }
  }

  lemma ChannelEmpty(cfg: Config, s: State, c: Chan)
    requires Control(cfg, s) && s.pc == 7 && InUse(cfg, c)
    ensures Q(s, c) == []
  {
    hide ClosedInOrder, Addressed, Q;
    assert Staffed(s, StageOf(c));
    var j :| 0 <= j < |s.workers| && s.workers[j].stage == StageOf(c);
  }

  lemma AllReturned(cfg: Config, s: State)
    requires Control(cfg, s) && s.pc == 7
    ensures forall j :: 0 <= j < |s.workers| ==> s.workers[j].hand.Returned?
  {
    hide Crew, ClosedInOrder, Addressed, Drained;
  }

  /** Nothing is left anywhere: what went in was taken, what was made went in. */
  predicate NothingLeft(s: State, m: Msg)
  {
    TakenCount(s.log, m) == s.sent[m] && s.sent[m] == s.external[m] + MadeCount(s.log, m)
  }

  /**
   * Every run: no send on a closed channel and no channel closed twice; a channel is closed only after its senders.
   * When the run ends every worker has returned; every event that entered a channel was taken out once and passed
   * on, absorbed or logged, as its stage may; everything made on the way entered a channel; and every aggregator was
   * flushed once, after the last event it took.
   */
  lemma DrainLosesNothing(cfg: Config, start: State, run: seq<Label>)
    requires Begins(cfg, start) && IsRun(cfg, start, run)
    ensures var s := Reach(cfg, start, run);
            && !s.panicked && ClosedAfterSenders(cfg, s) && LogOk(cfg, s.log)
            && (s.pc == 7 ==>
                  && (forall j :: 0 <= j < |s.workers| ==> s.workers[j].hand.Returned?)
                  && (forall m: Msg :: NothingLeft(s, m))
                  && (forall i: nat :: i < cfg.aggregators ==> Flushed(s.log, i) && FlushIsLast(s.log, i)))
  {
    hide Reach, IsRun, Begins, LogOk, FlushIsLast, Flushed, NothingLeft, ClosedAfterSenders;
    InvBegins(cfg, start);
    RunKeeps(cfg, start, run);
    var s := Reach(cfg, start, run);
    SendersFirst(cfg, s);
    if s.pc == 7 { Ended(cfg, s); }
  }

  lemma Ended(cfg: Config, s: State)
    requires Inv(cfg, s) && s.pc == 7
    ensures forall j :: 0 <= j < |s.workers| ==> s.workers[j].hand.Returned?
    ensures forall m: Msg :: NothingLeft(s, m)
    ensures forall i: nat :: i < cfg.aggregators ==> Flushed(s.log, i) && FlushIsLast(s.log, i)
  {
    hide LogOk, FlushIsLast, Flushed, NothingLeft, Kept, Delivered;
    AllReturned(cfg, s);
    forall m: Msg ensures NothingLeft(s, m) {
      EndedCounts(cfg, s, m);
    }
    forall i: nat | i < cfg.aggregators ensures Flushed(s.log, i) {
      AggregatorFlushed(cfg, s, i);
    }
  }

  lemma AggregatorFlushed(cfg: Config, s: State, i: nat)
    requires Crew(cfg, s) && Tidy(cfg, s) && i < cfg.aggregators
    requires forall j :: 0 <= j < |s.workers| ==> s.workers[j].hand.Returned?
    ensures Flushed(s.log, i)
  {
    hide Flushed, FlushIsLast, LogOk;
    assert Staffed(s, Aggregating(i));
    var j :| 0 <= j < |s.workers| && s.workers[j].stage == Aggregating(i);
  }

  lemma EndedCounts(cfg: Config, s: State, m: Msg)
    requires Control(cfg, s) && Tidy(cfg, s) && s.pc == 7 && Kept(s, m) && Delivered(s, m)
    requires forall j :: 0 <= j < |s.workers| ==> s.workers[j].hand.Returned?
    ensures NothingLeft(s, m)
  {
    hide Control, Flushed, FlushIsLast, LogOk, TakenCount, MadeCount;
    SumAtMost(Pending(m), s.workers, 0);
    if InUse(cfg, m.chan) { ChannelEmpty(cfg, s, m.chan); }
  }
}
