/** In what order events move through the pipeline, and which stage they move to. */
module PipelineOrder {
  import opened Bytes
  import opened Pipeline
  import opened PipelineRuns

  // ---------- channels ----------

  /** What a step puts into channel `c`. */
  function PutBy(s: State, l: Label, c: Chan): seq<Item>
  {
    match l
    case Accept(x) => if c == CDecode then [x] else []
    case InitEmit(m) => if c == m.chan then [m.item] else []
    case Send(j) =>
      if j < |s.workers| && Outbox(s.workers[j].hand) != [] && Outbox(s.workers[j].hand)[0].chan == c
        then [Outbox(s.workers[j].hand)[0].item] else []
    case _ => []
  }

  /** What a run puts into channel `c`, in order. */
  function Puts(cfg: Config, s: State, run: seq<Label>, c: Chan): seq<Item>
    requires IsRun(cfg, s, run)
    decreases |run|
  {
    if run == [] then [] else PutBy(s, run[0], c) + Puts(cfg, Apply(cfg, s, run[0]), run[1..], c)
  }

  /** What was taken out of channel `c`, in order. */
  function TakenFrom(log: seq<Entry>, c: Chan): seq<Item>
  {
    if log == [] then []
    else
      var e := log[|log| - 1];
      TakenFrom(log[..|log| - 1], c) + (if e.Taken? && e.msg.chan == c then [e.msg.item] else [])
  }

  lemma TakenSnoc(log: seq<Entry>, e: Entry, c: Chan)
    ensures TakenFrom(log + [e], c)
            == TakenFrom(log, c) + (if e.Taken? && e.msg.chan == c then [e.msg.item] else [])
  {
    assert (log + [e])[..|log|] == log;
  }

  lemma TakeOrder(cfg: Config, s: State, l: Label, c: Chan)
    requires l.Take? && WorkerEnabled(cfg, s, l)
    ensures var s' := WorkerStep(cfg, s, l);
            TakenFrom(s.log, c) + Q(s, c) == TakenFrom(s'.log, c) + Q(s', c)
  {
    hide TakenFrom, Lawful, Outputs, MaySend, RouteOf;
    var d := Input(s.workers[l.j].stage);
    TakenSnoc(s.log, Taken(Msg(d, Q(s, d)[0]), l.outcome), c);
    if c == d {
      Assoc(TakenFrom(s.log, c), [Q(s, c)[0]], Q(s, c)[1..]);
    } else {
      Empty(TakenFrom(s.log, c));
    }
  }

  lemma PutOrder(s: State, m: Msg, c: Chan)
    ensures var s' := Put(s, m); s'.log == s.log && Q(s', c) == Q(s, c) + (if m.chan == c then [m.item] else [])
  {
    Empty(Q(s, c));
  }

  lemma QueuesStay(cfg: Config, s: State, l: Label)
    requires IsWorker(l) && !l.Take? && !l.Send? && WorkerEnabled(cfg, s, l)
    ensures WorkerStep(cfg, s, l).queue == s.queue
  {
    hide Lawful, Outputs, MaySend;
  }

  lemma NothingTaken(s: State, l: Label, c: Chan)
    requires IsWorker(l) && l.j < |s.workers| && !l.Take?
    ensures TakenFrom(s.log + NewEntry(s, l), c) == TakenFrom(s.log, c)
  {
    hide TakenFrom, Q;
    var es := NewEntry(s, l);
    Empty(s.log);
    Empty(TakenFrom(s.log, c));
    if es != [] { TakenSnoc(s.log, es[0], c); }
  }

  lemma StepKeepsOrder(cfg: Config, s: State, l: Label, c: Chan)
    requires Enabled(cfg, s, l)
    ensures var s' := Apply(cfg, s, l);
            TakenFrom(s.log, c) + (Q(s, c) + PutBy(s, l, c)) == TakenFrom(s'.log, c) + Q(s', c)
  {
    hide TakenFrom, WorkerEnabled, WorkerStep, Put, Room, Gone, Q;
    Empty(Q(s, c));
    if !IsWorker(l) {
      CallerOrder(cfg, s, l, c);
    } else if l.Take? {
      TakeOrder(cfg, s, l, c);
    } else {
      WorkerLog(cfg, s, l);
      EnabledWorker(cfg, s, l);
      NothingTaken(s, l, c);
      if l.Send? { SendOrder(cfg, s, l, c); } else { QueuesStay(cfg, s, l); SameQ(s, WorkerStep(cfg, s, l), c); }
    }
  }

  lemma SameQ(s: State, s': State, c: Chan)
    requires s'.queue == s.queue
    ensures Q(s', c) == Q(s, c)
  {
  }

  lemma SendOrder(cfg: Config, s: State, l: Label, c: Chan)
    requires l.Send? && WorkerEnabled(cfg, s, l)
    ensures Q(WorkerStep(cfg, s, l), c) == Q(s, c) + PutBy(s, l, c)
  {
    hide Put, Room, Lawful, Q;
    var h := s.workers[l.j].hand;
    var turned := Turn(s, l.j, WithOutbox(h, Outbox(h)[1..]));
    PutOrder(turned, Outbox(h)[0], c);
    SameQ(s, turned, c);
  }

  lemma CallerOrder(cfg: Config, s: State, l: Label, c: Chan)
    requires Enabled(cfg, s, l) && !IsWorker(l)
    ensures var s' := Apply(cfg, s, l); s'.log == s.log && Q(s', c) == Q(s, c) + PutBy(s, l, c)
  {
    hide Put, Room, Gone, Q;
    Empty(Q(s, c));
    var s' := Apply(cfg, s, l);
    match l {
      case Accept(x) => PutOrder(s, Msg(CDecode, x), c); SameQ(Put(s, Msg(CDecode, x)), s', c);
      case InitEmit(m) => PutOrder(s, m, c); SameQ(Put(s, m), s', c);
      case _ => SameQ(s, s', c);
    }
  }

  lemma {:induction false} RunKeepsOrder(cfg: Config, s: State, run: seq<Label>, c: Chan)
    requires IsRun(cfg, s, run)
    ensures var s' := Reach(cfg, s, run);
            TakenFrom(s.log, c) + (Q(s, c) + Puts(cfg, s, run, c)) == TakenFrom(s'.log, c) + Q(s', c)
    decreases |run|
  {
    hide TakenFrom, Enabled, Apply, Q, PutBy;
    if run == [] {
      Empty(Q(s, c));
    } else {
      var s' := Apply(cfg, s, run[0]);
      var put, later := PutBy(s, run[0], c), Puts(cfg, s', run[1..], c);
      StepKeepsOrder(cfg, s, run[0], c);
      RunKeepsOrder(cfg, s', run[1..], c);
      Assoc(Q(s, c), put, later);
      Assoc(TakenFrom(s.log, c), Q(s, c) + put, later);
      Assoc(TakenFrom(s'.log, c), Q(s', c), later);
    }
  }

  /** Every channel is first in, first out: what was put in it is what was taken out, then what still waits. */
  lemma FirstInFirstOut(cfg: Config, start: State, run: seq<Label>, c: Chan)
    requires Begins(cfg, start) && IsRun(cfg, start, run)
    ensures var s := Reach(cfg, start, run); Puts(cfg, start, run, c) == TakenFrom(s.log, c) + Q(s, c)
  {
    hide IsRun, Reach, Puts, Crew;
    RunKeepsOrder(cfg, start, run, c);
    Empty(Puts(cfg, start, run, c));
  }

  // ---------- workers ----------

  /** What a step makes worker `j` send, and what worker `j` sends in it. */
  function MadeIn(l: Label, j: nat): seq<Msg>
  {
    match l
    case Take(k, o) => if k == j then OutsOf(o) else []
    case Tick(k, outs) => if k == j then outs else []
    case BeginClose(k, outs) => if k == j then outs else []
    case _ => []
  }

  function SentIn(s: State, l: Label, j: nat): seq<Msg>
  {
    if l == Send(j) && j < |s.workers| && Outbox(s.workers[j].hand) != [] then [Outbox(s.workers[j].hand)[0]] else []
  }

  function Made(cfg: Config, s: State, run: seq<Label>, j: nat): seq<Msg>
    requires IsRun(cfg, s, run)
    decreases |run|
  {
    if run == [] then [] else MadeIn(run[0], j) + Made(cfg, Apply(cfg, s, run[0]), run[1..], j)
  }

  function Sent(cfg: Config, s: State, run: seq<Label>, j: nat): seq<Msg>
    requires IsRun(cfg, s, run)
    decreases |run|
  {
    if run == [] then [] else SentIn(s, run[0], j) + Sent(cfg, Apply(cfg, s, run[0]), run[1..], j)
  }

  lemma SendInOrder(cfg: Config, s: State, l: Label)
    requires l.Send? && WorkerEnabled(cfg, s, l)
    ensures Outbox(s.workers[l.j].hand) == SentIn(s, l, l.j) + Outbox(NewHand(s, l))
  {
    hide Lawful, Outputs, MaySend, Room, Q;
  }

  lemma OthersInOrder(cfg: Config, s: State, l: Label)
    requires IsWorker(l) && !l.Send? && WorkerEnabled(cfg, s, l)
    ensures Outbox(NewHand(s, l)) == if l.CloseAgg? then Outbox(s.workers[l.j].hand) else MadeIn(l, l.j)
    ensures !l.CloseAgg? ==> Outbox(s.workers[l.j].hand) == []
  {
    hide Lawful, Outputs, MaySend, Room, Q;
  }

  lemma HandInOrder(cfg: Config, s: State, l: Label)
    requires IsWorker(l) && WorkerEnabled(cfg, s, l)
    ensures Outbox(s.workers[l.j].hand) + MadeIn(l, l.j) == SentIn(s, l, l.j) + Outbox(NewHand(s, l))
  {
    hide Lawful, Outputs, MaySend, Room, Q, NewHand, Outbox;
    Empty(Outbox(s.workers[l.j].hand));
    Empty(Outbox(NewHand(s, l)));
    if l.Send? { SendInOrder(cfg, s, l); } else { OthersInOrder(cfg, s, l); }
  }

  lemma WorkerInOrder(cfg: Config, s: State, l: Label, j: nat)
    requires Enabled(cfg, s, l) && j < |s.workers|
    ensures var s' := Apply(cfg, s, l);
            && |s'.workers| == |s.workers|
            && Outbox(s.workers[j].hand) + MadeIn(l, j) == SentIn(s, l, j) + Outbox(s'.workers[j].hand)
  {
    hide WorkerEnabled, WorkerStep, NewHand, Outbox, Gone, Room, Put, Close;
    Empty(Outbox(s.workers[j].hand));
    if IsWorker(l) {
      EnabledWorker(cfg, s, l);
      WorkerLog(cfg, s, l);
      HandInOrder(cfg, s, l);
    } else {
      CallerLog(cfg, s, l);
    }
  }

  lemma {:induction false} RunInOrder(cfg: Config, s: State, run: seq<Label>, j: nat)
    requires IsRun(cfg, s, run) && j < |s.workers|
    ensures var s' := Reach(cfg, s, run);
            && |s'.workers| == |s.workers|
            && Outbox(s.workers[j].hand) + Made(cfg, s, run, j)
               == Sent(cfg, s, run, j) + Outbox(s'.workers[j].hand)
    decreases |run|
  {
    hide Enabled, Apply, MadeIn, SentIn, Outbox;
    if run == [] {
      Empty(Outbox(s.workers[j].hand));
    } else {
      var s', l := Apply(cfg, s, run[0]), run[0];
      var made, sent := Made(cfg, s', run[1..], j), Sent(cfg, s', run[1..], j);
      WorkerInOrder(cfg, s, l, j);
      RunInOrder(cfg, s', run[1..], j);
      Assoc(Outbox(s.workers[j].hand), MadeIn(l, j), made);
      Assoc(SentIn(s, l, j), Outbox(s'.workers[j].hand), made);
      Assoc(SentIn(s, l, j), sent, Outbox(Reach(cfg, s, run).workers[j].hand));
    }
  }

  /** Every worker sends the events it makes in the order it made them. */
  lemma SendsInOrder(cfg: Config, start: State, run: seq<Label>, j: nat)
    requires Begins(cfg, start) && IsRun(cfg, start, run) && j < |start.workers|
    ensures var s := Reach(cfg, start, run);
            && |s.workers| == |start.workers|
            && Made(cfg, start, run, j) == Sent(cfg, start, run, j) + Outbox(s.workers[j].hand)
  {
    hide IsRun, Reach, Made, Sent, Crew;
    RunInOrder(cfg, start, run, j);
    Empty(Made(cfg, start, run, j));
  }

  // ---------- stages ----------

  predicate AllTo(outs: seq<Msg>, c: Chan)
  {
    forall k :: 0 <= k < |outs| ==> outs[k].chan == c
  }

  /**
   * In every run the decoder feeds the processors, the processors the router or, without aggregators, the encoders,
   * the aggregators and their timers the encoders, and the encoders nothing; only aggregators absorb events, and the
   * router loses none.
   */
  lemma EveryStageFeedsTheNext(cfg: Config, start: State, run: seq<Label>, k: nat)
    requires Begins(cfg, start) && IsRun(cfg, start, run) && k < |Reach(cfg, start, run).log|
    ensures var e := Reach(cfg, start, run).log[k];
            && (e.Taken? && e.msg.chan == CDecode ==> AllTo(MadeBy(e), CProcess))
            && (e.Taken? && e.msg.chan == CProcess ==>
                AllTo(MadeBy(e), if cfg.aggregators > 0 then CRoute else CEncode))
            && (e.Taken? && e.msg.chan == CEncode ==> MadeBy(e) == [])
            && (e.Taken? && e.outcome.Absorbed? ==> e.msg.chan.CAgg?)
            && (e.Taken? && e.outcome.Logged? ==> e.msg.chan != CRoute)
            && (!e.Taken? || e.msg.chan.CAgg? ==> AllTo(MadeBy(e), CEncode))
  {
    hide IsRun, Reach, Begins, RouteOf, ClosedAfterSenders, NothingLeft, Flushed, FlushIsLast;
    DrainLosesNothing(cfg, start, run);
    var e := Reach(cfg, start, run).log[k];
    assert EntryOk(cfg, e);
  }
}
