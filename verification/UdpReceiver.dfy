/**
 * The UDP receiver as a system of steps: receivers, workers and one caller of Start and Stop interleave
 * freely over a dispatch channel and a pool of reused packet buffers.
 */
module UdpReceiver {
  import opened Bytes
  import opened Sums

  type Buf = nat

  datatype Config = Config(sockets: int, workers: int, blocking: bool, queueSize: nat)

  /** The defaults NewUDPReceiver applies. */
  function Normalize(cfg: Option<Config>): (r: Config)
    ensures r.sockets >= 1 && r.workers >= 1
    ensures cfg.Some? ==> r.blocking == cfg.value.blocking && r.queueSize == cfg.value.queueSize
    ensures cfg.Some? && cfg.value.sockets >= 1 ==> r.sockets == cfg.value.sockets
    ensures cfg.Some? && cfg.value.workers >= 1 ==> r.workers == cfg.value.workers
    ensures cfg.Some? && cfg.value.workers <= 0 ==> r.workers == r.sockets
  {
    match cfg
    case None => Config(2, 2, false, 1000000)
    case Some(c) =>
      var sockets := if c.sockets <= 0 then 1 else c.sockets;
      Config(sockets, if c.workers <= 0 then sockets else c.workers, c.blocking, c.queueSize)
  }

  datatype Phase = Idle | Starting | Started | Stopping | Draining

  /** Where a receiver is: before taking a buffer, in the read, in the select, or returned. */
  datatype Receiver = Ready | Reading(buf: Buf) | Sending(buf: Buf) | Exited | GaveUp

  datatype Socket = Socket(at: Receiver, closed: bool)

  /** Where a worker is: before the channel receive, parked in it, in the decoder, or returned. */
  datatype Worker = Running | Parked | Handling(buf: Buf) | Done

  /**
   * `memory` is what each buffer holds: a queue entry only refers to it. `nonempty`, `handled`, `dropped`
   * and `abandoned` record the packets read, decoded, reported to the callback, and let go by the stop branch;
   * `before` counts those abandoned by earlier sessions.
   */
  datatype State = State(
    phase: Phase, stopClosed: bool, dispatchClosed: bool, panicked: bool,
    sockets: seq<Socket>, workers: seq<Worker>, queue: seq<Buf>,
    pool: multiset<Buf>, next: Buf, memory: map<Buf, bytes>,
    nonempty: multiset<bytes>, handled: multiset<bytes>, dropped: multiset<bytes>, abandoned: multiset<bytes>,
      before: nat)

  function Init(): State
  {
    State(Idle, false, false, false, [], [], [], multiset{}, 0, map[],
          multiset{}, multiset{}, multiset{}, multiset{}, 0)
  }

  function Cell(memory: map<Buf, bytes>, b: Buf): bytes
  {
    if b in memory then memory[b] else []
  }

  // ---------- steps ----------

  datatype Label =
    | Start
    | OpenSocket
    | SocketFails
    | StartReturns
    | Stop
    | CloseConn(i: nat)
    | CloseDispatch
    | StopReturns
    | FetchPooled(i: nat, buf: Buf)
    | FetchNew(i: nat)
    | ReadPacket(i: nat, packet: bytes)
    | ReadError(i: nat)
    | Send(i: nat)
    | Hand(i: nat, j: nat)
    | GiveUp(i: nat)
    | Drop(i: nat)
    | Park(j: nat)
    | Take(j: nat)
    | Finish(j: nat)
    | WorkerReturns(j: nat)

  /** A send that would go through now: on a closed channel it does, and panics. */
  predicate CanSend(cfg: Config, s: State)
  {
    || s.dispatchClosed
    || (if cfg.queueSize == 0 then exists j :: 0 <= j < |s.workers| && s.workers[j].Parked?
        else |s.queue| < cfg.queueSize)
  }

  predicate Enabled(cfg: Config, s: State, l: Label)
  {
    !s.panicked &&
    match l
    case Start => s.phase == Idle
    case OpenSocket => s.phase == Starting && |s.sockets| < cfg.sockets
    case SocketFails => s.phase == Starting && |s.sockets| < cfg.sockets
    case StartReturns => s.phase == Starting && |s.sockets| >= cfg.sockets
    case Stop => s.phase == Started
    case CloseConn(i) => i < |s.sockets| && s.stopClosed && !s.sockets[i].closed
    case CloseDispatch => s.phase == Stopping && forall i :: 0 <= i < |s.sockets| ==> Returned(s.sockets[i].at)
    case StopReturns => s.phase == Draining && forall j :: 0 <= j < |s.workers| ==> s.workers[j].Done?
    case FetchPooled(i, b) => i < |s.sockets| && s.sockets[i].at.Ready? && b in s.pool
    case FetchNew(i) => i < |s.sockets| && s.sockets[i].at.Ready?
    case ReadPacket(i, _) => i < |s.sockets| && s.sockets[i].at.Reading? && !s.sockets[i].closed
    case ReadError(i) => i < |s.sockets| && s.sockets[i].at.Reading?
    case Send(i) => i < |s.sockets| && s.sockets[i].at.Sending? && (s.dispatchClosed || |s.queue| < cfg.queueSize)
    case Hand(i, j) => i < |s.sockets| && s.sockets[i].at.Sending? && !s.dispatchClosed && cfg.queueSize == 0
                       && j < |s.workers| && s.workers[j].Parked?
    case GiveUp(i) => i < |s.sockets| && s.sockets[i].at.Sending? && s.stopClosed
    case Drop(i) => i < |s.sockets| && s.sockets[i].at.Sending? && !cfg.blocking && !s.stopClosed && !CanSend(cfg, s)
    case Park(j) => j < |s.workers| && s.workers[j].Running?
    case Take(j) => j < |s.workers| && s.workers[j].Parked? && s.queue != []
    case Finish(j) => j < |s.workers| && s.workers[j].Handling?
    case WorkerReturns(j) => j < |s.workers| && s.workers[j].Parked? && s.queue == [] && s.dispatchClosed
  }

  predicate Returned(r: Receiver)
  {
    r.Exited? || r.GaveUp?
  }

  function Move(s: State, i: nat, at: Receiver): State
    requires i < |s.sockets|
  {
    s.(sockets := s.sockets[i := Socket(at, s.sockets[i].closed || Returned(at))])
  }

  function Turn(s: State, j: nat, w: Worker): State
    requires j < |s.workers|
  {
    s.(workers := s.workers[j := w])
  }

  function Apply(cfg: Config, s: State, l: Label): State
    requires cfg.workers >= 0 && Enabled(cfg, s, l)
  {
    match l
    case Start => s.(phase := Starting, workers := seq(cfg.workers, _ => Running), before := |s.abandoned|)
    case OpenSocket => s.(sockets := s.sockets + [Socket(Ready, false)])
    case SocketFails => s.(phase := Stopping, stopClosed := true)
    case StartReturns => s.(phase := Started)
    case Stop => s.(phase := Stopping, stopClosed := true)
    case CloseConn(i) => s.(sockets := s.sockets[i := Socket(s.sockets[i].at, true)])
    case CloseDispatch => s.(phase := Draining, dispatchClosed := true, panicked := s.dispatchClosed)
    case StopReturns => s.(phase := Idle, stopClosed := false, dispatchClosed := false, sockets := [], workers := [],
                           queue := [])
    case FetchPooled(i, b) => Move(s, i, Reading(b)).(pool := s.pool - multiset{b})
    case FetchNew(i) => Move(s, i, Reading(s.next)).(next := s.next + 1, memory := s.memory[s.next := []])
    case ReadPacket(i, p) =>
      var b := s.sockets[i].at.buf;
      if p == [] then Move(s, i, Ready)
      else Move(s, i, Sending(b)).(memory := s.memory[b := p], nonempty := s.nonempty + multiset{p})
    case ReadError(i) => Move(s, i, Exited).(pool := s.pool + multiset{s.sockets[i].at.buf})
    case Send(i) => Move(s, i, Ready).(queue := s.queue + [s.sockets[i].at.buf], panicked := s.dispatchClosed)
    case Hand(i, j) => Turn(Move(s, i, Ready), j, Handling(s.sockets[i].at.buf))
    case GiveUp(i) => Move(s, i, GaveUp).(abandoned := s.abandoned + multiset{Cell(s.memory, s.sockets[i].at.buf)})
    case Drop(i) =>
      var b := s.sockets[i].at.buf;
      Move(s, i, Ready).(dropped := s.dropped + multiset{Cell(s.memory, b)}, pool := s.pool + multiset{b})
    case Park(j) => Turn(s, j, Parked)
    case Take(j) => Turn(s, j, Handling(s.queue[0])).(queue := s.queue[1..])
    case Finish(j) =>
      var b := s.workers[j].buf;
      Turn(s, j, Running).(handled := s.handled + multiset{Cell(s.memory, b)}, pool := s.pool + multiset{b})
    case WorkerReturns(j) => Turn(s, j, Done)
  }

  // ---------- control ----------

  /**
   * The order of closing: dispatch is closed only once every receiver has returned, workers return only once it is
   * empty.
   */
  predicate Control(cfg: Config, s: State)
  {
    && !s.panicked
    && (s.stopClosed <==> s.phase == Stopping || s.phase == Draining)
    && (s.dispatchClosed <==> s.phase == Draining)
    && (s.phase == Idle ==> s.sockets == [] && s.workers == [] && s.queue == [])
    && (s.phase != Idle ==> |s.workers| == cfg.workers)
    && |s.sockets| <= cfg.sockets
    && |s.queue| <= cfg.queueSize
    && (s.dispatchClosed ==> forall i :: 0 <= i < |s.sockets| ==> Returned(s.sockets[i].at))
    && (forall j :: 0 <= j < |s.workers| && s.workers[j].Done? ==> s.dispatchClosed && s.queue == [])
    && (forall i :: 0 <= i < |s.sockets| && Returned(s.sockets[i].at) ==> s.sockets[i].closed)
    && (cfg.blocking ==> s.dropped == multiset{})
  }

  lemma ControlKept(cfg: Config, s: State, l: Label)
    requires cfg.workers >= 1 && cfg.sockets >= 1 && Control(cfg, s) && Enabled(cfg, s, l)
    ensures Control(cfg, Apply(cfg, s, l))
  {
    hide *;
    if IsWorkers(l) { ControlWorker(cfg, s, l); }
      else { if IsReceivers(l) { ControlReceiver(cfg, s, l); } else { ControlCaller(cfg, s, l); } }
  }

  predicate IsWorkers(l: Label)
  {
    l.Park? || l.Take? || l.Finish? || l.WorkerReturns? || l.Hand?
  }

  predicate IsReceivers(l: Label)
  {
    l.FetchPooled? || l.FetchNew? || l.ReadPacket? || l.ReadError? || l.Send? || l.GiveUp? || l.Drop?
  }

  lemma ControlWorker(cfg: Config, s: State, l: Label)
    requires cfg.workers >= 1 && Control(cfg, s) && Enabled(cfg, s, l) && IsWorkers(l)
    ensures Control(cfg, Apply(cfg, s, l))
  {
    hide CanSend, Cell;
  }

  /** While a receiver is still at work the dispatch channel is open, so moving it on keeps the order of closing. */
  lemma ControlMoved(cfg: Config, s: State, s': State, i: nat, at: Receiver)
    requires Control(cfg, s) && i < |s.sockets| && !Returned(s.sockets[i].at)
    requires s'.sockets == Move(s, i, at).sockets && s'.workers == s.workers && |s'.queue| <= cfg.queueSize
    requires s'.phase == s.phase && s'.stopClosed == s.stopClosed && s'.dispatchClosed == s.dispatchClosed
    requires s'.panicked == s.dispatchClosed && (s'.dropped == s.dropped || !cfg.blocking)
    ensures !s.dispatchClosed && Control(cfg, s')
  {
    assert !s.dispatchClosed;
  }

  /** Where a receiver's step takes it. */
  function Target(s: State, l: Label): Receiver
    requires IsReceivers(l) && l.i < |s.sockets| && !Returned(s.sockets[l.i].at)
  {
    match l
    case FetchPooled(_, b) => Reading(b)
    case FetchNew(_) => Reading(s.next)
    case ReadPacket(i, p) => if p == [] || s.sockets[i].at.Ready? then Ready else Sending(s.sockets[i].at.buf)
    case ReadError(_) => Exited
    case GiveUp(_) => GaveUp
    case _ => Ready
  }

  /** What a receiver's step touches besides its own place. */
  lemma ReceiverShape(cfg: Config, s: State, l: Label)
    requires cfg.workers >= 1 && Enabled(cfg, s, l) && IsReceivers(l)
    ensures l.i < |s.sockets| && !Returned(s.sockets[l.i].at)
    ensures var s' := Apply(cfg, s, l);
            && s'.sockets == Move(s, l.i, Target(s, l)).sockets && s'.workers == s.workers && s'.phase == s.phase
            && s'.stopClosed == s.stopClosed && s'.dispatchClosed == s.dispatchClosed && s'.before == s.before
            && |s'.queue| == |s.queue| + (if l.Send? then 1 else 0) && s'.panicked == (l.Send? && s.dispatchClosed)
            && |s'.abandoned| == |s.abandoned| + (if l.GiveUp? then 1 else 0)
            && (s'.dropped == s.dropped || (!cfg.blocking && !s.stopClosed))
    ensures l.Send? ==> s.sockets[l.i].at.Sending? && (s.dispatchClosed || |s.queue| < cfg.queueSize)
    ensures l.Drop? ==> !s.stopClosed
    ensures l.ReadPacket? ==> !s.sockets[l.i].closed
    ensures l.GiveUp? ==> s.sockets[l.i].at.Sending?
    ensures l.ReadError? ==> s.sockets[l.i].at.Reading?
    ensures l.FetchPooled? || l.FetchNew? ==> s.sockets[l.i].at.Ready?
  {
    hide CanSend, Cell;
  }

  lemma ControlReceiver(cfg: Config, s: State, l: Label)
    requires cfg.workers >= 1 && Control(cfg, s) && Enabled(cfg, s, l) && IsReceivers(l)
    ensures Control(cfg, Apply(cfg, s, l))
  {
    hide Control, Enabled, Apply, Move, Target;
    ReceiverShape(cfg, s, l);
    ControlFacts(cfg, s, l.i);
    ControlMoved(cfg, s, Apply(cfg, s, l), l.i, Target(s, l));
  }

  lemma ControlFacts(cfg: Config, s: State, i: nat)
    requires Control(cfg, s) && i < |s.sockets| && !Returned(s.sockets[i].at)
    ensures !s.dispatchClosed && |s.queue| <= cfg.queueSize
  {
  }

  lemma ControlCaller(cfg: Config, s: State, l: Label)
    requires cfg.workers >= 1 && cfg.sockets >= 1 && Control(cfg, s) && Enabled(cfg, s, l)
    requires !IsWorkers(l) && !IsReceivers(l)
    ensures Control(cfg, Apply(cfg, s, l))
  {
    hide CanSend, Cell;
  }

  // ---------- ownership ----------

  function ReceiverRefs(b: Buf): Socket -> nat
  {
    (t: Socket) => if (t.at.Reading? || t.at.Sending?) && t.at.buf == b then 1 else 0
  }

  function QueueRefs(b: Buf): Buf -> nat
  {
    (c: Buf) => if c == b then 1 else 0
  }

  function WorkerRefs(b: Buf): Worker -> nat
  {
    (w: Worker) => if w.Handling? && w.buf == b then 1 else 0
  }

  /** How many references to a buffer the receivers, the channel, the workers and the pool hold. */
  function Refs(s: State, b: Buf): nat
  {
    Sum(ReceiverRefs(b), s.sockets) + Sum(QueueRefs(b), s.queue) + Sum(WorkerRefs(b), s.workers) + s.pool[b]
  }

  /** At most one holder per buffer, and only buffers that were allocated. */
  ghost predicate Exclusive(s: State)
  {
    forall b: Buf :: Refs(s, b) <= (if b < s.next then 1 else 0)
  }

  // ---------- packets ----------

  function Holds(memory: map<Buf, bytes>, b: Buf, p: bytes): nat
  {
    if Cell(memory, b) == p then 1 else 0
  }

  function ReceiverHolds(memory: map<Buf, bytes>, p: bytes): Socket -> nat
  {
    (t: Socket) => if t.at.Sending? then Holds(memory, t.at.buf, p) else 0
  }

  function QueueHolds(memory: map<Buf, bytes>, p: bytes): Buf -> nat
  {
    (b: Buf) => Holds(memory, b, p)
  }

  function WorkerHolds(memory: map<Buf, bytes>, p: bytes): Worker -> nat
  {
    (w: Worker) => if w.Handling? then Holds(memory, w.buf, p) else 0
  }

  /** How many buffers on their way hold `p` now: read and not yet settled. */
  function InFlight(s: State, p: bytes): nat
  {
    Sum(ReceiverHolds(s.memory, p), s.sockets) + Sum(QueueHolds(s.memory, p), s.queue)
    + Sum(WorkerHolds(s.memory, p), s.workers)
  }

  function Settled(s: State, p: bytes): nat
  {
    s.handled[p] + s.dropped[p] + s.abandoned[p]
  }

  ghost predicate Balanced(s: State)
  {
    forall p: bytes :: s.nonempty[p] == InFlight(s, p) + Settled(s, p)
  }

  lemma MovedRefs(s: State, i: nat, at: Receiver, b: Buf)
    requires i < |s.sockets|
    ensures Refs(Move(s, i, at), b) + ReceiverRefs(b)(s.sockets[i]) == Refs(s, b) + ReceiverRefs(b)(Socket(at, false))
  {
    hide Sum;
    SumUpdate(ReceiverRefs(b), s.sockets, i, Socket(at, s.sockets[i].closed || Returned(at)));
  }

  lemma MovedPackets(s: State, i: nat, at: Receiver, p: bytes)
    requires i < |s.sockets|
    ensures InFlight(Move(s, i, at), p) + ReceiverHolds(s.memory, p)(s.sockets[i])
            == InFlight(s, p) + ReceiverHolds(s.memory, p)(Socket(at, false))
  {
    hide Sum;
    SumUpdate(ReceiverHolds(s.memory, p), s.sockets, i, Socket(at, s.sockets[i].closed || Returned(at)));
  }

  lemma Moved(s: State, i: nat, at: Receiver, b: Buf, p: bytes)
    requires i < |s.sockets|
    ensures Refs(Move(s, i, at), b) + ReceiverRefs(b)(s.sockets[i]) == Refs(s, b) + ReceiverRefs(b)(Socket(at, false))
    ensures InFlight(Move(s, i, at), p) + ReceiverHolds(s.memory, p)(s.sockets[i])
            == InFlight(s, p) + ReceiverHolds(s.memory, p)(Socket(at, false))
  {
    hide *;
    MovedRefs(s, i, at, b);
    MovedPackets(s, i, at, p);
  }

  lemma Turned(s: State, j: nat, w: Worker, b: Buf, p: bytes)
    requires j < |s.workers|
    ensures Refs(Turn(s, j, w), b) + WorkerRefs(b)(s.workers[j]) == Refs(s, b) + WorkerRefs(b)(w)
    ensures InFlight(Turn(s, j, w), p) + WorkerHolds(s.memory, p)(s.workers[j])
            == InFlight(s, p) + WorkerHolds(s.memory, p)(w)
  {
    hide Sum;
    SumUpdate(WorkerRefs(b), s.workers, j, w);
    SumUpdate(WorkerHolds(s.memory, p), s.workers, j, w);
  }

  /** Writing into a buffer that nobody holds changes no packet on its way. */
  lemma WriteFrame(s: State, b: Buf, content: bytes, p: bytes)
    requires Refs(s, b) == 0
    ensures InFlight(s.(memory := s.memory[b := content]), p) == InFlight(s, p)
  {
    var memory := s.memory[b := content];
    forall i | 0 <= i < |s.sockets|
      ensures ReceiverHolds(s.memory, p)(s.sockets[i]) == ReceiverHolds(memory, p)(s.sockets[i])
    {
      SumMember(ReceiverRefs(b), s.sockets, i);
    }
    forall i | 0 <= i < |s.queue| ensures QueueHolds(s.memory, p)(s.queue[i]) == QueueHolds(memory, p)(s.queue[i]) {
      SumMember(QueueRefs(b), s.queue, i);
    }
    forall j | 0 <= j < |s.workers|
      ensures WorkerHolds(s.memory, p)(s.workers[j]) == WorkerHolds(memory, p)(s.workers[j])
    {
      SumMember(WorkerRefs(b), s.workers, j);
    }
    SumSame(ReceiverHolds(s.memory, p), ReceiverHolds(memory, p), s.sockets);
    SumSame(QueueHolds(s.memory, p), QueueHolds(memory, p), s.queue);
    SumSame(WorkerHolds(s.memory, p), WorkerHolds(memory, p), s.workers);
  }

  /** One step copies no reference, apart from buffers it allocates, and loses no packet. */
  predicate Conserves(s: State, s': State, b: Buf, p: bytes)
  {
    && s.next <= s'.next
    && Refs(s', b) <= Refs(s, b) + (if s.next <= b < s'.next then 1 else 0)
    && s'.nonempty[p] + InFlight(s, p) + Settled(s, p) == s.nonempty[p] + InFlight(s', p) + Settled(s', p)
  }

  lemma FetchPooledStep(s: State, i: nat, c: Buf, b: Buf, p: bytes)
    requires i < |s.sockets| && s.sockets[i].at.Ready? && c in s.pool
    ensures Conserves(s, Move(s, i, Reading(c)).(pool := s.pool - multiset{c}), b, p)
  {
    hide Sum, Returned;
    Moved(s, i, Reading(c), b, p);
  }

  lemma FetchNewStep(s: State, i: nat, b: Buf, p: bytes)
    requires i < |s.sockets| && s.sockets[i].at.Ready? && Refs(s, s.next) == 0
    ensures Conserves(s, Move(s, i, Reading(s.next)).(next := s.next + 1, memory := s.memory[s.next := []]), b, p)
  {
    hide Sum, Returned;
    MovedRefs(s, i, Reading(s.next), b);
    WriteFrame(s, s.next, [], p);
    MovedPackets(s.(memory := s.memory[s.next := []]), i, Reading(s.next), p);
  }

  lemma ReadStep(s: State, i: nat, packet: bytes, b: Buf, p: bytes)
    requires i < |s.sockets| && s.sockets[i].at.Reading? && Refs(s, s.sockets[i].at.buf) <= 1
    ensures var c := s.sockets[i].at.buf;
            Conserves(s, Move(s, i, Sending(c)).(memory := s.memory[c := packet],
                                                 nonempty := s.nonempty + multiset{packet}), b, p)
  {
    hide Sum, Returned;
    var c := s.sockets[i].at.buf;
    MovedRefs(s, i, Sending(c), b);
    ReadPackets(s, i, packet, p);
  }

  /** The buffer a receiver reads into is on nobody else's way. */
  lemma ReadPackets(s: State, i: nat, packet: bytes, p: bytes)
    requires i < |s.sockets| && s.sockets[i].at.Reading? && Refs(s, s.sockets[i].at.buf) <= 1
    ensures var c := s.sockets[i].at.buf;
            InFlight(Move(s, i, Sending(c)).(memory := s.memory[c := packet]), p)
              == InFlight(s, p) + (if packet == p then 1 else 0)
  {
    hide Sum, Refs;
    var c := s.sockets[i].at.buf;
    var ready := Move(s, i, Ready);
    var written := ready.(memory := s.memory[c := packet]);
    MovedRefs(s, i, Ready, c);
    MovedPackets(s, i, Ready, p);
    WriteFrame(ready, c, packet, p);
    MovedPackets(written, i, Sending(c), p);
    assert Move(written, i, Sending(c)).sockets == Move(s, i, Sending(c)).sockets;
  }

  lemma ReadNothingStep(s: State, i: nat, b: Buf, p: bytes)
    requires i < |s.sockets| && s.sockets[i].at.Reading?
    ensures Conserves(s, Move(s, i, Ready), b, p)
  {
    hide Sum, Returned;
    Moved(s, i, Ready, b, p);
  }

  lemma ErrorStep(s: State, i: nat, b: Buf, p: bytes)
    requires i < |s.sockets| && s.sockets[i].at.Reading?
    ensures Conserves(s, Move(s, i, Exited).(pool := s.pool + multiset{s.sockets[i].at.buf}), b, p)
  {
    hide Sum, Returned;
    Moved(s, i, Exited, b, p);
  }

  lemma GiveUpStep(s: State, i: nat, b: Buf, p: bytes)
    requires i < |s.sockets| && s.sockets[i].at.Sending?
    ensures Conserves(s, Move(s, i, GaveUp).(abandoned := s.abandoned + multiset{Cell(s.memory, s.sockets[i].at.buf)}),
                      b, p)
  {
    hide Sum, Returned;
    Moved(s, i, GaveUp, b, p);
  }

  lemma DropStep(s: State, i: nat, b: Buf, p: bytes)
    requires i < |s.sockets| && s.sockets[i].at.Sending?
    ensures var c := s.sockets[i].at.buf;
            Conserves(s, Move(s, i, Ready).(dropped := s.dropped + multiset{Cell(s.memory, c)},
                                            pool := s.pool + multiset{c}), b, p)
  {
    hide Sum, Returned;
    Moved(s, i, Ready, b, p);
  }

  lemma SendStep(s: State, i: nat, panicked: bool, b: Buf, p: bytes)
    requires i < |s.sockets| && s.sockets[i].at.Sending?
    ensures Conserves(s, Move(s, i, Ready).(queue := s.queue + [s.sockets[i].at.buf], panicked := panicked), b, p)
  {
    hide Sum, Returned;
    Moved(s, i, Ready, b, p);
    SumAppend(QueueRefs(b), s.queue, s.sockets[i].at.buf);
    SumAppend(QueueHolds(s.memory, p), s.queue, s.sockets[i].at.buf);
  }

  lemma HandStep(s: State, i: nat, j: nat, b: Buf, p: bytes)
    requires i < |s.sockets| && s.sockets[i].at.Sending? && j < |s.workers| && s.workers[j].Parked?
    ensures Conserves(s, Turn(Move(s, i, Ready), j, Handling(s.sockets[i].at.buf)), b, p)
  {
    hide Sum, Returned;
    Moved(s, i, Ready, b, p);
    Turned(Move(s, i, Ready), j, Handling(s.sockets[i].at.buf), b, p);
  }

  lemma TakeStep(s: State, j: nat, b: Buf, p: bytes)
    requires j < |s.workers| && s.workers[j].Parked? && s.queue != []
    ensures Conserves(s, Turn(s, j, Handling(s.queue[0])).(queue := s.queue[1..]), b, p)
  {
    hide Sum;
    Turned(s, j, Handling(s.queue[0]), b, p);
    TakeOne(QueueRefs(b), s.queue);
    TakeOne(QueueHolds(s.memory, p), s.queue);
  }

  lemma TakeOne(f: Buf -> nat, q: seq<Buf>)
    requires q != []
    ensures Sum(f, q) == f(q[0]) + Sum(f, q[1..])
  {
  }

  lemma FinishStep(s: State, j: nat, b: Buf, p: bytes)
    requires j < |s.workers| && s.workers[j].Handling?
    ensures var c := s.workers[j].buf;
            Conserves(s, Turn(s, j, Running).(handled := s.handled + multiset{Cell(s.memory, c)},
                                              pool := s.pool + multiset{c}), b, p)
  {
    hide Sum;
    Turned(s, j, Running, b, p);
  }

  lemma IdleWorkerStep(s: State, j: nat, w: Worker, b: Buf, p: bytes)
    requires j < |s.workers| && !s.workers[j].Handling? && !w.Handling?
    ensures Conserves(s, Turn(s, j, w), b, p)
  {
    hide Sum;
    Turned(s, j, w, b, p);
  }

  /** The caller's steps: in particular, making new channels at the end of Stop loses nothing. */
  lemma CallerStep(cfg: Config, s: State, l: Label, b: Buf, p: bytes)
    requires cfg.workers >= 1 && Control(cfg, s) && Enabled(cfg, s, l)
    requires l.Start? || l.OpenSocket? || l.SocketFails? || l.StartReturns? || l.Stop? || l.CloseDispatch?
             || l.CloseConn? || l.StopReturns?
    ensures Conserves(s, Apply(cfg, s, l), b, p)
  {
    hide Sum, CanSend;
    match l {
      case Start =>
        NothingHeld(s.memory, [], seq(cfg.workers, _ => Running), b, p);
        NothingHeld(s.memory, [], [], b, p);
      case OpenSocket =>
        SumAppend(ReceiverRefs(b), s.sockets, Socket(Ready, false));
        SumAppend(ReceiverHolds(s.memory, p), s.sockets, Socket(Ready, false));
      case CloseConn(i) =>
        SumUpdate(ReceiverRefs(b), s.sockets, i, Socket(s.sockets[i].at, true));
        SumUpdate(ReceiverHolds(s.memory, p), s.sockets, i, Socket(s.sockets[i].at, true));
      case StopReturns =>
        assert s.workers[0].Done?;
        NothingHeld(s.memory, s.sockets, s.workers, b, p);
        NothingHeld(s.memory, [], [], b, p);
      case _ =>
    }
  }

  lemma NothingHeld(memory: map<Buf, bytes>, sockets: seq<Socket>, workers: seq<Worker>, b: Buf, p: bytes)
    requires forall i :: 0 <= i < |sockets| ==> Returned(sockets[i].at)
    requires forall j :: 0 <= j < |workers| ==> !workers[j].Handling?
    ensures Sum(ReceiverHolds(memory, p), sockets) == 0 == Sum(WorkerHolds(memory, p), workers)
    ensures Sum(ReceiverRefs(b), sockets) == 0 == Sum(WorkerRefs(b), workers)
  {
    SumAtMost(ReceiverHolds(memory, p), sockets, 0);
    SumAtMost(WorkerHolds(memory, p), workers, 0);
    SumAtMost(ReceiverRefs(b), sockets, 0);
    SumAtMost(WorkerRefs(b), workers, 0);
  }

  lemma StepConserves(cfg: Config, s: State, l: Label, b: Buf, p: bytes)
    requires cfg.workers >= 1 && Control(cfg, s) && Exclusive(s) && Enabled(cfg, s, l)
    ensures Conserves(s, Apply(cfg, s, l), b, p)
  {
    hide Conserves, Refs, Control, CanSend, Move, Turn;
    match l {
      case FetchPooled(i, c) => FetchPooledStep(s, i, c, b, p);
      case FetchNew(i) => FetchNewStep(s, i, b, p);
      case ReadPacket(i, packet) =>
        if packet == [] { ReadNothingStep(s, i, b, p); } else { ReadStep(s, i, packet, b, p); }
      case ReadError(i) => ErrorStep(s, i, b, p);
      case Send(i) => SendStep(s, i, s.dispatchClosed, b, p);
      case Hand(i, j) => HandStep(s, i, j, b, p);
      case GiveUp(i) => GiveUpStep(s, i, b, p);
      case Drop(i) => DropStep(s, i, b, p);
      case Park(j) => IdleWorkerStep(s, j, Parked, b, p);
      case Take(j) => TakeStep(s, j, b, p);
      case Finish(j) => FinishStep(s, j, b, p);
      case WorkerReturns(j) => IdleWorkerStep(s, j, Done, b, p);
      case _ => CallerStep(cfg, s, l, b, p);
    }
  }
}
