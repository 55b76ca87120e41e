/** The triple-buffer protocol of the logger (`logger/src/logger.cpp`, `log_thread.cpp`) as a transition
    system: any number of producers, the log thread, and the thread that destroys the logger. One step is
    one access to shared state; the rows of a buffer are cleared in one. */
module LogProtocol {
  import opened Common

  type Tid = nat

  /** The number-th message of a producer. */
  datatype Rec = Rec(producer: Tid, number: nat)

  datatype Line = Text(r: Rec) | Blank

  /** A buffer: `m_index_` and the rows that hold a message; the others are blank. */
  datatype Buf = Buf(index: nat, rows: map<nat, Rec>)

  const EMPTY := Buf(0, map[])

  /** Where a producer is inside `Logger::log`. */
  datatype Producer =
    | Idle
    | Try(r: Rec)                      // at the top of the loop
    | Shared(r: Rec)                   // holds the shared lock
    | Claimed(r: Rec, b: nat, i: nat)  // claimed row i of buffer b, not written yet
    | Stored                           // row written, shared lock still held
    | Full(r: Rec)                     // no row left, shared lock dropped
    | Excl(r: Rec)                     // holds the exclusive lock
    | SwapA(r: Rec, t: nat)            // primary read into a temporary
    | SwapB(r: Rec, t: nat)            // primary overwritten
    | Swapped(r: Rec)                  // secondary overwritten
    | Notified(r: Rec)                 // event sent
    | Arrived(r: Rec, token: nat)      // arrived at the barrier in phase `token`

  /** Where the log thread is. Stage 0 flushes inside the loop; stages 1 to 3 are the last three flushes. */
  datatype Logger =
    | Top
    | Waiting                          // in epoll_wait
    | Woken                            // about to test m_running_ again
    | Reading                          // about to read, and so to clear, the event counter
    | Taking
    | LSwapA(t: nat) | LSwapB(t: nat)
    | Arriving
    | AtBarrier(token: nat)
    | Flushing(stage: nat, i: nat)
    | Resetting(stage: nat)            // all rows written, index already 0
    | Done

  datatype Owner = Alive | Stopped | Signalled | Joined

  /** `cap` rows per buffer; `parties` of the barrier; `asWritten`: the re-check under the exclusive lock asks
      whether the buffer is empty, where "has a row left" is meant. */
  datatype Config = Config(cap: nat, parties: nat, asWritten: bool)

  datatype State = State(
    bufs: seq<Buf>, primary: nat, secondary: nat, write: nat,
    writer: Option<Tid>,          // exclusive owner of m_meta_mtx_
    event: nat,                   // counter of the eventfd
    phase: nat, arrived: nat,     // barrier
    running: bool,
    pcs: map<Tid, Producer>, log: Logger, owner: Owner,
    file: seq<Line>,
    next: map<Tid, nat>,          // messages each producer has started to log
    past: seq<Rec>, cur: seq<Rec>, // history: rows claimed in former primary buffers and in this one
    early: bool)                  // history: a buffer with rows left was swapped out

  function PcOf(st: State, t: Tid): Producer { if t in st.pcs then st.pcs[t] else Idle }
  function Started(next: map<Tid, nat>, t: Tid): nat { if t in next then next[t] else 0 }

  predicate HoldsShared(pc: Producer) { pc.Shared? || pc.Claimed? || pc.Stored? }

  predicate HoldsExclusive(pc: Producer) {
    pc.Excl? || pc.SwapA? || pc.SwapB? || pc.Swapped? || pc.Notified? || pc.Arrived?
  }

  function Init(): State {
    State([EMPTY, EMPTY, EMPTY], 0, 1, 2, None, 0, 0, 0, true, map[], Top, Alive, [], map[], [], [], false)
  }

  function To(st: State, t: Tid, pc: Producer): State { st.(pcs := st.pcs[t := pc]) }

  /** One party arrives; the last one opens the next phase. A barrier of 0 parties, at which arriving is not
      defined, is taken to behave like one of 1. */
  function Arrive(cfg: Config, st: State): State {
    if st.arrived + 1 >= cfg.parties then st.(phase := st.phase + 1, arrived := 0) else st.(arrived := st.arrived + 1)
  }

  /** A primary buffer counts as full enough to be swapped. */
  predicate MaySwap(cfg: Config, index: nat) {
    if cfg.asWritten then index != 0 else index >= cfg.cap
  }

  // ----- producers ------------------------------------------------------------------

  datatype Act = StartLog | LockShared | Claim | Store | Unlock | LockExclusive | Check | SwapFirst | SwapSecond | Notify | Meet | Resume

  ghost predicate StepProducer(cfg: Config, st: State, st': State, t: Tid, act: Act) {
    var pc := PcOf(st, t);
    match act
    case StartLog =>
      && pc.Idle? && st.owner == Alive
      && var n := Started(st.next, t);
         st' == To(st, t, Try(Rec(t, n))).(next := st.next[t := n + 1])
    case LockShared => pc.Try? && st.writer == None && st' == To(st, t, Shared(pc.r))
    case Claim =>
      && pc.Shared? && st.primary < |st.bufs|
      && var b := st.bufs[st.primary];
         var st1 := st.(bufs := st.bufs[st.primary := b.(index := b.index + 1)]);
         if b.index < cfg.cap then st' == To(st1, t, Claimed(pc.r, st.primary, b.index)).(cur := st.cur + [pc.r])
         else st' == To(st1, t, Full(pc.r))
    case Store =>
      && pc.Claimed? && pc.b < |st.bufs|
      && var b := st.bufs[pc.b];
         st' == To(st.(bufs := st.bufs[pc.b := b.(rows := b.rows[pc.i := pc.r])]), t, Stored)
    case Unlock => pc.Stored? && st' == To(st, t, Idle)
    case LockExclusive =>
      && pc.Full? && st.writer == None && (forall u: Tid :: !HoldsShared(PcOf(st, u)))
      && st' == To(st, t, Excl(pc.r)).(writer := Some(t))
    case Check =>
      && pc.Excl? && st.primary < |st.bufs|
      && if MaySwap(cfg, st.bufs[st.primary].index) then st' == To(st, t, SwapA(pc.r, st.primary))
         else st' == To(st, t, Try(pc.r)).(writer := None)
    case SwapFirst =>
      && pc.SwapA? && st.primary < |st.bufs|
      && st' == To(st, t, SwapB(pc.r, pc.t)).(primary := st.secondary, past := st.past + st.cur, cur := [],
                                              early := st.early || st.bufs[st.primary].index < cfg.cap)
    case SwapSecond => pc.SwapB? && st' == To(st, t, Swapped(pc.r)).(secondary := pc.t)
    case Notify => pc.Swapped? && st' == To(st, t, Notified(pc.r)).(event := st.event + 1)
    case Meet => pc.Notified? && st' == Arrive(cfg, To(st, t, Arrived(pc.r, st.phase)))
    case Resume => pc.Arrived? && st.phase != pc.token && st' == To(st, t, Try(pc.r)).(writer := None)
  }

  // ----- log thread -----------------------------------------------------------------

  /** The line that row i of a buffer comes out as. */
  function LineOf(b: Buf, i: nat): Line { if i in b.rows then Text(b.rows[i]) else Blank }

  /** The buffer being flushed and the number of its rows that are written. */
  function FlushTarget(cfg: Config, st: State, stage: nat): (r: (nat, nat)) {
    var b := if stage <= 1 then st.write else if stage == 2 then st.secondary else st.primary;
    (b, if stage == 0 then cfg.cap else if b < |st.bufs| then Min(st.bufs[b].index, cfg.cap) else 0)
  }

  function AfterFlush(stage: nat): Logger {
    if stage == 0 then Top else if stage == 3 then Done else Flushing(stage + 1, 0)
  }

  ghost predicate StepLogger(cfg: Config, st: State, st': State) {
    match st.log
    case Top => st' == st.(log := if st.running then Waiting else Flushing(1, 0))
    case Waiting => st.event > 0 && st' == st.(log := Woken)
    case Woken => st' == st.(log := if st.running then Reading else Flushing(1, 0))
    case Reading => st' == st.(log := Taking, event := 0)
    case Taking => st' == st.(log := LSwapA(st.secondary))
    case LSwapA(t) => st' == st.(log := LSwapB(t), secondary := st.write)
    case LSwapB(t) => st' == st.(log := Arriving, write := t)
    case Arriving => st' == Arrive(cfg, st.(log := AtBarrier(st.phase)))
    case AtBarrier(token) => st.phase != token && st' == st.(log := Flushing(0, 0))
    case Flushing(stage, i) =>
      && var (b, n) := FlushTarget(cfg, st, stage);
         && b < |st.bufs|
         && if i < n then st' == st.(file := st.file + [LineOf(st.bufs[b], i)], log := Flushing(stage, i + 1))
            else st' == st.(bufs := st.bufs[b := st.bufs[b].(index := 0)], log := Resetting(stage))
    case Resetting(stage) =>
      && var b := FlushTarget(cfg, st, stage).0;
         && b < |st.bufs|
         && st' == st.(bufs := st.bufs[b := st.bufs[b].(rows := map[])], log := AfterFlush(stage))
    case Done => false
  }

  // ----- destruction ----------------------------------------------------------------

  /** `~LogThread`. Destroying the logger while a call of `log` is still running is not allowed. */
  ghost predicate StepOwner(st: State, st': State) {
    match st.owner
    case Alive => (forall t: Tid :: PcOf(st, t) == Idle) && st' == st.(running := false, owner := Stopped)
    case Stopped => st' == st.(event := st.event + 1, owner := Signalled)
    case Signalled => st.log == Done && st' == st.(owner := Joined)
    case Joined => false
  }

  datatype Label = P(t: Tid, act: Act) | L | O

  ghost predicate Step(cfg: Config, st: State, st': State, l: Label) {
    match l
    case P(t, act) => StepProducer(cfg, st, st', t, act)
    case L => StepLogger(cfg, st, st')
    case O => StepOwner(st, st')
  }

  ghost predicate Run(cfg: Config, states: seq<State>, labels: seq<Label>) {
    && |states| == |labels| + 1 && states[0] == Init()
    && forall i {:trigger labels[i]} :: 0 <= i < |labels| ==> Step(cfg, states[i], states[i + 1], labels[i])
  }
}
