/** When the log file gets a blank line: exactly, over all configurations. */
module LogBlanks {
  import opened Common
  import opened LogProtocol
  import opened LogSafety
  import opened LogBarrier
  import opened LogTheorems
  import opened LogParties

  // ----- two producers at work ------------------------------------------------------------

  /** Of the producers 0 and 1 one is at place pc; the other is outside, or has found the buffer full and waits for
      the exclusive lock. Nobody else is inside a call. */
  ghost predicate Acts(st: State, t: Tid, pc: Producer, other: Producer, log: Logger) {
    && |st.bufs| == 3 && st.primary < 3 && st.secondary < 3 && st.write < 3
    && st.owner == Alive && st.running && st.log == log
    && t <= 1 && PcOf(st, t) == pc && st.writer == (if HoldsExclusive(pc) then Some(t) else None)
    && PcOf(st, 1 - t) == other && (other.Idle? || other.Full?)
    && (forall u: Tid :: u > 1 ==> PcOf(st, u) == Idle)
  }

  lemma Turn(st: State, t: Tid, pc: Producer, other: Producer, log: Logger)
    requires Acts(st, t, pc, other, log) && (pc.Idle? || pc.Full?)
    ensures Acts(st, 1 - t, other, pc, log)
  {
  }

  /** Only the place of t changes. */
  lemma Moved(st: State, st': State, t: Tid, pc: Producer)
    requires st'.pcs == st.pcs[t := pc]
    ensures PcOf(st', t) == pc && forall u: Tid :: u != t ==> PcOf(st', u) == PcOf(st, u)
  {
  }

  /** The pointers and the note of an early exchange stay. */
  ghost predicate Same(st: State, st': State) {
    st'.primary == st.primary && st'.early == st.early && |st'.bufs| == |st.bufs|
  }

  /** t starts a call and takes the shared lock. */
  lemma Enter(cfg: Config, st: State, t: Tid, other: Producer) returns (st': State, r: Rec)
    requires Reachable(cfg, st) && Acts(st, t, Idle, other, Top)
    ensures Reachable(cfg, st') && Acts(st', t, Shared(r), other, Top) && Same(st, st') && st'.bufs == st.bufs
  {
    hide Reachable;
    var n := Started(st.next, t);
    r := Rec(t, n);
    var s1 := To(st, t, Try(r)).(next := st.next[t := n + 1]);
    Extend(cfg, st, P(t, StartLog), s1);
    Moved(st, s1, t, Try(r));
    st' := To(s1, t, Shared(r));
    Extend(cfg, s1, P(t, LockShared), st');
    Moved(s1, st', t, Shared(r));
  }

  /** t starts a call and finds no row left. */
  lemma FindNoRow(cfg: Config, st: State, t: Tid, other: Producer) returns (st': State, r: Rec)
    requires Reachable(cfg, st) && Acts(st, t, Idle, other, Top) && st.bufs[st.primary].index >= cfg.cap
    ensures Reachable(cfg, st') && Acts(st', t, Full(r), other, Top) && Same(st, st') && st'.bufs[st.primary].index > cfg.cap
  {
    hide Reachable;
    var p, b := st.primary, st.bufs[st.primary];
    var s1;
    s1, r := Enter(cfg, st, t, other);
    st' := To(s1.(bufs := s1.bufs[p := b.(index := b.index + 1)]), t, Full(r));
    Extend(cfg, s1, P(t, Claim), st');
    Moved(s1, st', t, Full(r));
  }

  /** t takes the exclusive lock, and the primary buffer passes the re-check. */
  lemma PassCheck(cfg: Config, st: State, t: Tid, r: Rec, other: Producer) returns (st': State)
    requires Reachable(cfg, st) && Acts(st, t, Full(r), other, Top) && MaySwap(cfg, st.bufs[st.primary].index)
    ensures Reachable(cfg, st') && Acts(st', t, SwapA(r, st.primary), other, Top) && Same(st, st') && st'.bufs == st.bufs
  {
    hide Reachable;
    forall u: Tid
      ensures !HoldsShared(PcOf(st, u))
    {
      assert u == t || u == 1 - t || u > 1;
    }
    var s1 := To(st, t, Excl(r)).(writer := Some(t));
    Extend(cfg, st, P(t, LockExclusive), s1);
    Moved(st, s1, t, Excl(r));
    st' := To(s1, t, SwapA(r, st.primary));
    Extend(cfg, s1, P(t, Check), st');
    Moved(s1, st', t, SwapA(r, st.primary));
  }

  /** t writes its message into a row. */
  lemma Write(cfg: Config, st: State, t: Tid, r: Rec, other: Producer) returns (st': State)
    requires Reachable(cfg, st) && Acts(st, t, Try(r), other, Top) && st.bufs[st.primary].index < cfg.cap
    ensures Reachable(cfg, st') && Acts(st', t, Idle, other, Top) && Same(st, st')
    ensures st'.bufs[st.primary].index == st.bufs[st.primary].index + 1
  {
    hide Reachable;
    var p, i := st.primary, st.bufs[st.primary].index;
    var s1 := To(st, t, Shared(r));
    Extend(cfg, st, P(t, LockShared), s1);
    Moved(st, s1, t, Shared(r));
    var s2 := To(s1.(bufs := s1.bufs[p := s1.bufs[p].(index := i + 1)]), t, Claimed(r, p, i)).(cur := s1.cur + [r]);
    Extend(cfg, s1, P(t, Claim), s2);
    Moved(s1, s2, t, Claimed(r, p, i));
    st' := Finish(cfg, s2, t, r, i, other);
  }

  lemma Finish(cfg: Config, st: State, t: Tid, r: Rec, i: nat, other: Producer) returns (st': State)
    requires Reachable(cfg, st) && Acts(st, t, Claimed(r, st.primary, i), other, Top)
    ensures Reachable(cfg, st') && Acts(st', t, Idle, other, Top) && Same(st, st')
    ensures st'.bufs[st.primary].index == st.bufs[st.primary].index
  {
    hide Reachable;
    var p := st.primary;
    var s1 := To(st.(bufs := st.bufs[p := st.bufs[p].(rows := st.bufs[p].rows[i := r])]), t, Stored);
    Extend(cfg, st, P(t, Store), s1);
    Moved(st, s1, t, Stored);
    st' := To(s1, t, Idle);
    Extend(cfg, s1, P(t, Unlock), st');
    Moved(s1, st', t, Idle);
  }

  // ----- one whole rendezvous ---------------------------------------------------------------

  /** t overwrites the primary pointer. */
  lemma ExchangeFirst(cfg: Config, st: State, t: Tid, r: Rec, other: Producer) returns (st': State)
    requires Reachable(cfg, st) && Acts(st, t, SwapA(r, st.primary), other, Top)
    ensures Reachable(cfg, st') && Acts(st', t, SwapB(r, st.primary), other, Top) && st'.bufs == st.bufs
    ensures st'.primary == st.secondary && st'.early == (st.early || st.bufs[st.primary].index < cfg.cap)
  {
    hide Reachable;
    var p := st.primary;
    st' := To(st, t, SwapB(r, p)).(primary := st.secondary, past := st.past + st.cur, cur := [],
                                   early := st.early || st.bufs[p].index < cfg.cap);
    Extend(cfg, st, P(t, SwapFirst), st');
    Moved(st, st', t, SwapB(r, p));
  }

  /** t exchanges the buffers and sends its event. */
  lemma Exchange(cfg: Config, st: State, t: Tid, r: Rec, other: Producer) returns (st': State)
    requires Reachable(cfg, st) && Acts(st, t, SwapA(r, st.primary), other, Top)
    ensures Reachable(cfg, st') && Acts(st', t, Notified(r), other, Top) && st'.bufs == st.bufs && st'.event > 0
    ensures st'.primary == st.secondary && st'.secondary == st.primary
    ensures st'.early == (st.early || st.bufs[st.primary].index < cfg.cap)
  {
    hide Reachable;
    var s1 := ExchangeFirst(cfg, st, t, r, other);
    var s2 := To(s1, t, Swapped(r)).(secondary := st.primary);
    Extend(cfg, s1, P(t, SwapSecond), s2);
    Moved(s1, s2, t, Swapped(r));
    st' := To(s2, t, Notified(r)).(event := s2.event + 1);
    Extend(cfg, s2, P(t, Notify), st');
    Moved(s2, st', t, Notified(r));
  }

  /** The log thread takes the secondary buffer over and is the second to reach the barrier. */
  lemma Answer(cfg: Config, st: State, t: Tid, r: Rec, other: Producer) returns (st': State, token: nat)
    requires Reachable(cfg, st) && cfg.parties == 2 && Acts(st, t, Notified(r), other, Top) && st.event > 0 && st.arrived == 0
    ensures Reachable(cfg, st') && Acts(st', t, Arrived(r, token), other, Flushing(0, 0)) && token != st'.phase
    ensures st'.bufs == st.bufs && Same(st, st') && st'.write == st.secondary
  {
    hide Reachable;
    token := st.phase;
    var s1 := To(st, t, Arrived(r, token)).(arrived := 1);
    Extend(cfg, st, P(t, Meet), s1);
    Moved(st, s1, t, Arrived(r, token));
    var s2 := WakeUp(cfg, s1);
    var s3 := s2.(log := LSwapB(s2.secondary), secondary := s2.write);
    Extend(cfg, s2, L, s3);
    var s4 := s3.(log := Arriving, write := s2.secondary);
    Extend(cfg, s3, L, s4);
    var s5 := s4.(log := AtBarrier(token), phase := token + 1, arrived := 0);
    Extend(cfg, s4, L, s5);
    st' := s5.(log := Flushing(0, 0));
    Extend(cfg, s5, L, st');
    assert forall u: Tid :: PcOf(st', u) == PcOf(s1, u);
  }

  /** The log thread flushes and resets the write buffer. */
  lemma {:induction false} FlushLoop(cfg: Config, st: State, t: Tid, pc: Producer, other: Producer, i: nat) returns (st': State)
    requires Reachable(cfg, st) && Acts(st, t, pc, other, Flushing(0, i)) && i <= cfg.cap
    ensures Reachable(cfg, st') && Acts(st', t, pc, other, Top) && Same(st, st') && st'.phase == st.phase
    ensures forall k :: 0 <= k < 3 && k != st.write ==> st'.bufs[k] == st.bufs[k]
    decreases cfg.cap - i
  {
    hide Reachable;
    var w := st.write;
    if i < cfg.cap {
      var s1 := st.(file := st.file + [LineOf(st.bufs[w], i)], log := Flushing(0, i + 1));
      Extend(cfg, st, L, s1);
      assert forall u: Tid :: PcOf(s1, u) == PcOf(st, u);
      st' := FlushLoop(cfg, s1, t, pc, other, i + 1);
    } else {
      var s1 := st.(bufs := st.bufs[w := st.bufs[w].(index := 0)], log := Resetting(0));
      Extend(cfg, st, L, s1);
      st' := s1.(bufs := s1.bufs[w := s1.bufs[w].(rows := map[])], log := Top);
      Extend(cfg, s1, L, st');
      assert forall u: Tid :: PcOf(st', u) == PcOf(st, u);
    }
  }

  /** What the invariant says where an exchange begins. */
  lemma BeforeExchange(cfg: Config, st: State, t: Tid, r: Rec, other: Producer)
    requires Reachable(cfg, st) && cfg.parties == 2 && Acts(st, t, SwapA(r, st.primary), other, Top)
    ensures st.secondary != st.primary && st.bufs[st.secondary] == EMPTY
  {
    hide Reachable, Spaced, Hand;
    BarrierSpaces(cfg, st);
    SwapGetsEmpty(cfg, st, t);
    SpacedSafe(cfg, st);
    hide LocksOk, Flow, Primary, OrderOk, DataOk, BlankOk;
  }

  lemma NobodyThere(cfg: Config, st: State, t: Tid, r: Rec, other: Producer)
    requires Reachable(cfg, st) && cfg.parties == 2 && Acts(st, t, Notified(r), other, Top)
    ensures st.arrived == 0
  {
    hide Reachable, Spaced;
    BarrierSpaces(cfg, st);
  }

  /** A whole rendezvous, from the decision to exchange to the next try. */
  lemma Rendezvous(cfg: Config, st: State, t: Tid, r: Rec, other: Producer) returns (st': State)
    requires Reachable(cfg, st) && cfg.parties == 2 && Acts(st, t, SwapA(r, st.primary), other, Top)
    ensures Reachable(cfg, st') && Acts(st', t, Try(r), other, Top) && st'.bufs[st'.primary].index == 0
    ensures st'.early == (st.early || st.bufs[st.primary].index < cfg.cap)
  {
    hide Reachable;
    BeforeExchange(cfg, st, t, r, other);
    var s1 := Exchange(cfg, st, t, r, other);
    NobodyThere(cfg, s1, t, r, other);
    var s2, token := Answer(cfg, s1, t, r, other);
    var s3 := FlushLoop(cfg, s2, t, Arrived(r, token), other, 0);
    st' := To(s3, t, Try(r)).(writer := None);
    Extend(cfg, s3, P(t, Resume), st');
    Moved(s3, st', t, Try(r));
  }

  // ----- runs that write a blank line ---------------------------------------------------------

  /** Producers 0 and 1 both find the primary buffer full and wait for the exclusive lock. */
  lemma BothFindNoRow(cfg: Config) returns (st: State, r0: Rec, r1: Rec)
    ensures Reachable(cfg, st) && Acts(st, 0, Full(r0), Full(r1), Top) && st.bufs[st.primary].index > cfg.cap
  {
    hide Reachable;
    InitReachable(cfg);
    var s1, n := LogFull(cfg, Init(), 0);
    assert Acts(s1, 1, Idle, Idle, Top);
    hide Known;
    var s2;
    s2, r1 := FindNoRow(cfg, s1, 1, Idle);
    Turn(s2, 1, Full(r1), Idle, Top);
    st, r0 := FindNoRow(cfg, s2, 0, Full(r1));
  }

  /** Producer 0 exchanges the buffer and writes one row of the new one; then producer 1 gets the lock and, as that
      buffer is not empty, exchanges it as well, with rows left. */
  lemma EarlySwap(cfg: Config) returns (st: State)
    requires cfg.parties == 2 && cfg.asWritten && cfg.cap >= 2
    ensures Reachable(cfg, st) && Acts(st, 1, Idle, Idle, Top) && st.early
  {
    hide Reachable, Acts;
    var s1, r0, r1 := BothFindNoRow(cfg);
    var s2 := PassCheck(cfg, s1, 0, r0, Full(r1)) by { ActsBufs(s1, 0, Full(r0), Full(r1), Top); }
    var s3 := Rendezvous(cfg, s2, 0, r0, Full(r1));
    var s4 := Write(cfg, s3, 0, r0, Full(r1));
    Turn(s4, 0, Idle, Full(r1), Top);
    ActsBufs(s4, 1, Full(r1), Idle, Top);
    var s5 := PassCheck(cfg, s4, 1, r1, Idle);
    var s6 := Rendezvous(cfg, s5, 1, r1, Idle);
    ActsBufs(s6, 1, Try(r1), Idle, Top);
    st := Write(cfg, s6, 1, r1, Idle);
  }

  lemma ActsBufs(st: State, t: Tid, pc: Producer, other: Producer, log: Logger)
    requires Acts(st, t, pc, other, log)
    ensures |st.bufs| == 3 && st.primary < 3
  {
  }

  /** With two parties and the re-check as written, the run ends with a blank line in the file. */
  lemma EarlySwapShows(cfg: Config) returns (st: State)
    requires cfg.parties == 2 && cfg.asWritten && cfg.cap >= 2
    ensures Reachable(cfg, st) && st.log.Done? && Blank in st.file
  {
    hide Reachable, Known;
    var s1 := EarlySwap(cfg);
    forall u: Tid
      ensures PcOf(s1, u) == Idle
    {
      assert u == 0 || u == 1 || u > 1;
    }
    st := Destroy(cfg, s1);
    BlankLines(cfg, st);
  }

  /** With at most one party, the row that is counted and lost comes out as a blank line. */
  lemma LostRowShows(cfg: Config) returns (st: State)
    requires cfg.parties <= 1 && cfg.cap >= 1
    ensures Reachable(cfg, st) && st.log.Done? && Blank in st.file
  {
    hide Reachable, Known;
    var s1, n := RowIsLost(cfg);
    var s2 := Stop(cfg, s1);
    var s3 := s2.(file := s2.file + [Blank], log := Flushing(1, 1));
    Extend(cfg, s2, L, s3);
    st := FinishFlushes(cfg, s3);
    assert Blank in s3.file;
  }

  // ----- more than two parties: the loop never flushes ------------------------------------------

  /** The holder has exchanged the buffers and not been let go. */
  predicate Beyond(hold: Producer, phase: nat) {
    hold.SwapB? || hold.Swapped? || Requested(hold, phase)
  }

  /** The barrier never opens: the log thread writes nothing in its loop, and whoever exchanged a buffer stays. */
  ghost predicate Stalled(st: State) {
    && st.phase == 0 && (st.log.Flushing? || st.log.Resetting? ==> st.log.stage > 0)
    && (st.running ==> st.file == []) && (st.early ==> Beyond(Holder(st), st.phase))
  }

  lemma StalledProducer(cfg: Config, st: State, st': State, t: Tid, act: Act)
    requires LocksOk(st) && Hand(cfg, st) && Stalled(st) && StepProducer(cfg, st, st', t, act) && cfg.parties >= 3
    ensures Stalled(st')
  {
    ProducerFrame(cfg, st, st', t, act);
    if act.Meet? || act.Resume? || act.SwapFirst? || act.SwapSecond? || act.Notify? {
      WriterStays(cfg, st, t);
    } else {
      StalledBeside(cfg, st, st', t, act);
      hide StepProducer, LocksOk, Hand, Holder;
    }
  }

  lemma StalledBeside(cfg: Config, st: State, st': State, t: Tid, act: Act)
    requires LocksOk(st) && StepProducer(cfg, st, st', t, act) && !OfHolder(act)
    ensures st'.phase == st.phase && st'.file == st.file && st'.early == st.early
    ensures Holder(st') == Holder(st) || !Beyond(Holder(st), st.phase)
  {
    hide Started, MaySwap;
    assert HoldsExclusive(PcOf(st, t)) <==> st.writer == Some(t);
  }

  lemma StalledLogger(cfg: Config, st: State, st': State)
    requires LocksOk(st) && Hand(cfg, st) && Stalled(st) && StepLogger(cfg, st, st') && Holder(st') == Holder(st)
    requires cfg.parties >= 3 && Flow(st)
    ensures Stalled(st')
  {
    LoggerFrame(cfg, st, st');
    LoggerNext(cfg, st, st');
    StalledPhase(cfg, st, st');
    hide StepLogger, Holder;
  }

  lemma StalledPhase(cfg: Config, st: State, st': State)
    requires Hand(cfg, st) && StepLogger(cfg, st, st') && cfg.parties >= 3
    ensures st'.phase == st.phase && (st.log.AtBarrier? ==> st.log.token != st.phase)
    ensures !st.log.Flushing? ==> st'.file == st.file
  {
    hide Holder, FlushTarget, LineOf;
  }

  lemma StalledOwner(st: State, st': State)
    requires Stalled(st) && StepOwner(st, st')
    ensures Stalled(st')
  {
  }

  lemma {:induction false} StalledRun(cfg: Config, states: seq<State>, labels: seq<Label>)
    requires Run(cfg, states, labels) && cfg.parties >= 3
    ensures Stalled(states[|labels|]) && Safe(cfg, states[|labels|])
    decreases |labels|
  {
    RunHand(cfg, states, labels);
    if labels != [] {
      hide Safe, Hand, Step, Stalled, AllPolite;
      var n := |labels| - 1;
      StalledRun(cfg, states[..n + 1], labels[..n]);
      RunHand(cfg, states[..n + 1], labels[..n]);
      StalledStep(cfg, states[n], states[n + 1], labels[n]);
    }
  }

  lemma StalledStep(cfg: Config, st: State, st': State, l: Label)
    requires Safe(cfg, st) && Hand(cfg, st) && Stalled(st) && Step(cfg, st, st', l) && cfg.parties >= 3
    ensures Stalled(st')
  {
    hide Contents, Primary, OrderOk, LocksOk, Flow, Hand, Stalled, StepProducer, StepLogger, StepOwner;
    match l
    case P(t, act) => StalledProducer(cfg, st, st', t, act);
    case L =>
      LoggerFrame(cfg, st, st');
      LoggerLocks(st, st');
      StalledLogger(cfg, st, st');
    case O => StalledOwner(st, st');
  }

  lemma NoBlanksStalled(cfg: Config, st: State)
    requires Reachable(cfg, st) && cfg.parties >= 3
    ensures Blank !in st.file
  {
    hide Run, Safe;
    var states: seq<State>, labels: seq<Label> :| EndsIn(cfg, states, labels, st);
    StalledRun(cfg, states, labels);
    if !st.running {
      SafeParts(cfg, st);
      NoBlanksYet(cfg, st);
    }
  }

  lemma NoRowsNoBlanks(cfg: Config, st: State)
    requires Reachable(cfg, st) && cfg.cap == 0
    ensures Blank !in st.file
  {
    hide Run;
    var states: seq<State>, labels: seq<Label> :| EndsIn(cfg, states, labels, st);
    NoRowsRun(cfg, states, labels);
  }

  // ----- exactly ------------------------------------------------------------------------------

  /** With two parties: the re-check as written and two rows or more. With fewer, any row at all. */
  predicate MayShowBlanks(cfg: Config) {
    (cfg.parties <= 1 && cfg.cap >= 1) || (cfg.parties == 2 && cfg.asWritten && cfg.cap >= 2)
  }

  lemma NoBlanksElse(cfg: Config, st: State)
    requires Reachable(cfg, st) && !MayShowBlanks(cfg)
    ensures Blank !in st.file
  {
    hide Reachable, Spaced;
    if cfg.parties >= 3 {
      NoBlanksStalled(cfg, st);
    } else if cfg.cap == 0 {
      NoRowsNoBlanks(cfg, st);
    } else {
      BarrierSpaces(cfg, st);
      NoBlankLines(cfg, st);
    }
  }

  /** The file of a finished log thread can have a blank line in exactly these configurations; in all others no
      file ever has one, finished or not. */
  lemma BlanksExactly(cfg: Config)
    ensures (exists st :: Reachable(cfg, st) && st.log.Done? && Blank in st.file) <==> MayShowBlanks(cfg)
    ensures (exists st :: Reachable(cfg, st) && Blank in st.file) <==> MayShowBlanks(cfg)
  {
    hide Reachable;
    if MayShowBlanks(cfg) {
      var st;
      if cfg.parties == 2 { st := EarlySwapShows(cfg); } else { st := LostRowShows(cfg); }
    } else {
      forall st | Reachable(cfg, st)
        ensures Blank !in st.file
      {
        NoBlanksElse(cfg, st);
      }
    }
  }
}
