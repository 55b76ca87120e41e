/** What every run of the logger guarantees. Most results are about spaced runs, in which no exchange starts before
    the log thread has taken over the one before; with a barrier of two parties or more all runs are. */
module LogTheorems {
  import opened Common
  import opened LogProtocol
  import opened LogSafety
  import opened LogBarrier

  ghost predicate Reachable(cfg: Config, st: State) {
    exists states: seq<State>, labels: seq<Label> :: EndsIn(cfg, states, labels, st)
  }

  ghost predicate EndsIn(cfg: Config, states: seq<State>, labels: seq<Label>, st: State) {
    Run(cfg, states, labels) && states[|labels|] == st
  }

  ghost predicate Spaced(cfg: Config, st: State) {
    exists states: seq<State>, labels: seq<Label> :: EndsIn(cfg, states, labels, st) && AllPolite(cfg, states, labels)
  }

  ghost predicate AllPolite(cfg: Config, states: seq<State>, labels: seq<Label>) {
    && |states| == |labels| + 1
    && forall i {:trigger labels[i]} :: 0 <= i < |labels| ==> Polite(cfg, states[i], labels[i])
  }

  lemma InitContents(cfg: Config)
    ensures Contents(cfg, Init()) && Primary(cfg, Init())
  {
    RowsEmpty(cfg.cap, 0);
  }

  lemma InitFlow()
    ensures LocksOk(Init()) && Flow(Init()) && OrderOk(Init())
  {
  }

  lemma InitSafe(cfg: Config)
    ensures Safe(cfg, Init())
  {
    InitContents(cfg);
    InitFlow();
    hide LocksOk, Flow, Contents, Primary, OrderOk;
  }

  lemma StepKeeps(cfg: Config, st: State, st': State, l: Label)
    requires Safe(cfg, st) && Step(cfg, st, st', l) && Polite(cfg, st, l)
    ensures Safe(cfg, st')
  {
    hide Safe, Polite, StepProducer, StepLogger, StepOwner;
    match l
    case P(t, act) => ProducerKeeps(cfg, st, st', t, act);
    case L => LoggerKeeps(cfg, st, st');
    case O => OwnerKeeps(cfg, st, st');
  }

  lemma {:induction false} RunSafe(cfg: Config, states: seq<State>, labels: seq<Label>)
    requires Run(cfg, states, labels) && AllPolite(cfg, states, labels)
    ensures Safe(cfg, states[|labels|])
    decreases |labels|
  {
    hide Safe, Step, Polite;
    if labels == [] {
      InitSafe(cfg);
    } else {
      var n := |labels| - 1;
      RunSafe(cfg, states[..n + 1], labels[..n]);
      StepKeeps(cfg, states[n], states[n + 1], labels[n]);
    }
  }

  /** The invariant holds at the end of every spaced run. */
  lemma SpacedSafe(cfg: Config, st: State)
    requires Spaced(cfg, st)
    ensures Safe(cfg, st)
  {
    hide Safe, Run, AllPolite;
    var states: seq<State>, labels: seq<Label> :| EndsIn(cfg, states, labels, st) && AllPolite(cfg, states, labels);
    RunSafe(cfg, states, labels);
  }

  lemma SafeParts(cfg: Config, st: State)
    requires Safe(cfg, st)
    ensures LocksOk(st)
  {
  }

  /** With two parties or more every step of every run is polite. */
  lemma {:induction false} RunHand(cfg: Config, states: seq<State>, labels: seq<Label>)
    requires Run(cfg, states, labels) && cfg.parties >= 2
    ensures Safe(cfg, states[|labels|]) && Hand(cfg, states[|labels|]) && AllPolite(cfg, states, labels)
    decreases |labels|
  {
    hide Safe, Step, Polite, Hand;
    if labels == [] {
      InitSafe(cfg);
      InitHand(cfg);
    } else {
      var n := |labels| - 1;
      RunHand(cfg, states[..n + 1], labels[..n]);
      SafeParts(cfg, states[n]);
      HandIsPolite(cfg, states[n], labels[n]);
      StepKeeps(cfg, states[n], states[n + 1], labels[n]);
      StepHand(cfg, states[n], states[n + 1], labels[n]);
      assert forall i :: 0 <= i < n ==> states[..n + 1][i] == states[i] && labels[..n][i] == labels[i];
    }
  }

  lemma InitHand(cfg: Config)
    requires cfg.parties >= 2
    ensures Hand(cfg, Init())
  {
  }

  /** With a barrier of two parties or more every run is spaced. */
  lemma BarrierSpaces(cfg: Config, st: State)
    requires Reachable(cfg, st) && cfg.parties >= 2
    ensures Spaced(cfg, st) && Hand(cfg, st)
  {
    hide Safe, Run, AllPolite, Hand;
    var states: seq<State>, labels: seq<Label> :| EndsIn(cfg, states, labels, st);
    RunHand(cfg, states, labels);
  }

  // ----- nothing lost, nothing twice, in order -----------------------------------------

  /** The messages in the file are always the first of the claimed rows, in the order of the claims. */
  lemma FileIsPrefix(cfg: Config, st: State)
    requires Spaced(cfg, st)
    ensures Texts(st.file) <= st.past + st.cur
  {
    hide Spaced;
    SpacedSafe(cfg, st);
    hide LocksOk, Flow, Primary, OrderOk, Texts, Rows;
  }

  /** The file has every message that any producer logged, exactly once, and those of each producer in the order
      in which it logged them. */
  ghost predicate AllWritten(st: State) {
    var texts := Texts(st.file);
    && (forall t: Tid, k: nat {:trigger Rec(t, k)} :: Rec(t, k) in texts <==> k < Started(st.next, t))
    && (forall i, j :: 0 <= i < j < |texts| ==>
          texts[i] != texts[j] && (texts[i].producer == texts[j].producer ==> texts[i].number < texts[j].number))
  }

  /** Once the log thread has finished, the file is complete. */
  lemma EverythingFlushed(cfg: Config, st: State)
    requires Spaced(cfg, st) && st.log.Done?
    ensures AllWritten(st)
  {
    hide Spaced;
    SpacedSafe(cfg, st);
    assert Texts(st.file) == st.past + st.cur by { hide LocksOk, Flow, Primary, OrderOk, Texts, Rows; }
    hide Contents, Primary, Texts;
    assert forall t: Tid :: PcOf(st, t) == Idle;
    assert forall t: Tid :: Placed(st, t) == Started(st.next, t);
  }

  // ----- the three roles ------------------------------------------------------------

  /** No pointer exchange is half done. */
  ghost predicate BetweenExchanges(st: State) {
    (forall t: Tid :: !PcOf(st, t).SwapB?) && !st.log.LSwapB?
  }

  /** The three pointers are a permutation of the three buffers. */
  ghost predicate DistinctRoles(st: State) {
    {st.primary, st.secondary, st.write} == {0, 1, 2}
  }

  lemma RolesArePermutation(cfg: Config, st: State)
    requires Spaced(cfg, st) && BetweenExchanges(st)
    ensures DistinctRoles(st)
  {
    hide Spaced;
    SpacedSafe(cfg, st);
    hide LocksOk, Flow, Primary, OrderOk, DataOk, BlankOk;
  }

  /** A producer that exchanges the buffers gets a reset, empty one as the new primary. */
  lemma SwapGetsEmpty(cfg: Config, st: State, t: Tid)
    requires Spaced(cfg, st) && PcOf(st, t).SwapA?
    ensures st.secondary < |st.bufs| && st.bufs[st.secondary] == EMPTY
  {
    hide Spaced;
    SpacedSafe(cfg, st);
    hide LocksOk, Flow, Contents, Primary, OrderOk;
    SwapTarget(cfg, st, t);
  }

  /** No producer is about to write into a buffer that is being flushed or reset. */
  lemma FlushNeverRaces(cfg: Config, st: State, t: Tid)
    requires Spaced(cfg, st) && PcOf(st, t).Claimed?
    ensures PcOf(st, t).b == st.primary
    ensures st.log.Flushing? || st.log.Resetting? ==> FlushTarget(cfg, st, st.log.stage).0 != PcOf(st, t).b
  {
    hide Spaced;
    SpacedSafe(cfg, st);
    BusyRuns(st, t);
    hide OrderOk, DataOk, BlankOk, Flow;
  }

  /** Rows claimed by different producers at the same time are different. */
  lemma ClaimsAreDistinct(cfg: Config, st: State, t: Tid, u: Tid)
    requires Spaced(cfg, st) && t != u && PcOf(st, t).Claimed? && PcOf(st, u).Claimed?
    ensures PcOf(st, t).i != PcOf(st, u).i && PcOf(st, t).i < cfg.cap
  {
    hide Spaced;
    SpacedSafe(cfg, st);
    BusyRuns(st, t);
    hide OrderOk, Contents, Flow;
  }

  // ----- blank lines ------------------------------------------------------------------

  /** With two parties or more there are blank lines in the end exactly if some buffer was swapped out with rows
      left. */
  lemma BlankLines(cfg: Config, st: State)
    requires Reachable(cfg, st) && cfg.parties >= 2 && st.log.Done?
    ensures Blank in st.file <==> st.early
  {
    hide Spaced, Reachable, Hand;
    BarrierSpaces(cfg, st);
    SpacedSafe(cfg, st);
    assert !st.running;
    NothingPending(cfg, st);
    hide LocksOk, Primary, OrderOk, DataOk, Flow;
  }

  lemma NothingPending(cfg: Config, st: State)
    requires Hand(cfg, st) && !st.running
    ensures Pending(st.event, st.owner) == 0
  {
  }

  /** A buffer that passes the re-check is full: the re-check asks for a row left, or one row is all there is. */
  predicate OnlyFull(cfg: Config) { !cfg.asWritten || cfg.cap <= 1 }

  ghost predicate FullSwaps(cfg: Config, st: State) {
    !st.early && (Holder(st).SwapA? ==> st.primary < |st.bufs| && st.bufs[st.primary].index >= cfg.cap)
  }

  lemma FullSwapsStep(cfg: Config, st: State, st': State, l: Label)
    requires Safe(cfg, st) && FullSwaps(cfg, st) && Step(cfg, st, st', l) && OnlyFull(cfg)
    ensures FullSwaps(cfg, st')
  {
    hide Safe, FullSwaps, StepProducer, StepLogger, StepOwner;
    match l
    case P(t, act) => FullSwapsProducer(cfg, st, st', t, act);
    case L =>
      LoggerFrame(cfg, st, st');
      FullSwapsLogger(cfg, st, st');
    case O => FullSwapsOwner(cfg, st, st');
  }

  lemma FullSwapsOwner(cfg: Config, st: State, st': State)
    requires FullSwaps(cfg, st) && StepOwner(st, st')
    ensures FullSwaps(cfg, st')
  {
  }

  lemma FullSwapsProducer(cfg: Config, st: State, st': State, t: Tid, act: Act)
    requires Safe(cfg, st) && FullSwaps(cfg, st) && StepProducer(cfg, st, st', t, act) && OnlyFull(cfg)
    ensures FullSwaps(cfg, st')
  {
    hide Flow, Contents, Primary, OrderOk;
    assert LocksOk(st);
  }

  lemma FullSwapsLogger(cfg: Config, st: State, st': State)
    requires Safe(cfg, st) && FullSwaps(cfg, st) && StepLogger(cfg, st, st')
    requires st'.pcs == st.pcs && st'.writer == st.writer && st'.early == st.early && st'.running == st.running
    ensures FullSwaps(cfg, st')
  {
    hide LocksOk, Flow, Contents, Primary, OrderOk, StepLogger;
    LoggerLocks(st, st');
    LoggerContents(cfg, st, st');
    if Holder(st).SwapA? { NotFinal(cfg, st, st'); }
  }

  lemma NotFinal(cfg: Config, st: State, st': State)
    requires LocksOk(st) && Flow(st) && Holder(st) != Idle && StepLogger(cfg, st, st')
    ensures !Finished(st'.log)
  {
    LoggerNext(cfg, st, st');
    hide StepLogger;
  }

  lemma {:induction false} FullSwapsRun(cfg: Config, states: seq<State>, labels: seq<Label>)
    requires Run(cfg, states, labels) && AllPolite(cfg, states, labels) && OnlyFull(cfg)
    ensures FullSwaps(cfg, states[|labels|])
    decreases |labels|
  {
    if labels != [] {
      hide Step, FullSwaps, Polite;
      var n := |labels| - 1;
      FullSwapsRun(cfg, states[..n + 1], labels[..n]);
      RunSafe(cfg, states[..n + 1], labels[..n]);
      FullSwapsStep(cfg, states[n], states[n + 1], labels[n]);
    }
  }

  /** If only full buffers pass the re-check, the file never has a blank line. */
  lemma NoBlankLines(cfg: Config, st: State)
    requires Spaced(cfg, st) && OnlyFull(cfg)
    ensures Blank !in st.file
  {
    hide Run, Safe, AllPolite;
    var states: seq<State>, labels: seq<Label> :| EndsIn(cfg, states, labels, st) && AllPolite(cfg, states, labels);
    FullSwapsRun(cfg, states, labels);
    RunSafe(cfg, states, labels);
    NoBlanksYet(cfg, st);
  }

  lemma NoBlanksYet(cfg: Config, st: State)
    requires Safe(cfg, st) && !st.early
    ensures Blank !in st.file
  {
    hide LocksOk, Flow, Primary, OrderOk, DataOk;
  }

  // ----- no deadlock ------------------------------------------------------------------

  /** While a call of `log` is going on, some producer or the log thread can move. */
  lemma NoDeadlock(cfg: Config, st: State, t: Tid) returns (l: Label, st': State)
    requires Reachable(cfg, st) && cfg.parties == 2 && PcOf(st, t) != Idle
    ensures Step(cfg, st, st', l) && (l.L? || (l.P? && PcOf(st, l.t) != Idle))
  {
    hide Reachable, Spaced;
    BarrierSpaces(cfg, st);
    SpacedSafe(cfg, st);
    BusyRuns(st, t);
    hide Flow, Contents, Primary, OrderOk, StepLogger, Hand;
    var u := t;
    if st.writer.Some? {
      u := st.writer.value;
    } else if PcOf(st, t).Full? && exists s: Tid :: HoldsShared(PcOf(st, s)) {
      u :| HoldsShared(PcOf(st, u));
    }
    if PcOf(st, u).Arrived? && PcOf(st, u).token == st.phase {
      st' := LoggerMoves(cfg, st);
      l := L;
    } else {
      l, st' := ProducerMoves(cfg, st, u);
    }
  }

  lemma LoggerMoves(cfg: Config, st: State) returns (st': State)
    requires Flow(st) && Hand(cfg, st) && Contents(cfg, st)
    requires (Holder(st).Arrived? && Requested(Holder(st), st.phase) && st.running && cfg.parties == 2) || st.owner.Signalled?
    requires !st.log.Done?
    ensures StepLogger(cfg, st, st')
  {
    hide Contents;
    match st.log
    case Top => st' := st.(log := if st.running then Waiting else Flushing(1, 0));
    case Waiting => st' := st.(log := Woken);
    case Woken => st' := st.(log := if st.running then Reading else Flushing(1, 0));
    case Reading => st' := st.(log := Taking, event := 0);
    case Taking => st' := st.(log := LSwapA(st.secondary));
    case LSwapA(t) => st' := st.(log := LSwapB(t), secondary := st.write);
    case LSwapB(t) => st' := st.(log := Arriving, write := t);
    case Arriving => st' := Arrive(cfg, st.(log := AtBarrier(st.phase)));
    case AtBarrier(token) => st' := st.(log := Flushing(0, 0));
    case Flushing(stage, i) =>
      var (b, n) := FlushTarget(cfg, st, stage);
      TargetExists(cfg, st);
      st' := if i < n then st.(file := st.file + [LineOf(st.bufs[b], i)], log := Flushing(stage, i + 1))
             else st.(bufs := st.bufs[b := st.bufs[b].(index := 0)], log := Resetting(stage));
    case Resetting(stage) =>
      var b := FlushTarget(cfg, st, stage).0;
      TargetExists(cfg, st);
      st' := st.(bufs := st.bufs[b := st.bufs[b].(rows := map[])], log := AfterFlush(stage));
  }

  lemma TargetExists(cfg: Config, st: State)
    requires Contents(cfg, st) && Flow(st) && (st.log.Flushing? || st.log.Resetting?)
    ensures FlushTarget(cfg, st, st.log.stage).0 < |st.bufs|
  {
    hide DataOk, BlankOk;
  }

  lemma ProducerMoves(cfg: Config, st: State, u: Tid) returns (l: Label, st': State)
    requires Safe(cfg, st) && PcOf(st, u) != Idle && !(PcOf(st, u).Arrived? && PcOf(st, u).token == st.phase)
    requires st.writer == None || st.writer == Some(u)
    requires PcOf(st, u).Full? ==> forall s: Tid :: !HoldsShared(PcOf(st, s))
    ensures Step(cfg, st, st', l) && l.P? && l.t == u
  {
    PrimaryExists(cfg, st, u);
    hide Safe, StepProducer;
    if HoldsExclusive(PcOf(st, u)) {
      var act;
      act, st' := OwnerMoves(cfg, st, u);
      l := P(u, act);
    } else {
      var act;
      act, st' := WriterMoves(cfg, st, u);
      l := P(u, act);
    }
  }

  lemma WriterMoves(cfg: Config, st: State, u: Tid) returns (act: Act, st': State)
    requires PcOf(st, u) != Idle && !HoldsExclusive(PcOf(st, u)) && st.primary < |st.bufs|
    requires PcOf(st, u).Claimed? ==> PcOf(st, u).b < |st.bufs|
    requires PcOf(st, u).Full? || PcOf(st, u).Try? ==> st.writer == None
    requires PcOf(st, u).Full? ==> forall s: Tid :: !HoldsShared(PcOf(st, s))
    ensures StepProducer(cfg, st, st', u, act)
  {
    match PcOf(st, u)
    case Try(r) => act, st' := LockShared, To(st, u, Shared(r));
    case Shared(r) =>
      var b := st.bufs[st.primary];
      var st1 := st.(bufs := st.bufs[st.primary := b.(index := b.index + 1)]);
      act := Claim;
      st' := if b.index < cfg.cap then To(st1, u, Claimed(r, st.primary, b.index)).(cur := st.cur + [r]) else To(st1, u, Full(r));
    case Claimed(r, b, i) =>
      act, st' := Store, To(st.(bufs := st.bufs[b := st.bufs[b].(rows := st.bufs[b].rows[i := r])]), u, Stored);
    case Stored => act, st' := Unlock, To(st, u, Idle);
    case Full(r) => act, st' := LockExclusive, To(st, u, Excl(r)).(writer := Some(u));
  }

  lemma OwnerMoves(cfg: Config, st: State, u: Tid) returns (act: Act, st': State)
    requires HoldsExclusive(PcOf(st, u)) && st.primary < |st.bufs|
    requires PcOf(st, u).Arrived? ==> PcOf(st, u).token != st.phase
    ensures StepProducer(cfg, st, st', u, act)
  {
    match PcOf(st, u)
    case Excl(r) =>
      act := Check;
      st' := if MaySwap(cfg, st.bufs[st.primary].index) then To(st, u, SwapA(r, st.primary)) else To(st, u, Try(r)).(writer := None);
    case SwapA(r, old_) =>
      act := SwapFirst;
      st' := To(st, u, SwapB(r, old_)).(primary := st.secondary, past := st.past + st.cur, cur := [],
                                        early := st.early || st.bufs[st.primary].index < cfg.cap);
    case SwapB(r, old_) => act, st' := SwapSecond, To(st, u, Swapped(r)).(secondary := old_);
    case Swapped(r) => act, st' := Notify, To(st, u, Notified(r)).(event := st.event + 1);
    case Notified(r) => act, st' := Meet, Arrive(cfg, To(st, u, Arrived(r, st.phase)));
    case Arrived(r, token) => act, st' := Resume, To(st, u, Try(r)).(writer := None);
  }

  lemma PrimaryExists(cfg: Config, st: State, u: Tid)
    requires Safe(cfg, st)
    ensures st.primary < |st.bufs| && (PcOf(st, u).Claimed? && !Finished(st.log) ==> PcOf(st, u).b < |st.bufs|)
    ensures PcOf(st, u) != Idle ==> !Finished(st.log)
    ensures PcOf(st, u).Full? || PcOf(st, u).Try? ==> st.writer == None || st.writer != Some(u)
  {
    hide Contents, OrderOk;
  }

  // ----- shutdown -----------------------------------------------------------------------

  /** The destructor cannot hang: after its signal the log thread can move until it is done, and then the join
      succeeds. */
  lemma ShutdownMoves(cfg: Config, st: State) returns (l: Label, st': State)
    requires Reachable(cfg, st) && cfg.parties >= 2 && st.owner.Signalled?
    ensures Step(cfg, st, st', l) && (if st.log.Done? then l.O? else l.L?)
  {
    hide Reachable, Spaced;
    BarrierSpaces(cfg, st);
    SpacedSafe(cfg, st);
    if st.log.Done? {
      l, st' := O, st.(owner := Joined);
    } else {
      hide LocksOk, Primary, OrderOk, Contents, Flow, Hand, StepLogger;
      l := L;
      st' := LoggerMoves(cfg, st);
    }
  }

  /** How many steps the log thread can still take, once it is not meant to run. `n` bounds those of one flush. */
  function Rank(cfg: Config, log: Logger): nat {
    var n := cfg.cap + 3;
    match log
    case Done => 0
    case Resetting(stage) => StageRank(n, stage) + 1
    case Flushing(stage, i) => StageRank(n, stage) + 2 + (if i <= cfg.cap then cfg.cap - i else 0)
    case Top => n + n + n
    case Woken => n + n + n
    case Waiting => n + n + n + 1
    case AtBarrier(_) => n + n + n + n
    case Arriving => n + n + n + n + 1
    case LSwapB(_) => n + n + n + n + 2
    case LSwapA(_) => n + n + n + n + 3
    case Taking => n + n + n + n + 4
    case Reading => n + n + n + n + 5
  }

  /** The steps after the flush of a stage. */
  function StageRank(n: nat, stage: nat): nat {
    if stage == 0 then n + n + n else if stage == 1 then n + n else if stage == 2 then n else 0
  }

  lemma RankFalls(cfg: Config, st: State, st': State)
    requires StepLogger(cfg, st, st') && !st.running && (st.log.Flushing? || st.log.Resetting? ==> st.log.stage <= 3)
    ensures Rank(cfg, st'.log) < Rank(cfg, st.log)
  {
    LoggerNext(cfg, st, st');
    if st.log.Flushing? && st'.log.Flushing? { RowsBounded(cfg, st, st'); }
    hide StepLogger;
  }

  lemma RowsBounded(cfg: Config, st: State, st': State)
    requires StepLogger(cfg, st, st') && st.log.Flushing? && st'.log.Flushing?
    ensures st.log.i < cfg.cap
  {
  }

  lemma AfterSignal(cfg: Config, st: State, st': State, l: Label)
    requires LocksOk(st) && Flow(st) && st.owner.Signalled? && Step(cfg, st, st', l)
    ensures l.L? ==> st'.owner == st.owner && Rank(cfg, st'.log) < Rank(cfg, st.log)
    ensures !l.L? ==> l.O? && st'.owner.Joined? && st.log.Done?
  {
    hide StepProducer, StepLogger, Rank;
    assert !st.running && (st.log.Flushing? || st.log.Resetting? ==> st.log.stage <= 3);
    match l
    case P(t, act) => ActorRuns(cfg, st, st', t, act);
    case L =>
      LoggerFrame(cfg, st, st');
      RankFalls(cfg, st, st');
    case O =>
  }

  lemma AfterJoin(cfg: Config, st: State, st': State, l: Label)
    requires LocksOk(st) && Flow(st) && st.owner.Joined?
    ensures !Step(cfg, st, st', l)
  {
    hide StepProducer;
    if l.P? && StepProducer(cfg, st, st', l.t, l.act) { ActorRuns(cfg, st, st', l.t, l.act); }
  }

  /** A piece of a run. */
  ghost predicate Steps(cfg: Config, states: seq<State>, labels: seq<Label>) {
    && |states| == |labels| + 1
    && forall i {:trigger labels[i]} :: 0 <= i < |labels| ==> Step(cfg, states[i], states[i + 1], labels[i])
  }

  lemma {:induction false} StepsLeft(cfg: Config, states: seq<State>, labels: seq<Label>)
    requires Steps(cfg, states, labels) && Safe(cfg, states[0]) && (states[0].owner.Signalled? || states[0].owner.Joined?)
    ensures |labels| <= if states[0].owner.Joined? then 0 else Rank(cfg, states[0].log) + 1
    decreases |labels|
  {
    hide Rank, Step, Safe;
    if labels != [] {
      var st, l := states[0], labels[0];
      assert Step(cfg, st, states[1], l);
      SafeFlow(cfg, st);
      if st.owner.Joined? {
        AfterJoin(cfg, st, states[1], l);
      } else {
        AfterSignal(cfg, st, states[1], l);
        StepKeeps(cfg, st, states[1], l);
        assert forall i :: 0 <= i < |labels| - 1 ==> labels[1..][i] == labels[i + 1];
        StepsLeft(cfg, states[1..], labels[1..]);
      }
    }
  }

  /** After the destructor's signal only so many steps are left, whoever takes them. As one is possible until the
      join, the destructor returns. */
  lemma ShutdownEnds(cfg: Config, states: seq<State>, labels: seq<Label>)
    requires Steps(cfg, states, labels) && Spaced(cfg, states[0]) && states[0].owner.Signalled?
    ensures |labels| <= Rank(cfg, states[0].log) + 1
  {
    hide Spaced, Rank, Safe;
    SpacedSafe(cfg, states[0]);
    StepsLeft(cfg, states, labels);
  }

  lemma SafeFlow(cfg: Config, st: State)
    requires Safe(cfg, st)
    ensures LocksOk(st) && Flow(st)
  {
  }
}
