/** What the decisions of a call of `log` depend on, and that an exchange of buffers is over after a bounded number of
    steps of the two threads that take part in it. */
module LogCalls {
  import opened Common
  import opened LogProtocol
  import opened LogSafety
  import opened LogBarrier
  import opened LogTheorems

  // ----- decisions ---------------------------------------------------------------------------

  /** A row is claimed exactly if fewer rows than there are were claimed since the last exchange; it is the next one. The buffer's
      counter moves on in any case. */
  lemma ClaimDecides(cfg: Config, st: State, st': State, t: Tid, r: Rec)
    requires Safe(cfg, st) && Step(cfg, st, st', P(t, Claim)) && PcOf(st, t) == Shared(r)
    ensures if |st.cur| < cfg.cap then PcOf(st', t) == Claimed(r, st.primary, |st.cur|) && st'.cur == st.cur + [r]
            else PcOf(st', t) == Full(r) && st'.cur == st.cur
    ensures st.primary < |st.bufs| && st'.bufs == st.bufs[st.primary := st.bufs[st.primary].(index := st.bufs[st.primary].index + 1)]
    ensures st' == st.(bufs := st'.bufs, pcs := st'.pcs, cur := st'.cur)
  {
    BusyRuns(st, t);
    hide Contents, OrderOk, Flow, LocksOk;
  }

  /** Under the exclusive lock the buffers are exchanged exactly if the primary one is full, or, with the question as
      written, if a row of it was claimed; otherwise the lock is dropped and the call starts over. */
  lemma CheckDecides(cfg: Config, st: State, st': State, t: Tid, r: Rec)
    requires Safe(cfg, st) && Step(cfg, st, st', P(t, Check)) && PcOf(st, t) == Excl(r)
    ensures !cfg.asWritten ==> (PcOf(st', t).SwapA? <==> |st.cur| == cfg.cap)
    ensures cfg.asWritten && cfg.cap >= 1 ==> (PcOf(st', t).SwapA? <==> st.cur != [])
    ensures if PcOf(st', t).SwapA? then PcOf(st', t) == SwapA(r, st.primary) && st'.writer == Some(t)
            else PcOf(st', t) == Try(r) && st'.writer == None
    ensures st' == st.(pcs := st'.pcs, writer := st'.writer)
  {
    BusyRuns(st, t);
    WriterStays(cfg, st, t);
    hide Contents, OrderOk, Flow, LocksOk;
  }

  /** When a call returns, every message its producer has started to log has a row. */
  lemma ReturnMeansClaimed(cfg: Config, st: State, st': State, t: Tid)
    requires Safe(cfg, st) && Step(cfg, st, st', P(t, Unlock))
    ensures PcOf(st', t) == Idle && forall k: nat :: Rec(t, k) in st'.past + st'.cur <==> k < Started(st'.next, t)
  {
    assert OrderOk(st);
    hide Contents, Primary, Flow, LocksOk, OrderOk;
    OrderAt(st, t);
  }

  lemma OrderAt(st: State, t: Tid)
    requires OrderOk(st) && PcOf(st, t).Stored?
    ensures forall k: nat :: Rec(t, k) in st.past + st.cur <==> k < Started(st.next, t)
  {
  }

  /** Several producers can be inside a buffer at once: two rows are claimed and not written yet. */
  lemma TwoWriters(cfg: Config) returns (st: State)
    requires cfg.cap >= 2
    ensures Reachable(cfg, st) && PcOf(st, 0) == Claimed(Rec(0, 0), st.primary, 0) && PcOf(st, 1) == Claimed(Rec(1, 0), st.primary, 1)
  {
    hide Reachable;
    var s0 := Init();
    assert Reachable(cfg, s0) by { InitReachable(cfg); }
    var s1 := BothStart(cfg, s0);
    var s2 := To(s1, 0, Shared(Rec(0, 0)));
    More(cfg, s1, P(0, LockShared), s2);
    var s3 := To(s2, 1, Shared(Rec(1, 0)));
    More(cfg, s2, P(1, LockShared), s3);
    var s4 := To(s3.(bufs := s3.bufs[0 := Buf(1, map[])]), 0, Claimed(Rec(0, 0), 0, 0)).(cur := [Rec(0, 0)]);
    More(cfg, s3, P(0, Claim), s4);
    st := To(s4.(bufs := s4.bufs[0 := Buf(2, map[])]), 1, Claimed(Rec(1, 0), 0, 1)).(cur := [Rec(0, 0)] + [Rec(1, 0)]);
    More(cfg, s4, P(1, Claim), st);
  }

  lemma BothStart(cfg: Config, s0: State) returns (st: State)
    requires s0 == Init() && Reachable(cfg, s0)
    ensures Reachable(cfg, st) && st == s0.(pcs := map[0 := Try(Rec(0, 0)), 1 := Try(Rec(1, 0))], next := map[0 := 1, 1 := 1])
  {
    hide Reachable;
    var s1 := To(s0, 0, Try(Rec(0, 0))).(next := s0.next[0 := 1]);
    More(cfg, s0, P(0, StartLog), s1);
    st := To(s1, 1, Try(Rec(1, 0))).(next := s1.next[1 := 1]);
    More(cfg, s1, P(1, StartLog), st);
  }

  lemma InitReachable(cfg: Config)
    ensures Reachable(cfg, Init())
  {
    assert EndsIn(cfg, [Init()], [], Init());
  }

  lemma More(cfg: Config, st: State, l: Label, st': State)
    requires Reachable(cfg, st) && Step(cfg, st, st', l)
    ensures Reachable(cfg, st')
  {
    hide Step;
    var states: seq<State>, labels: seq<Label> :| EndsIn(cfg, states, labels, st);
    assert EndsIn(cfg, states + [st'], labels + [l], st');
  }

  // ----- an exchange ends ----------------------------------------------------------------------

  /** A producer has decided to exchange the buffers, and the log thread has not let it go. */
  predicate Underway(st: State) { Exchanging(Holder(st)) || Requested(Holder(st), st.phase) }

  function HoldRank(hold: Producer): nat {
    match hold
    case SwapA(_, _) => 4
    case SwapB(_, _) => 3
    case Swapped(_) => 2
    case Notified(_) => 1
    case _ => 0
  }

  function ServeRank(cap: nat, log: Logger, phase: nat): nat {
    match log
    case AtBarrier(token) => if token == phase then 0 else cap + 11
    case Flushing(_, i) => 10 + if i <= cap then cap - i else 0
    case Resetting(_) => 9
    case Top => 8
    case Waiting => 7
    case Woken => 6
    case Reading => 5
    case Taking => 4
    case LSwapA(_) => 3
    case LSwapB(_) => 2
    case Arriving => 1
    case Done => 0
  }

  function ExchangeRank(cfg: Config, st: State): nat {
    HoldRank(Holder(st)) + ServeRank(cfg.cap, st.log, st.phase)
  }

  /** The step is one of the two threads that take part in the exchange. */
  predicate TakesPart(st: State, l: Label) { l.L? || (l.P? && st.writer == Some(l.t)) }

  ghost predicate Nearer(cfg: Config, st: State, st': State, l: Label) {
    Underway(st') ==> if TakesPart(st, l) then ExchangeRank(cfg, st') < ExchangeRank(cfg, st) else ExchangeRank(cfg, st') == ExchangeRank(cfg, st)
  }

  lemma UnderwayRuns(cfg: Config, st: State)
    requires LocksOk(st) && Flow(st) && Hand(cfg, st) && Underway(st)
    ensures st.running && !Final(st.log) && st.writer.Some? && PcOf(st, st.writer.value) != Idle
  {
  }

  lemma ServeFalls(cfg: Config, st: State, st': State)
    requires StepLogger(cfg, st, st') && st.running && !Final(st.log) && (st.log.Flushing? || st.log.Resetting? ==> st.log.stage <= 3)
    requires Hand(cfg, st) && cfg.parties == 2 && Underway(st) && Holder(st') == Holder(st)
    ensures Underway(st') ==> ServeRank(cfg.cap, st'.log, st'.phase) < ServeRank(cfg.cap, st.log, st.phase)
  {
    LoggerNext(cfg, st, st');
    if st.log.Flushing? && st'.log.Flushing? { RowsBounded(cfg, st, st'); }
    if !st.log.Arriving? { BarrierStays(cfg, st, st'); }
    hide Holder;
    if !st.log.Arriving? {
      hide StepLogger;
    }
  }

  lemma LoggerNearer(cfg: Config, st: State, st': State)
    requires Safe(cfg, st) && Hand(cfg, st) && cfg.parties == 2 && Underway(st) && StepLogger(cfg, st, st')
    ensures Nearer(cfg, st, st', L) && st'.writer == st.writer
  {
    SafeFlow(cfg, st);
    UnderwayRuns(cfg, st);
    LoggerFrame(cfg, st, st');
    LoggerLocks(st, st');
    hide Safe, StepLogger, ServeRank, HoldRank;
    ServeFalls(cfg, st, st') by { assert Flow(st); }
  }

  lemma HolderNearer(cfg: Config, st: State, st': State, t: Tid, act: Act)
    requires LocksOk(st) && Hand(cfg, st) && cfg.parties == 2 && Underway(st) && StepProducer(cfg, st, st', t, act) && st.writer == Some(t)
    ensures Underway(st') ==> HoldRank(Holder(st')) < HoldRank(Holder(st)) && st'.phase == st.phase
    ensures Underway(st') ==> st'.writer == st.writer
  {
    hide LocksOk, Started, MaySwap;
  }

  lemma OtherNearer(cfg: Config, st: State, st': State, t: Tid, act: Act)
    requires LocksOk(st) && StepProducer(cfg, st, st', t, act) && st.writer.Some? && st.writer != Some(t)
    ensures Holder(st') == Holder(st) && st'.writer == st.writer && st'.phase == st.phase
  {
    assert !HoldsExclusive(PcOf(st, t));
    OthersStay(cfg, st, st', t, act);
    hide Started, MaySwap, LocksOk;
  }

  lemma StepNearer(cfg: Config, st: State, st': State, l: Label)
    requires Safe(cfg, st) && Hand(cfg, st) && cfg.parties == 2 && Underway(st) && Step(cfg, st, st', l)
    ensures Nearer(cfg, st, st', l)
  {
    SafeFlow(cfg, st);
    UnderwayRuns(cfg, st);
    hide Safe, StepProducer, StepLogger, ServeRank, HoldRank, Hand, LocksOk, Flow, Underway, Holder;
    match l
    case P(t, act) =>
      ProducerFrame(cfg, st, st', t, act);
      if st.writer == Some(t) {
        HolderNearer(cfg, st, st', t, act);
      } else {
        OtherNearer(cfg, st, st', t, act);
      }
    case L => LoggerNearer(cfg, st, st');
    case O =>
  }

  function PartSteps(states: seq<State>, labels: seq<Label>): nat
    requires |states| == |labels| + 1
  {
    if labels == [] then 0 else (if TakesPart(states[0], labels[0]) then 1 else 0) + PartSteps(states[1..], labels[1..])
  }

  /** As long as the exchange goes on, the two threads in it take no more steps than its rank says, whatever the other
      producers do. */
  lemma {:induction false} ExchangeEnds(cfg: Config, states: seq<State>, labels: seq<Label>)
    requires Steps(cfg, states, labels) && Reachable(cfg, states[0]) && cfg.parties == 2
    requires forall i :: 0 <= i < |states| ==> Underway(states[i])
    ensures PartSteps(states, labels) + ExchangeRank(cfg, states[|labels|]) <= ExchangeRank(cfg, states[0]) <= cfg.cap + 15
    decreases |labels|
  {
    RankBound(cfg, states[0]);
    hide Step, Reachable, ExchangeRank, Underway, TakesPart, Steps;
    StepsApart(cfg, states, labels);
    if labels != [] {
      var l := labels[0];
      assert Underway(states[0]) && Underway(states[1]);
      ReachedNearer(cfg, states[0], states[1], l);
      More(cfg, states[0], l, states[1]);
      ExchangeEnds(cfg, states[1..], labels[1..]);
    }
  }

  lemma StepsApart(cfg: Config, states: seq<State>, labels: seq<Label>)
    requires Steps(cfg, states, labels)
    ensures |states| == |labels| + 1
    ensures labels != [] ==> Step(cfg, states[0], states[1], labels[0]) && Steps(cfg, states[1..], labels[1..])
  {
    hide Step;
    if labels != [] {
      assert Step(cfg, states[0], states[1], labels[0]);
      assert forall i :: 0 <= i < |labels| - 1 ==> labels[1..][i] == labels[i + 1];
    }
  }

  lemma ReachedNearer(cfg: Config, st: State, st': State, l: Label)
    requires Reachable(cfg, st) && cfg.parties == 2 && Underway(st) && Step(cfg, st, st', l)
    ensures Nearer(cfg, st, st', l)
  {
    hide Reachable, Safe, Hand, Spaced, Underway, Nearer, Step;
    BarrierSpaces(cfg, st);
    SpacedSafe(cfg, st);
    StepNearer(cfg, st, st', l);
  }

  lemma RankBound(cfg: Config, st: State)
    ensures ExchangeRank(cfg, st) <= cfg.cap + 15
  {
  }

  /** And one of the two can always move. */
  lemma ExchangeMoves(cfg: Config, st: State) returns (l: Label, st': State)
    requires Reachable(cfg, st) && cfg.parties == 2 && Underway(st)
    ensures Step(cfg, st, st', l) && TakesPart(st, l)
  {
    hide Reachable, Spaced;
    BarrierSpaces(cfg, st);
    SpacedSafe(cfg, st);
    SafeFlow(cfg, st);
    UnderwayRuns(cfg, st);
    var u := st.writer.value;
    hide Flow, Contents, Primary, OrderOk, StepLogger, Hand, StepProducer;
    if PcOf(st, u).Arrived? && PcOf(st, u).token == st.phase {
      assert !st.log.Done? by { NotDone(st); }
      st' := LoggerMoves(cfg, st);
      l := L;
    } else {
      assert !PcOf(st, u).Full?;
      l, st' := ProducerMoves(cfg, st, u);
    }
  }

  lemma NotDone(st: State)
    requires Flow(st) && st.running
    ensures !st.log.Done?
  {
  }
}
