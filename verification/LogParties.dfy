/** What the number of parties of the barrier decides. Two are meant; the source has one. */
module LogParties {
  import opened Common
  import opened LogProtocol
  import opened LogSafety
  import opened LogBarrier
  import opened LogTheorems

  lemma InitReachable(cfg: Config)
    ensures Reachable(cfg, Init())
  {
    assert EndsIn(cfg, [Init()], [], Init());
  }

  lemma Extend(cfg: Config, st: State, l: Label, st': State)
    requires Reachable(cfg, st) && Step(cfg, st, st', l)
    ensures Reachable(cfg, st')
  {
    hide Step;
    var states: seq<State>, labels: seq<Label> :| EndsIn(cfg, states, labels, st);
    assert EndsIn(cfg, states + [st'], labels + [l], st');
  }

  // ----- one producer at work -----------------------------------------------------------

  /** Every message in the buffers and in the file has a number below n. */
  ghost predicate Known(st: State, n: nat) {
    && (forall k, i :: 0 <= k < |st.bufs| && i in st.bufs[k].rows ==> st.bufs[k].rows[i].number < n)
    && (forall r :: Text(r) in st.file ==> r.number < n)
  }

  function R(n: nat): Rec { Rec(0, n) }

  /** Only thread 0 is inside a call, at place pc with its message n, and the log thread is at place log. */
  ghost predicate AloneAt(st: State, pc: Producer, n: nat, log: Logger) {
    && |st.bufs| == 3 && st.primary < 3 && st.secondary < 3 && st.write < 3
    && st.owner == Alive && st.running && st.log == log
    && PcOf(st, 0) == pc && st.writer == (if HoldsExclusive(pc) then Some(0) else None)
    && (forall t: Tid :: t != 0 ==> PcOf(st, t) == Idle)
    && Started(st.next, 0) == n + 1 && Known(st, n)
  }

  /** Nobody is inside a call; thread 0 has logged n messages. */
  ghost predicate Quiet(st: State, n: nat, log: Logger) {
    && |st.bufs| == 3 && st.primary < 3 && st.secondary < 3 && st.write < 3
    && st.owner == Alive && st.running && st.log == log && st.writer == None
    && (forall t: Tid :: PcOf(st, t) == Idle) && Started(st.next, 0) == n && Known(st, n)
  }

  /** The three pointers, the event counter and the file are unchanged, and so are the buffers that are not
      primary. */
  ghost predicate SameRoles(st: State, st': State) {
    && st'.primary == st.primary && st'.secondary == st.secondary && st'.write == st.write && st'.event == st.event
    && st'.file == st.file
    && |st'.bufs| == |st.bufs| && forall k :: 0 <= k < |st.bufs| && k != st.primary ==> st'.bufs[k] == st.bufs[k]
  }

  lemma OthersIdle(st: State, st': State, pc: Producer)
    requires st'.pcs == st.pcs[0 := pc] && forall t: Tid :: t != 0 ==> PcOf(st, t) == Idle
    ensures PcOf(st', 0) == pc && forall t: Tid :: t != 0 ==> PcOf(st', t) == Idle
  {
    assert forall t: Tid :: t != 0 ==> PcOf(st', t) == PcOf(st, t);
  }

  lemma Begin(cfg: Config, st: State, n: nat, log: Logger) returns (st': State)
    requires Reachable(cfg, st) && Quiet(st, n, log)
    ensures Reachable(cfg, st') && AloneAt(st', Try(R(n)), n, log) && SameRoles(st, st') && st'.bufs == st.bufs
  {
    hide Reachable;
    st' := To(st, 0, Try(R(n))).(next := st.next[0 := n + 1]);
    Extend(cfg, st, P(0, StartLog), st');
    OthersIdle(st, st', Try(R(n)));
  }

  lemma EnterShared(cfg: Config, st: State, n: nat, log: Logger) returns (st': State)
    requires Reachable(cfg, st) && AloneAt(st, Try(R(n)), n, log)
    ensures Reachable(cfg, st') && AloneAt(st', Shared(R(n)), n, log) && SameRoles(st, st') && st'.bufs == st.bufs
  {
    hide Reachable;
    st' := To(st, 0, Shared(R(n)));
    Extend(cfg, st, P(0, LockShared), st');
    OthersIdle(st, st', Shared(R(n)));
  }

  lemma ClaimRow(cfg: Config, st: State, n: nat, log: Logger) returns (st': State)
    requires Reachable(cfg, st) && AloneAt(st, Shared(R(n)), n, log) && st.bufs[st.primary].index < cfg.cap
    ensures Reachable(cfg, st') && AloneAt(st', Claimed(R(n), st.primary, st.bufs[st.primary].index), n, log)
    ensures SameRoles(st, st') && st'.bufs[st.primary] == st.bufs[st.primary].(index := st.bufs[st.primary].index + 1)
  {
    hide Reachable;
    var p, i := st.primary, st.bufs[st.primary].index;
    st' := To(st.(bufs := st.bufs[p := st.bufs[p].(index := i + 1)]), 0, Claimed(R(n), p, i)).(cur := st.cur + [R(n)]);
    Extend(cfg, st, P(0, Claim), st');
    OthersIdle(st, st', Claimed(R(n), p, i));
  }

  lemma StoreRow(cfg: Config, st: State, n: nat, i: nat, log: Logger) returns (st': State)
    requires Reachable(cfg, st) && AloneAt(st, Claimed(R(n), st.primary, i), n, log)
    ensures Reachable(cfg, st') && Quiet(st', n + 1, log) && SameRoles(st, st')
    ensures st'.bufs[st.primary].index == st.bufs[st.primary].index
  {
    hide Reachable;
    var p := st.primary;
    var s2 := To(st.(bufs := st.bufs[p := st.bufs[p].(rows := st.bufs[p].rows[i := R(n)])]), 0, Stored);
    Extend(cfg, st, P(0, Store), s2);
    st' := To(s2, 0, Idle);
    Extend(cfg, s2, P(0, Unlock), st');
    assert forall t: Tid :: t != 0 ==> PcOf(st', t) == PcOf(st, t);
  }

  lemma WriteRow(cfg: Config, st: State, n: nat, log: Logger) returns (st': State)
    requires Reachable(cfg, st) && AloneAt(st, Shared(R(n)), n, log) && st.bufs[st.primary].index < cfg.cap
    ensures Reachable(cfg, st') && Quiet(st', n + 1, log) && SameRoles(st, st')
    ensures st'.bufs[st.primary].index == st.bufs[st.primary].index + 1
  {
    hide Reachable, Known;
    var s1 := ClaimRow(cfg, st, n, log);
    st' := StoreRow(cfg, s1, n, st.bufs[st.primary].index, log);
  }

  /** Thread 0 logs messages until no row of the primary buffer is left. */
  lemma {:induction false} LogFull(cfg: Config, st: State, n: nat) returns (st': State, m: nat)
    requires Reachable(cfg, st) && Quiet(st, n, Top) && st.bufs[st.primary].index <= cfg.cap
    ensures Reachable(cfg, st') && Quiet(st', m, Top) && SameRoles(st, st') && st'.bufs[st.primary].index == cfg.cap
    decreases cfg.cap - st.bufs[st.primary].index
  {
    hide Reachable, Known;
    if st.bufs[st.primary].index == cfg.cap {
      st', m := st, n;
    } else {
      var s1 := Begin(cfg, st, n, Top);
      var s2 := EnterShared(cfg, s1, n, Top);
      var s3 := WriteRow(cfg, s2, n, Top);
      st', m := LogFull(cfg, s3, n + 1);
    }
  }

  /** Thread 0 finds no row left. */
  lemma NoRowLeft(cfg: Config, st: State, n: nat) returns (st': State)
    requires Reachable(cfg, st) && AloneAt(st, Shared(R(n)), n, Top) && st.bufs[st.primary].index >= cfg.cap
    ensures Reachable(cfg, st') && AloneAt(st', Full(R(n)), n, Top) && SameRoles(st, st')
    ensures st'.bufs[st.primary].index > cfg.cap
  {
    hide Reachable;
    var p, b := st.primary, st.bufs[st.primary];
    st' := To(st.(bufs := st.bufs[p := b.(index := b.index + 1)]), 0, Full(R(n)));
    Extend(cfg, st, P(0, Claim), st');
    OthersIdle(st, st', Full(R(n)));
  }

  /** It takes the exclusive lock and gets to the point of exchanging the buffers. */
  lemma FindFull(cfg: Config, st: State, n: nat) returns (st': State)
    requires Reachable(cfg, st) && AloneAt(st, Shared(R(n)), n, Top) && st.bufs[st.primary].index >= cfg.cap
    ensures Reachable(cfg, st') && AloneAt(st', SwapA(R(n), st.primary), n, Top) && SameRoles(st, st')
  {
    hide Reachable;
    var s1 := NoRowLeft(cfg, st, n);
    var s2 := To(s1, 0, Excl(R(n))).(writer := Some(0));
    Extend(cfg, s1, P(0, LockExclusive), s2);
    st' := To(s2, 0, SwapA(R(n), st.primary));
    Extend(cfg, s2, P(0, Check), st');
    assert forall t: Tid :: t != 0 ==> PcOf(st', t) == PcOf(s1, t);
  }

  /** Thread 0 alone fills the primary buffer and gets to the point of exchanging it. */
  lemma ReachSwap(cfg: Config, st: State, n: nat) returns (st': State, m: nat)
    requires Reachable(cfg, st) && Quiet(st, n, Top) && st.bufs[st.primary].index <= cfg.cap
    ensures Reachable(cfg, st') && AloneAt(st', SwapA(R(m), st.primary), m, Top) && SameRoles(st, st')
  {
    hide Reachable, Known;
    var s1, m1 := LogFull(cfg, st, n);
    m := m1;
    var s2 := Begin(cfg, s1, m, Top);
    var s3 := EnterShared(cfg, s2, m, Top);
    st' := FindFull(cfg, s3, m);
  }

  lemma ExchangeAlone(cfg: Config, st: State, n: nat) returns (st': State)
    requires Reachable(cfg, st) && AloneAt(st, SwapA(R(n), st.primary), n, Top)
    ensures Reachable(cfg, st') && AloneAt(st', Swapped(R(n)), n, Top) && st'.bufs == st.bufs
    ensures st'.primary == st.secondary && st'.secondary == st.primary && st'.write == st.write && st'.event == st.event
    ensures st'.arrived == st.arrived && st'.phase == st.phase
  {
    hide Reachable;
    var p := st.primary;
    var s1 := To(st, 0, SwapB(R(n), p)).(primary := st.secondary, past := st.past + st.cur, cur := [],
                                         early := st.early || st.bufs[p].index < cfg.cap);
    Extend(cfg, st, P(0, SwapFirst), s1);
    st' := To(s1, 0, Swapped(R(n))).(secondary := p);
    Extend(cfg, s1, P(0, SwapSecond), st');
    assert forall t: Tid :: t != 0 ==> PcOf(st', t) == PcOf(st, t);
  }

  lemma NotifyAlone(cfg: Config, st: State, n: nat, log: Logger) returns (st': State)
    requires Reachable(cfg, st) && AloneAt(st, Swapped(R(n)), n, log)
    ensures Reachable(cfg, st') && AloneAt(st', Notified(R(n)), n, log) && SameRoles(st, st'.(event := st.event))
    ensures st'.event == st.event + 1 && st'.bufs == st.bufs && st'.arrived == st.arrived && st'.phase == st.phase
  {
    hide Reachable;
    st' := To(st, 0, Notified(R(n))).(event := st.event + 1);
    Extend(cfg, st, P(0, Notify), st');
    OthersIdle(st, st', Notified(R(n)));
  }

  // ----- at most one party: nobody waits ---------------------------------------------------

  lemma MeetAlone(cfg: Config, st: State, n: nat, log: Logger) returns (st': State)
    requires Reachable(cfg, st) && cfg.parties <= 1 && AloneAt(st, Notified(R(n)), n, log)
    ensures Reachable(cfg, st') && AloneAt(st', Try(R(n)), n, log) && SameRoles(st, st') && st'.bufs == st.bufs
  {
    hide Reachable;
    var s1 := To(st, 0, Arrived(R(n), st.phase)).(phase := st.phase + 1, arrived := 0);
    Extend(cfg, st, P(0, Meet), s1);
    st' := To(s1, 0, Try(R(n))).(writer := None);
    Extend(cfg, s1, P(0, Resume), st');
    assert forall t: Tid :: t != 0 ==> PcOf(st', t) == PcOf(st, t);
  }

  /** After an exchange that the log thread has not answered, thread 0 gets to the next one. */
  lemma SwapAgain(cfg: Config, st: State, n: nat) returns (st': State, m: nat)
    requires Reachable(cfg, st) && cfg.parties <= 1 && AloneAt(st, SwapA(R(n), st.primary), n, Top)
    requires st.bufs[st.secondary].index == 0
    ensures Reachable(cfg, st') && AloneAt(st', SwapA(R(m), st'.primary), m, Top) && st'.event > 0
  {
    hide Reachable, Known;
    var s1 := ExchangeAlone(cfg, st, n);
    var s2 := NotifyAlone(cfg, s1, n, Top);
    var s3 := MeetAlone(cfg, s2, n, Top);
    var s4 := EnterShared(cfg, s3, n, Top);
    if cfg.cap == 0 {
      m := n;
      st' := FindFull(cfg, s4, n);
    } else {
      var s5 := WriteRow(cfg, s4, n, Top);
      st', m := ReachSwap(cfg, s5, n + 1);
    }
  }

  /** The log thread answers the request and is about to exchange the secondary and the write buffer. */
  lemma WakeUp(cfg: Config, st: State) returns (st': State)
    requires Reachable(cfg, st) && st.log == Top && st.running && st.event > 0
    ensures Reachable(cfg, st') && st' == st.(log := LSwapA(st.secondary), event := 0)
  {
    hide Reachable;
    var l1 := st.(log := Waiting);
    Extend(cfg, st, L, l1);
    var l2 := l1.(log := Woken);
    Extend(cfg, l1, L, l2);
    var l3 := l2.(log := Reading);
    Extend(cfg, l2, L, l3);
    var l4 := l3.(log := Taking, event := 0);
    Extend(cfg, l3, L, l4);
    st' := st.(log := LSwapA(st.secondary), event := 0);
    Extend(cfg, l4, L, st');
  }

  /** The log thread exchanges its pointers while thread 0 is between the two halves of its own exchange. */
  lemma Interleave(cfg: Config, st: State, n: nat) returns (st': State)
    requires Reachable(cfg, st) && AloneAt(st, SwapA(R(n), st.primary), n, LSwapA(st.secondary))
    ensures Reachable(cfg, st') && AloneAt(st', Swapped(R(n)), n, LSwapB(st.secondary)) && st'.primary == st.secondary
  {
    hide Reachable;
    var p := st.primary;
    var s1 := To(st, 0, SwapB(R(n), p)).(primary := st.secondary, past := st.past + st.cur, cur := [],
                                         early := st.early || st.bufs[p].index < cfg.cap);
    Extend(cfg, st, P(0, SwapFirst), s1);
    var s2 := s1.(log := LSwapB(st.secondary), secondary := s1.write);
    Extend(cfg, s1, L, s2);
    st' := To(s2, 0, Swapped(R(n))).(secondary := p);
    Extend(cfg, s2, P(0, SwapSecond), st');
    assert forall t: Tid :: t != 0 ==> PcOf(st', t) == PcOf(st, t);
  }

  /** It answers an old request in this way. */
  lemma SwapsCollide(cfg: Config, st: State, n: nat) returns (st': State)
    requires Reachable(cfg, st) && AloneAt(st, SwapA(R(n), st.primary), n, Top) && st.event > 0
    ensures Reachable(cfg, st') && AloneAt(st', Swapped(R(n)), n, Arriving)
    ensures st'.primary == st.secondary && st'.write == st.secondary
  {
    hide Reachable;
    var s1 := WakeUp(cfg, st);
    assert forall t: Tid :: PcOf(s1, t) == PcOf(st, t);
    var s2 := Interleave(cfg, s1, n);
    st' := s2.(log := Arriving, write := st.secondary);
    Extend(cfg, s2, L, st');
    assert forall t: Tid :: PcOf(st', t) == PcOf(s2, t);
  }

  /** With a barrier of at most one party a single producer makes two roles fall on the same buffer. */
  lemma Collision(cfg: Config) returns (st: State, n: nat)
    requires cfg.parties <= 1
    ensures Reachable(cfg, st) && AloneAt(st, Swapped(R(n)), n, Arriving) && st.primary == st.write
  {
    hide Reachable;
    InitReachable(cfg);
    var s1, n1 := ReachSwap(cfg, Init(), 0);
    var s2, n2 := SwapAgain(cfg, s1, n1);
    n := n2;
    st := SwapsCollide(cfg, s2, n);
  }

  // ----- ... and a message is lost ---------------------------------------------------------

  /** The log thread passes the barrier and writes all rows of the write buffer. */
  lemma {:induction false} FlushAll(cfg: Config, st: State, pc: Producer, n: nat, i: nat) returns (st': State)
    requires Reachable(cfg, st) && AloneAt(st, pc, n, Flushing(0, i)) && i <= cfg.cap
    ensures Reachable(cfg, st') && AloneAt(st', pc, n, Resetting(0))
    ensures st'.primary == st.primary && st'.write == st.write && st'.bufs[st.write].index == 0
    decreases cfg.cap - i
  {
    hide Reachable;
    if i < cfg.cap {
      var s1 := st.(file := st.file + [LineOf(st.bufs[st.write], i)], log := Flushing(0, i + 1));
      Extend(cfg, st, L, s1);
      assert forall t: Tid :: PcOf(s1, t) == PcOf(st, t);
      st' := FlushAll(cfg, s1, pc, n, i + 1);
    } else {
      st' := st.(bufs := st.bufs[st.write := st.bufs[st.write].(index := 0)], log := Resetting(0));
      Extend(cfg, st, L, st');
      assert forall t: Tid :: PcOf(st', t) == PcOf(st, t);
    }
  }

  lemma PassBarrier(cfg: Config, st: State, pc: Producer, n: nat) returns (st': State)
    requires Reachable(cfg, st) && cfg.parties <= 1 && AloneAt(st, pc, n, Arriving)
    ensures Reachable(cfg, st') && AloneAt(st', pc, n, Flushing(0, 0)) && SameRoles(st, st')
  {
    hide Reachable;
    var s1 := st.(log := AtBarrier(st.phase), phase := st.phase + 1, arrived := 0);
    Extend(cfg, st, L, s1);
    st' := s1.(log := Flushing(0, 0));
    Extend(cfg, s1, L, st');
    assert forall t: Tid :: PcOf(st', t) == PcOf(st, t);
  }

  /** Thread 0 claims and fills a row of the primary buffer, which is the write buffer, after its index was reset
      and before its rows are. The log thread then clears the row. */
  lemma RowIsCleared(cfg: Config, st: State, n: nat) returns (st': State)
    requires Reachable(cfg, st) && AloneAt(st, Shared(R(n)), n, Resetting(0)) && cfg.cap >= 1
    requires st.primary == st.write && st.bufs[st.write].index == 0
    ensures Reachable(cfg, st') && Known(st', n) && Started(st'.next, 0) == n + 1
    ensures st'.log == Top && st'.running && st'.owner == Alive && (forall t: Tid :: PcOf(st', t) == Idle)
    ensures |st'.bufs| == 3 && st'.primary < 3 && st'.secondary < 3 && st'.write < 3
    ensures st'.bufs[st'.write] == Buf(1, map[])
  {
    hide Reachable;
    var s1 := WriteRow(cfg, st, n, Resetting(0));
    var w := st.write;
    st' := s1.(bufs := s1.bufs[w := s1.bufs[w].(rows := map[])], log := Top);
    Extend(cfg, s1, L, st');
    assert forall t: Tid :: PcOf(st', t) == PcOf(s1, t);
    assert forall k :: 0 <= k < 3 && k != w ==> st'.bufs[k] == st.bufs[k];
  }

  /** The log thread is in its last three flushes. */
  ghost predicate Ending(st: State) {
    && |st.bufs| == 3 && st.primary < 3 && st.secondary < 3 && st.write < 3
    && !st.running && Final(st.log) && (st.log.Flushing? || st.log.Resetting? ==> st.log.stage <= 3)
  }

  /** No message appears from nowhere; the file only grows. */
  ghost predicate Onward(st: State, st': State) {
    && st'.next == st.next && st'.early == st.early && st.file <= st'.file
    && forall n: nat :: Known(st, n) ==> Known(st', n)
  }

  lemma FinalStep(cfg: Config, st: State) returns (st': State)
    requires Ending(st) && !st.log.Done?
    ensures StepLogger(cfg, st, st') && Ending(st') && Onward(st, st')
  {
    var (b, m) := FlushTarget(cfg, st, st.log.stage);
    if st.log.Resetting? {
      st' := st.(bufs := st.bufs[b := st.bufs[b].(rows := map[])], log := AfterFlush(st.log.stage));
    } else if st.log.i < m {
      st' := st.(file := st.file + [LineOf(st.bufs[b], st.log.i)], log := Flushing(st.log.stage, st.log.i + 1));
    } else {
      st' := st.(bufs := st.bufs[b := st.bufs[b].(index := 0)], log := Resetting(st.log.stage));
    }
  }

  lemma {:induction false} FinishFlushes(cfg: Config, st: State) returns (st': State)
    requires Reachable(cfg, st) && Ending(st)
    ensures Reachable(cfg, st') && st'.log == Done && Onward(st, st')
    decreases Rank(cfg, st.log)
  {
    hide Reachable, Known, StepLogger, Rank;
    if st.log.Done? {
      st' := st;
    } else {
      var s1 := FinalStep(cfg, st);
      Extend(cfg, st, L, s1);
      RankFalls(cfg, st, s1);
      st' := FinishFlushes(cfg, s1);
    }
  }

  /** The destructor stops the log thread, which goes on to its last three flushes. */
  lemma Stop(cfg: Config, st: State) returns (st': State)
    requires Reachable(cfg, st) && st.log == Top && st.owner == Alive && (forall t: Tid :: PcOf(st, t) == Idle)
    requires |st.bufs| == 3 && st.primary < 3 && st.secondary < 3 && st.write < 3
    ensures Reachable(cfg, st') && st' == st.(running := false, owner := Stopped, log := Flushing(1, 0)) && Ending(st')
  {
    hide Reachable;
    var s1 := st.(running := false, owner := Stopped);
    Extend(cfg, st, O, s1);
    st' := s1.(log := Flushing(1, 0));
    Extend(cfg, s1, L, st');
  }

  lemma Destroy(cfg: Config, st: State) returns (st': State)
    requires Reachable(cfg, st) && st.log == Top && st.owner == Alive && (forall t: Tid :: PcOf(st, t) == Idle)
    requires |st.bufs| == 3 && st.primary < 3 && st.secondary < 3 && st.write < 3
    ensures Reachable(cfg, st') && st'.log == Done && Onward(st, st')
  {
    hide Reachable;
    var s1 := Stop(cfg, st);
    st' := FinishFlushes(cfg, s1);
  }

  lemma {:induction false} TextsAreLines(file: seq<Line>, r: Rec)
    requires r in Texts(file)
    ensures Text(r) in file
    decreases |file|
  {
    var n := |file| - 1;
    if r in Texts(file[..n]) {
      TextsAreLines(file[..n], r);
    }
  }

  /** Everybody is done, and message n of thread 0 is nowhere; the write buffer counts one row and has none. */
  lemma RowIsLost(cfg: Config) returns (st: State, n: nat)
    requires cfg.parties <= 1 && cfg.cap >= 1
    ensures Reachable(cfg, st) && Known(st, n) && Started(st.next, 0) == n + 1
    ensures st.log == Top && st.running && st.owner == Alive && (forall t: Tid :: PcOf(st, t) == Idle)
    ensures |st.bufs| == 3 && st.primary < 3 && st.secondary < 3 && st.write < 3 && st.bufs[st.write] == Buf(1, map[])
  {
    hide Reachable, Known;
    var s1, m := Collision(cfg);
    n := m;
    var s2 := NotifyAlone(cfg, s1, n, Arriving);
    var s3 := MeetAlone(cfg, s2, n, Arriving);
    var s4 := EnterShared(cfg, s3, n, Arriving);
    var s5 := PassBarrier(cfg, s4, Shared(R(n)), n);
    var s6 := FlushAll(cfg, s5, Shared(R(n)), n, 0);
    st := RowIsCleared(cfg, s6, n);
  }

  /** With at most one party a message can get lost for good: the log thread has finished, and the file does not
      have it. */
  lemma MessageIsLost(cfg: Config) returns (st: State, r: Rec)
    requires cfg.parties <= 1 && cfg.cap >= 1
    ensures Reachable(cfg, st) && st.log.Done? && r.number < Started(st.next, r.producer) && r !in Texts(st.file)
  {
    hide Reachable, Known;
    var s1, n := RowIsLost(cfg);
    st := Destroy(cfg, s1);
    r := R(n);
    NotInFile(st, n);
  }

  lemma NotInFile(st: State, n: nat)
    requires Known(st, n)
    ensures R(n) !in Texts(st.file)
  {
    if R(n) in Texts(st.file) {
      TextsAreLines(st.file, R(n));
    }
  }

  // ----- more than two parties: everybody waits ---------------------------------------------

  /** Somebody inside a call, or the log thread, has a next step. */
  ghost predicate CanMove(cfg: Config, st: State) {
    exists l, st' :: Step(cfg, st, st', l) && (l.L? || (l.P? && PcOf(st, l.t) != Idle))
  }

  /** The producer and the log thread both wait at the barrier for a third party. */
  lemma BothWait(cfg: Config) returns (st: State)
    requires cfg.parties >= 3
    ensures Reachable(cfg, st) && PcOf(st, 0) != Idle && !CanMove(cfg, st)
  {
    hide Reachable, CanMove, Spaced;
    InitReachable(cfg);
    var s1, n := ReachSwap(cfg, Init(), 0);
    hide Known;
    var s2 := ExchangeAlone(cfg, s1, n);
    var s3 := NotifyAlone(cfg, s2, n, Top);
    BarrierSpaces(cfg, s3);
    NobodyArrived(cfg, s3, n);
    st := MeetAndWait(cfg, s3, n);
  }

  lemma NobodyArrived(cfg: Config, st: State, n: nat)
    requires Hand(cfg, st) && AloneAt(st, Notified(R(n)), n, Top)
    ensures st.arrived == 0
  {
  }

  lemma MeetAndWait(cfg: Config, st: State, n: nat) returns (st': State)
    requires Reachable(cfg, st) && cfg.parties >= 3 && AloneAt(st, Notified(R(n)), n, Top) && st.event > 0 && st.arrived == 0
    ensures Reachable(cfg, st') && PcOf(st', 0) != Idle && !CanMove(cfg, st')
  {
    hide Reachable;
    var s1 := To(st, 0, Arrived(R(n), st.phase)).(arrived := 1);
    Extend(cfg, st, P(0, Meet), s1);
    var s2 := WakeUp(cfg, s1);
    var s3 := s2.(log := LSwapB(s2.secondary), secondary := s2.write);
    Extend(cfg, s2, L, s3);
    var s4 := s3.(log := Arriving, write := s2.secondary);
    Extend(cfg, s3, L, s4);
    st' := s4.(log := AtBarrier(s4.phase), arrived := 2);
    Extend(cfg, s4, L, st');
    assert forall t: Tid :: t != 0 ==> PcOf(st', t) == PcOf(st, t);
  }

  // ----- no rows at all -----------------------------------------------------------------------

  /** With buffers of no rows no message is ever claimed, so no call of `log` returns. */
  ghost predicate NoRows(st: State) {
    && st.file == [] && (forall t: Tid :: PcOf(st, t) == Idle ==> Started(st.next, t) == 0)
    && (forall t: Tid :: !PcOf(st, t).Claimed? && !PcOf(st, t).Stored?)
    && (st.running <==> st.owner.Alive?) && (Final(st.log) ==> !st.running)
    && (!st.running ==> forall t: Tid :: PcOf(st, t) == Idle)
  }

  lemma NoRowsProducer(cfg: Config, st: State, st': State, t: Tid, act: Act)
    requires cfg.cap == 0 && NoRows(st) && StepProducer(cfg, st, st', t, act)
    ensures NoRows(st')
  {
    OthersStay(cfg, st, st', t, act);
    ProducerFrame(cfg, st, st', t, act);
    NoRowsActor(cfg, st, st', t, act);
    hide StepProducer, Started;
  }

  lemma NoRowsActor(cfg: Config, st: State, st': State, t: Tid, act: Act)
    requires cfg.cap == 0 && NoRows(st) && StepProducer(cfg, st, st', t, act)
    ensures st.running && st'.file == st.file && PcOf(st', t) != Idle && !PcOf(st', t).Claimed? && !PcOf(st', t).Stored?
  {
    assert PcOf(st, t) == Idle ==> act.StartLog?;
    hide Started;
  }

  lemma NoRowsStep(cfg: Config, st: State, st': State, l: Label)
    requires cfg.cap == 0 && NoRows(st) && Step(cfg, st, st', l)
    ensures NoRows(st')
  {
    hide StepProducer, StepLogger;
    match l
    case P(t, act) => NoRowsProducer(cfg, st, st', t, act);
    case L =>
      LoggerFrame(cfg, st, st');
      LoggerNext(cfg, st, st');
      NoRowsFile(cfg, st, st');
      assert forall t: Tid :: PcOf(st', t) == PcOf(st, t);
    case O => assert forall t: Tid :: PcOf(st', t) == PcOf(st, t);
  }

  lemma NoRowsFile(cfg: Config, st: State, st': State)
    requires cfg.cap == 0 && StepLogger(cfg, st, st')
    ensures st'.file == st.file
  {
  }

  lemma {:induction false} NoRowsRun(cfg: Config, states: seq<State>, labels: seq<Label>)
    requires cfg.cap == 0 && Run(cfg, states, labels)
    ensures NoRows(states[|labels|])
    decreases |labels|
  {
    if labels != [] {
      hide Step, NoRows;
      var n := |labels| - 1;
      NoRowsRun(cfg, states[..n + 1], labels[..n]);
      NoRowsStep(cfg, states[n], states[n + 1], labels[n]);
    }
  }

  lemma NoRowsWritten(cfg: Config, st: State)
    requires cfg.cap == 0 && Reachable(cfg, st) && st.log.Done?
    ensures AllWritten(st)
  {
    hide Run;
    var states: seq<State>, labels: seq<Label> :| EndsIn(cfg, states, labels, st);
    NoRowsRun(cfg, states, labels);
    assert forall t: Tid :: PcOf(st, t) == Idle;
  }

  // ----- what the number of parties decides ----------------------------------------------------

  ghost predicate RolesSafe(cfg: Config) {
    forall st :: Reachable(cfg, st) && BetweenExchanges(st) ==> DistinctRoles(st)
  }

  ghost predicate FileSafe(cfg: Config) {
    forall st :: Reachable(cfg, st) && st.log.Done? ==> AllWritten(st)
  }

  ghost predicate NeverStuck(cfg: Config) {
    forall st, t: Tid :: Reachable(cfg, st) && PcOf(st, t) != Idle ==> CanMove(cfg, st)
  }

  /** The three roles stay on three buffers exactly if the barrier has two parties or more. */
  lemma RolesNeedTwo(cfg: Config)
    ensures RolesSafe(cfg) <==> cfg.parties >= 2
  {
    hide Reachable, Spaced, Known;
    if cfg.parties >= 2 {
      forall st | Reachable(cfg, st) && BetweenExchanges(st)
        ensures DistinctRoles(st)
      {
        BarrierSpaces(cfg, st);
        RolesArePermutation(cfg, st);
      }
    } else {
      var st, n := Collision(cfg);
      assert BetweenExchanges(st) && !DistinctRoles(st);
    }
  }

  /** Every message reaches the file exactly if the barrier has two parties or more, or if the buffers have no
      rows, so that no call ever ends. */
  lemma FileNeedsTwo(cfg: Config)
    ensures FileSafe(cfg) <==> cfg.parties >= 2 || cfg.cap == 0
  {
    hide Reachable, Spaced;
    if cfg.parties >= 2 || cfg.cap == 0 {
      forall st | Reachable(cfg, st) && st.log.Done?
        ensures AllWritten(st)
      {
        if cfg.parties >= 2 {
          BarrierSpaces(cfg, st);
          EverythingFlushed(cfg, st);
        } else {
          NoRowsWritten(cfg, st);
        }
      }
    } else {
      var st, r := MessageIsLost(cfg);
      LostIsNotWritten(st, r);
    }
  }

  lemma LostIsNotWritten(st: State, r: Rec)
    requires r.number < Started(st.next, r.producer) && r !in Texts(st.file)
    ensures !AllWritten(st)
  {
    hide Texts;
    assert r == Rec(r.producer, r.number);
  }

  lemma MovesIf(cfg: Config, st: State, t: Tid)
    requires Reachable(cfg, st) && cfg.parties == 2 && PcOf(st, t) != Idle
    ensures CanMove(cfg, st)
  {
    hide Reachable, Step;
    var l, st' := NoDeadlock(cfg, st, t);
  }

  /** The roles are safe and no call gets stuck exactly with two parties. */
  lemma ExactlyTwo(cfg: Config)
    ensures RolesSafe(cfg) && NeverStuck(cfg) <==> cfg.parties == 2
  {
    hide Reachable, RolesSafe, CanMove;
    RolesNeedTwo(cfg);
    if cfg.parties == 2 {
      forall st, t: Tid | Reachable(cfg, st) && PcOf(st, t) != Idle
        ensures CanMove(cfg, st)
      {
        MovesIf(cfg, st, t);
      }
    } else if cfg.parties >= 3 {
      var st := BothWait(cfg);
    }
  }
}
