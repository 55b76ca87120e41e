/** The invariant of the logger protocol and its preservation by every step, whatever the barrier does, as long
    as no producer starts an exchange before the log thread has taken over the one before. */
module LogSafety {
  import opened Common
  import opened LogProtocol

  // ----- who is where ---------------------------------------------------------------

  /** The exclusive owner's place, Idle if there is none. */
  function Holder(st: State): Producer { if st.writer.Some? then PcOf(st, st.writer.value) else Idle }

  ghost predicate LocksOk(st: State) {
    && (forall t: Tid :: HoldsExclusive(PcOf(st, t)) <==> st.writer == Some(t))
    && (st.writer.Some? ==> forall t: Tid :: !HoldsShared(PcOf(st, t)))
    && (!st.running ==> forall t: Tid :: PcOf(st, t) == Idle)
  }

  /** The holder is exchanging the primary and the secondary buffer and has not sent its event yet. */
  predicate Exchanging(hold: Producer) { hold.SwapA? || hold.SwapB? || hold.Swapped? }

  /** The log thread is exchanging the secondary and the write buffer. */
  predicate Swapping(log: Logger) { log.Taking? || log.LSwapA? || log.LSwapB? }

  /** The last three flushes and after. */
  predicate Final(log: Logger) { log.Done? || ((log.Flushing? || log.Resetting?) && log.stage > 0) }

  /** The last flush is written. */
  predicate Finished(log: Logger) { log.Done? || log == Resetting(3) }

  function One(b: bool): nat { if b then 1 else 0 }

  /** Events that ask for the secondary buffer to be taken: all but the destructor's. */
  function Pending(event: nat, owner: Owner): nat {
    var s := One(owner.Signalled? || owner.Joined?);
    if event >= s then event - s else 0
  }

  /** At most one request is pending, and none while buffers are exchanged. */
  ghost predicate FlowOk(hold: Producer, log: Logger, event: nat, running: bool, owner: Owner) {
    && Pending(event, owner) <= 1
    && (Swapping(log) ==> Pending(event, owner) == 0)
    && (Exchanging(hold) ==> running && Pending(event, owner) == 0 && !Swapping(log))
    && (log.Reading? ==> Pending(event, owner) == 1)
    && (log.Woken? && running ==> Pending(event, owner) == 1)
    && (running <==> owner.Alive?)
    && (Final(log) ==> !running)
    && (log.Flushing? || log.Resetting? ==> log.stage <= 3)
    && (owner.Joined? ==> log.Done?)
  }

  // ----- the three roles ------------------------------------------------------------

  /** The secondary buffer while its pointer is being exchanged. */
  function SecondOf(hold: Producer, secondary: nat): nat { if hold.SwapB? then hold.t else secondary }

  function WriteOf(log: Logger, write: nat): nat { if log.LSwapB? then log.t else write }

  /** Up to a half-done exchange, the three pointers are a permutation of the three buffers. */
  ghost predicate RolesOk(hold: Producer, log: Logger, primary: nat, secondary: nat, write: nat) {
    var s, w := SecondOf(hold, secondary), WriteOf(log, write);
    && primary < 3 && s < 3 && w < 3 && primary != s && primary != w && s != w
    && (hold.SwapA? ==> hold.t == primary)
    && (hold.SwapB? ==> secondary == primary)
    && (log.LSwapA? ==> log.t == secondary)
    && (log.LSwapB? ==> secondary == write)
  }

  // ----- contents -------------------------------------------------------------------

  /** The second of the last three flushes is written. */
  predicate PastSecond(log: Logger) {
    log.Done? || (log.Flushing? && log.stage == 3) || (log.Resetting? && log.stage >= 2)
  }

  /** The secondary buffer has rows for the log thread; `e` requests are pending. */
  predicate LoadedSecond(hold: Producer, log: Logger, e: nat) {
    (hold.SwapB? || hold.Swapped? || e == 1 || log.Taking? || log.LSwapA?) && !PastSecond(log)
  }

  predicate LoadedWrite(log: Logger) {
    log.LSwapB? || log.Arriving? || log.AtBarrier? || (log.Flushing? && log.stage == 0)
  }

  /** Number of claimed rows. */
  function Claims(cfg: Config, b: Buf): nat { Min(b.index, cfg.cap) }

  /** Every claimed row is written. */
  ghost predicate Complete(cfg: Config, b: Buf) {
    forall i: nat :: i in b.rows <==> i < Claims(cfg, b)
  }

  /** The messages in rows i to n - 1. */
  function Rows(b: Buf, i: nat, n: nat): seq<Rec>
    decreases n - i
  {
    if i >= n then [] else (if i in b.rows then [b.rows[i]] else []) + Rows(b, i + 1, n)
  }

  /** The messages in the file. */
  function Texts(file: seq<Line>): seq<Rec> {
    if file == [] then [] else Texts(file[..|file| - 1]) + (if file[|file| - 1].Text? then [file[|file| - 1].r] else [])
  }

  /** How far the flush of the given stage has come. */
  function FlushedTo(log: Logger, stage: nat): nat { if log.Flushing? && log.stage == stage then log.i else 0 }

  /** The buffer is reset, or half so. */
  predicate Cleared(b: Buf, half: bool) { b.index == 0 && (half || b.rows == map[]) }

  /** The buffers that are not primary are complete or reset, and nothing of them is lost: what the file
      has, what is left of the write buffer and what is left of the secondary buffer make up all former rows. */
  ghost predicate DataOk(cfg: Config, s: Buf, w: Buf, ls: bool, lw: bool, log: Logger, file: seq<Line>, past: seq<Rec>, cur: seq<Rec>) {
    && (if ls then Complete(cfg, s) else Cleared(s, log == Resetting(2)))
    && (if lw then Complete(cfg, w) else Cleared(w, log == Resetting(0)))
    && (if Finished(log) then Texts(file) == past + cur
        else if log.Flushing? && log.stage == 3 then log.i <= |cur| && Texts(file) == past + cur[..log.i]
        else Texts(file) + (if lw then Rows(w, FlushedTo(log, 0), cfg.cap) else [])
                         + (if ls then Rows(s, FlushedTo(log, 2), cfg.cap) else []) == past)
    && (log.Flushing? && log.stage == 0 ==> log.i <= cfg.cap)
    && (log.Flushing? && log.stage == 1 ==> log.i == 0)
  }

  /** The primary buffer holds the current rows; a row that is not written yet has its producer at it. */
  ghost predicate PrimaryOk(cfg: Config, b: Buf, p: nat, cur: seq<Rec>, st: State) {
    && |cur| == Claims(cfg, b)
    && (forall i :: i in b.rows ==> i < |cur| && b.rows[i] == cur[i])
    && (forall i: nat :: i < |cur| && i !in b.rows ==> exists t: Tid :: PcOf(st, t) == Claimed(cur[i], p, i))
    && PendingOk(b, p, cur, st)
  }

  /** An unfinished write goes to a row of its own in the primary buffer. */
  ghost predicate PendingOk(b: Buf, p: nat, cur: seq<Rec>, st: State) {
    && (forall t: Tid :: PcOf(st, t).Claimed? ==>
          && var pc := PcOf(st, t);
             pc.b == p && pc.i < |cur| && cur[pc.i] == pc.r && pc.i !in b.rows)
    && (forall t: Tid, u: Tid :: PcOf(st, t).Claimed? && PcOf(st, u).Claimed? && PcOf(st, t).i == PcOf(st, u).i ==> t == u)
  }

  // ----- order and blank lines --------------------------------------------------------

  /** The message a producer has started but not claimed a row for. */
  predicate Unclaimed(pc: Producer) {
    !pc.Idle? && !pc.Claimed? && !pc.Stored?
  }

  /** How many of t's messages have a row. */
  function Placed(st: State, t: Tid): int { Started(st.next, t) - One(Unclaimed(PcOf(st, t))) }

  /** Each producer's messages have rows in the order in which it logged them, one each. */
  ghost predicate OrderOk(st: State) {
    var all := st.past + st.cur;
    && (forall t: Tid, k: nat {:trigger Rec(t, k)} :: Rec(t, k) in all <==> k < Placed(st, t))
    && (forall i, j :: 0 <= i < j < |all| && all[i].producer == all[j].producer ==> all[i].number < all[j].number)
    && forall t: Tid :: InHand(st, t)
  }

  /** The message a producer carries is the last one it started. */
  ghost predicate InHand(st: State, t: Tid) {
    Unclaimed(PcOf(st, t)) ==> Started(st.next, t) >= 1 && PcOf(st, t).r == Rec(t, Started(st.next, t) - 1)
  }

  /** A buffer that was swapped out with rows left shows up as blank lines, sooner or later, unless it is flushed
      only after the loop (`late`); nothing else does. */
  ghost predicate BlankOk(cfg: Config, s: Buf, w: Buf, ls: bool, lw: bool, log: Logger, file: seq<Line>, early: bool, late: bool) {
    var shows := Blank in file || (ls && s.index < cfg.cap) || (lw && w.index < cfg.cap);
    && (shows ==> early) && (early ==> shows || late)
    && (lw && log.Flushing? && log.i > w.index ==> Blank in file)
  }

  // ----- the invariant ----------------------------------------------------------------

  ghost predicate ContentsOk(cfg: Config, bufs: seq<Buf>, hold: Producer, log: Logger, primary: nat, secondary: nat, write: nat,
                             e: nat, file: seq<Line>, past: seq<Rec>, cur: seq<Rec>, early: bool) {
    && |bufs| == 3 && RolesOk(hold, log, primary, secondary, write)
    && DataOk(cfg, bufs[SecondOf(hold, secondary)], bufs[WriteOf(log, write)], LoadedSecond(hold, log, e), LoadedWrite(log),
              log, file, past, cur)
    && BlankOk(cfg, bufs[SecondOf(hold, secondary)], bufs[WriteOf(log, write)], LoadedSecond(hold, log, e), LoadedWrite(log),
               log, file, early, Final(log) && e == 1)
  }

  ghost predicate Flow(st: State) {
    FlowOk(Holder(st), st.log, st.event, st.running, st.owner)
  }

  ghost predicate Contents(cfg: Config, st: State) {
    ContentsOk(cfg, st.bufs, Holder(st), st.log, st.primary, st.secondary, st.write, Pending(st.event, st.owner),
               st.file, st.past, st.cur, st.early)
  }

  ghost predicate Primary(cfg: Config, st: State) {
    st.primary < |st.bufs| && (Finished(st.log) || PrimaryOk(cfg, st.bufs[st.primary], st.primary, st.cur, st))
  }

  ghost predicate Safe(cfg: Config, st: State) {
    LocksOk(st) && Flow(st) && Contents(cfg, st) && Primary(cfg, st) && OrderOk(st)
  }

  /** The step takes the decision to exchange the primary and the secondary buffer. */
  ghost predicate Starts(cfg: Config, st: State, l: Label) {
    && l.P? && l.act.Check? && PcOf(st, l.t).Excl?
    && st.primary < |st.bufs| && MaySwap(cfg, st.bufs[st.primary].index)
  }

  /** No exchange starts before the log thread has taken over the one before. */
  ghost predicate Polite(cfg: Config, st: State, l: Label) {
    Starts(cfg, st, l) ==> st.event == 0 && !Swapping(st.log)
  }

  // ----- a producer's step ------------------------------------------------------------

  lemma OthersStay(cfg: Config, st: State, st': State, t: Tid, act: Act)
    requires StepProducer(cfg, st, st', t, act)
    ensures forall u: Tid :: u != t ==> PcOf(st', u) == PcOf(st, u) && Started(st'.next, u) == Started(st.next, u)
  {
    hide MaySwap, HoldsShared;
  }

  /** Taking and dropping the two kinds of lock. */
  lemma ProducerSection(cfg: Config, st: State, st': State, t: Tid, act: Act)
    requires LocksOk(st) && StepProducer(cfg, st, st', t, act)
    ensures HoldsExclusive(PcOf(st', t)) <==> st'.writer == Some(t)
    ensures st'.writer == st.writer || (st.writer == None && st'.writer == Some(t)) || (st.writer == Some(t) && st'.writer == None)
    ensures HoldsShared(PcOf(st', t)) ==> st'.writer == None
    ensures st.writer == None && st'.writer.Some? ==> forall u: Tid :: !HoldsShared(PcOf(st, u))
    ensures st'.running == st.running && (PcOf(st, t) == Idle ==> st.owner == Alive)
  {
  }

  lemma ProducerLocks(cfg: Config, st: State, st': State, t: Tid, act: Act)
    requires LocksOk(st) && Flow(st) && StepProducer(cfg, st, st', t, act)
    ensures LocksOk(st')
  {
    OthersStay(cfg, st, st', t, act);
    ProducerSection(cfg, st, st', t, act);
    AliveRuns(st);
    hide StepProducer, Flow, Started;
  }

  lemma AliveRuns(st: State)
    requires Flow(st)
    ensures st.running <==> st.owner.Alive?
  {
  }

  predicate OfHolder(act: Act) {
    act.SwapFirst? || act.SwapSecond? || act.Notify? || act.Meet? || act.Resume?
  }

  /** Steps outside an exchange do not send events, and do not start one unless the check says so. */
  lemma OutsideFlow(cfg: Config, st: State, st': State, t: Tid, act: Act)
    requires LocksOk(st) && StepProducer(cfg, st, st', t, act) && !OfHolder(act)
    ensures st'.event == st.event
    ensures Exchanging(Holder(st')) ==> Exchanging(Holder(st)) || Starts(cfg, st, P(t, act))
  {
    hide Started;
  }

  lemma InsideFlow(cfg: Config, st: State, st': State, t: Tid, act: Act)
    requires LocksOk(st) && StepProducer(cfg, st, st', t, act) && OfHolder(act)
    ensures st'.event == st.event + One(act.Notify?) && (act.Notify? ==> Exchanging(Holder(st)) && !Exchanging(Holder(st')))
    ensures Exchanging(Holder(st')) ==> Exchanging(Holder(st))
  {
    assert st.writer == Some(t);
  }

  lemma ProducerFrame(cfg: Config, st: State, st': State, t: Tid, act: Act)
    requires StepProducer(cfg, st, st', t, act)
    ensures st'.log == st.log && st'.running == st.running && st'.owner == st.owner
  {
    hide Started, MaySwap, HoldsShared, PcOf;
  }

  lemma ProducerFlow(cfg: Config, st: State, st': State, t: Tid, act: Act)
    requires LocksOk(st) && Flow(st) && StepProducer(cfg, st, st', t, act) && Polite(cfg, st, P(t, act))
    ensures Flow(st')
  {
    ActorRuns(cfg, st, st', t, act);
    ProducerFrame(cfg, st, st', t, act);
    hide StepProducer, LocksOk, Holder, Starts;
    if OfHolder(act) {
      InsideFlow(cfg, st, st', t, act);
    } else {
      OutsideFlow(cfg, st, st', t, act);
    }
  }

  lemma ActorRuns(cfg: Config, st: State, st': State, t: Tid, act: Act)
    requires LocksOk(st) && Flow(st) && StepProducer(cfg, st, st', t, act)
    ensures st.running && !Final(st.log)
  {
    assert PcOf(st, t) == Idle ==> act.StartLog?;
    hide Started, Exchanging;
  }

  lemma BusyRuns(st: State, t: Tid)
    requires LocksOk(st) && Flow(st) && PcOf(st, t) != Idle
    ensures st.running && !Final(st.log)
  {
  }

  // Order.

  lemma OrderSame(st: State, st': State, t: Tid)
    requires OrderOk(st) && st'.past + st'.cur == st.past + st.cur
    requires forall u: Tid :: u != t ==> PcOf(st', u) == PcOf(st, u) && Started(st'.next, u) == Started(st.next, u)
    requires Placed(st', t) == Placed(st, t)
    requires InHand(st', t)
    ensures OrderOk(st')
  {
    assert forall u: Tid :: u != t && InHand(st, u) ==> InHand(st', u);
    assert forall u: Tid :: Placed(st', u) == Placed(st, u);
  }

  lemma OrderClaim(st: State, st': State, t: Tid, r: Rec)
    requires OrderOk(st) && st'.past == st.past && st'.cur == st.cur + [r] && st'.next == st.next
    requires forall u: Tid :: u != t ==> PcOf(st', u) == PcOf(st, u)
    requires Unclaimed(PcOf(st, t)) && PcOf(st, t).r == r && !Unclaimed(PcOf(st', t))
    ensures OrderOk(st')
  {
    var all, all' := st.past + st.cur, st'.past + st'.cur;
    assert all' == all + [r];
    assert InHand(st, t) && forall u: Tid :: u != t && InHand(st, u) ==> InHand(st', u);
    assert forall u: Tid :: Placed(st', u) == Placed(st, u) + One(u == t);
    forall u: Tid, k: nat
      ensures Rec(u, k) in all' <==> k < Placed(st', u)
    {
      assert Rec(u, k) in all <==> k < Placed(st, u);
    }
    forall i | 0 <= i < |all| && all[i].producer == t
      ensures all[i].number < r.number
    {
      assert Rec(t, all[i].number) in all;
    }
  }

  lemma ProducerOrder(cfg: Config, st: State, st': State, t: Tid, act: Act)
    requires OrderOk(st) && StepProducer(cfg, st, st', t, act)
    ensures OrderOk(st')
  {
    if act.Claim? && PcOf(st', t).Claimed? {
      OrderClaim(st, st', t, PcOf(st, t).r) by { ClaimFacts(cfg, st, st', t); }
    } else {
      assert InHand(st, t);
      OthersStay(cfg, st, st', t, act);
      OrderFacts(cfg, st, st', t, act);
      OrderSame(st, st', t);
    }
  }

  lemma ClaimFacts(cfg: Config, st: State, st': State, t: Tid)
    requires StepProducer(cfg, st, st', t, Claim) && PcOf(st', t).Claimed?
    ensures Unclaimed(PcOf(st, t)) && st'.past == st.past && st'.cur == st.cur + [PcOf(st, t).r] && st'.next == st.next
    ensures forall u: Tid :: u != t ==> PcOf(st', u) == PcOf(st, u)
  {
  }

  lemma OrderFacts(cfg: Config, st: State, st': State, t: Tid, act: Act)
    requires InHand(st, t) && StepProducer(cfg, st, st', t, act) && !(act.Claim? && PcOf(st', t).Claimed?)
    ensures st'.past + st'.cur == st.past + st.cur
    ensures Placed(st', t) == Placed(st, t) && InHand(st', t)
  {
    HistoryFacts(cfg, st, st', t, act);
    if act.StartLog? {
    } else {
      assert st'.next == st.next;
    }
  }

  lemma HistoryFacts(cfg: Config, st: State, st': State, t: Tid, act: Act)
    requires StepProducer(cfg, st, st', t, act) && !(act.Claim? && PcOf(st', t).Claimed?)
    ensures st'.past + st'.cur == st.past + st.cur
  {
    if act.SwapFirst? {
      assert st.past + st.cur + [] == st.past + st.cur;
    } else {
      assert st'.past == st.past && st'.cur == st.cur;
    }
  }

  // The secondary and the write buffer.

  lemma {:induction false} RowsOfComplete(cfg: Config, b: Buf, cur: seq<Rec>, i: nat)
    requires Complete(cfg, b) && |cur| == Claims(cfg, b) && i <= |cur| && forall k :: k in b.rows ==> k < |cur| && b.rows[k] == cur[k]
    ensures Rows(b, i, cfg.cap) == cur[i..]
    decreases cfg.cap - i
  {
    if i < |cur| {
      RowsOfComplete(cfg, b, cur, i + 1);
      assert cur[i..] == [cur[i]] + cur[i + 1..];
    } else {
      RowsBeyond(b, i, cfg.cap, |cur|);
    }
  }

  lemma {:induction false} RowsBeyond(b: Buf, i: nat, n: nat, m: nat)
    requires i >= m && forall k :: k in b.rows ==> k < m
    ensures Rows(b, i, n) == []
    decreases n - i
  {
    if i < n {
      RowsBeyond(b, i + 1, n, m);
    }
  }

  /** A complete primary buffer becomes the secondary one. */
  lemma SwapData(cfg: Config, b: Buf, w: Buf, lw: bool, log: Logger, file: seq<Line>, past: seq<Rec>, cur: seq<Rec>, early: bool)
    requires DataOk(cfg, EMPTY, w, false, lw, log, file, past, cur) && BlankOk(cfg, EMPTY, w, false, lw, log, file, early, false)
    requires !Final(log) && Complete(cfg, b)
    requires |cur| == Claims(cfg, b) && forall k :: k in b.rows ==> k < |cur| && b.rows[k] == cur[k]
    ensures DataOk(cfg, b, w, true, lw, log, file, past + cur, [])
    ensures BlankOk(cfg, b, w, true, lw, log, file, early || b.index < cfg.cap, false)
  {
    RowsOfComplete(cfg, b, cur, 0);
    assert cur[0..] == cur;
    AppendCurrent(Texts(file) + (if lw then Rows(w, FlushedTo(log, 0), cfg.cap) else []), past, cur);
    hide Texts, Rows, Complete;
  }

  lemma AppendCurrent(a: seq<Rec>, past: seq<Rec>, cur: seq<Rec>)
    requires a + [] == past
    ensures a + cur == past + cur
  {
  }

  lemma SwapFirstContents(cfg: Config, st: State, st': State, t: Tid)
    requires LocksOk(st) && Flow(st) && Contents(cfg, st) && Primary(cfg, st)
    requires StepProducer(cfg, st, st', t, SwapFirst)
    ensures Contents(cfg, st')
  {
    AllStored(cfg, st, t);
    BusyRuns(st, t);
    WriterStays(cfg, st, t);
    assert Pending(st.event, st.owner) == 0 && !Swapping(st.log);
    hide Primary, LocksOk, DataOk, BlankOk, Flow, Complete;
    EmptySecond(cfg, st);
    SwapData(cfg, st.bufs[st.primary], st.bufs[WriteOf(st.log, st.write)], LoadedWrite(st.log), st.log, st.file, st.past, st.cur, st.early);
  }

  lemma EmptySecond(cfg: Config, st: State)
    requires Contents(cfg, st) && !LoadedSecond(Holder(st), st.log, Pending(st.event, st.owner)) && !Final(st.log)
    ensures st.bufs[SecondOf(Holder(st), st.secondary)] == EMPTY
  {
  }

  /** Under the exclusive lock no write is unfinished. */
  lemma AllStored(cfg: Config, st: State, t: Tid)
    requires LocksOk(st) && Flow(st) && Primary(cfg, st) && HoldsExclusive(PcOf(st, t))
    ensures !Finished(st.log) && Complete(cfg, st.bufs[st.primary])
    ensures |st.cur| == Claims(cfg, st.bufs[st.primary])
    ensures forall k :: k in st.bufs[st.primary].rows ==> k < |st.cur| && st.bufs[st.primary].rows[k] == st.cur[k]
  {
    assert forall u: Tid :: !HoldsShared(PcOf(st, u));
  }

  /** The second half of an exchange, and the event after it. */
  lemma HandoverContents(cfg: Config, st: State, st': State, t: Tid, act: Act)
    requires LocksOk(st) && Flow(st) && Contents(cfg, st)
    requires StepProducer(cfg, st, st', t, act) && (act.SwapSecond? || act.Notify?)
    ensures Contents(cfg, st')
  {
    WriterStays(cfg, st, t);
    AliveRuns(st);
    BusyRuns(st, t);
    hide LocksOk, DataOk, BlankOk;
  }

  /** Steps that leave the owner's part in an exchange alone. */
  predicate Beside(act: Act) { !act.SwapFirst? && !act.SwapSecond? && !act.Notify? }

  predicate OfRow(act: Act) { act.Claim? || act.Store? }

  lemma RowFrame(cfg: Config, st: State, st': State, t: Tid, act: Act)
    requires StepProducer(cfg, st, st', t, act) && OfRow(act)
    ensures st' == st.(bufs := st'.bufs, cur := st'.cur, pcs := st'.pcs) && |st'.bufs| == |st.bufs|
    ensures (act.Store? ==> PcOf(st, t).b == st.primary) ==>
              forall k :: 0 <= k < |st.bufs| && k != st.primary ==> st'.bufs[k] == st.bufs[k]
  {
    hide Started, MaySwap, HoldsShared;
  }

  lemma RestFrame(cfg: Config, st: State, st': State, t: Tid, act: Act)
    requires StepProducer(cfg, st, st', t, act) && Beside(act) && !OfRow(act)
    ensures st' == st.(pcs := st'.pcs, next := st'.next, writer := st'.writer, phase := st'.phase, arrived := st'.arrived)
  {
    hide Started, MaySwap, HoldsShared, PcOf;
  }

  lemma BesideFrame(cfg: Config, st: State, st': State, t: Tid, act: Act)
    requires StepProducer(cfg, st, st', t, act) && Beside(act) && (act.Store? ==> PcOf(st, t).b == st.primary)
    ensures st' == st.(bufs := st'.bufs, cur := st'.cur, pcs := st'.pcs, next := st'.next, writer := st'.writer,
                       phase := st'.phase, arrived := st'.arrived)
    ensures |st'.bufs| == |st.bufs|
    ensures forall k :: 0 <= k < |st.bufs| && k != st.primary ==> st'.bufs[k] == st.bufs[k]
  {
    hide StepProducer;
    if OfRow(act) { RowFrame(cfg, st, st', t, act); } else { RestFrame(cfg, st, st', t, act); }
  }

  /** How the holder of the exclusive lock changes. */
  predicate HolderMoves(h: Producer, h': Producer, primary: nat) {
    h' == h || (!Exchanging(h) && (!Exchanging(h') || (h'.SwapA? && h'.t == primary)))
  }

  lemma BesideHolder(cfg: Config, st: State, st': State, t: Tid, act: Act)
    requires LocksOk(st) && StepProducer(cfg, st, st', t, act) && Beside(act)
    ensures HolderMoves(Holder(st), Holder(st'), st.primary)
  {
    hide Started;
    assert HoldsExclusive(PcOf(st, t)) <==> st.writer == Some(t);
  }

  lemma ContentsFrame(cfg: Config, st: State, st': State)
    requires Contents(cfg, st) && |st'.bufs| == |st.bufs| && !Final(st.log)
    requires st'.log == st.log && st'.primary == st.primary && st'.secondary == st.secondary && st'.write == st.write
    requires st'.file == st.file && st'.past == st.past && st'.early == st.early && st'.event == st.event && st'.owner == st.owner
    requires forall k :: 0 <= k < |st.bufs| && k != st.primary ==> st'.bufs[k] == st.bufs[k]
    requires HolderMoves(Holder(st), Holder(st'), st.primary)
    ensures Contents(cfg, st')
  {
    hide Holder, Texts, Rows, Complete;
  }

  lemma ProducerContents(cfg: Config, st: State, st': State, t: Tid, act: Act)
    requires LocksOk(st) && Flow(st) && Contents(cfg, st) && Primary(cfg, st)
    requires StepProducer(cfg, st, st', t, act)
    ensures Contents(cfg, st')
  {
    ActorRuns(cfg, st, st', t, act);
    assert act.Store? ==> PcOf(st, t).Claimed?;
    hide LocksOk, Flow, Contents, Primary, StepProducer, Holder;
    if act.SwapFirst? {
      SwapFirstContents(cfg, st, st', t);
    } else if Beside(act) {
      if act.Store? { StoreTarget(cfg, st, t); }
      BesideFrame(cfg, st, st', t, act);
      BesideHolder(cfg, st, st', t, act);
      ContentsFrame(cfg, st, st');
    } else {
      HandoverContents(cfg, st, st', t, act);
    }
  }

  // The primary buffer.

  lemma PrimaryFrame(cfg: Config, st: State, st': State)
    requires Primary(cfg, st) && st'.primary == st.primary < |st'.bufs| && st'.cur == st.cur
    requires Finished(st'.log) || (!Finished(st.log) && st'.bufs[st.primary] == st.bufs[st.primary])
    requires forall u: Tid {:trigger PcOf(st, u)} {:trigger PcOf(st', u)} ::
               (PcOf(st, u).Claimed? || PcOf(st', u).Claimed?) ==> PcOf(st', u) == PcOf(st, u)
    ensures Primary(cfg, st')
  {
  }

  lemma ClaimPrimary(cfg: Config, st: State, st': State, t: Tid, r: Rec)
    requires Primary(cfg, st) && !Finished(st.log) && !PcOf(st, t).Claimed?
    requires var b := st.bufs[st.primary];
             && st'.primary == st.primary < |st'.bufs| && st'.log == st.log
             && b.index < cfg.cap && st'.bufs[st.primary] == b.(index := b.index + 1)
             && PcOf(st', t) == Claimed(r, st.primary, b.index) && st'.cur == st.cur + [r]
    requires forall u: Tid :: u != t ==> PcOf(st', u) == PcOf(st, u)
    ensures Primary(cfg, st')
  {
    var b := st.bufs[st.primary];
    forall i: nat | i < |st'.cur| && i !in b.rows
      ensures exists u: Tid :: PcOf(st', u) == Claimed(st'.cur[i], st.primary, i)
    {
      if i < |st.cur| {
        var u: Tid :| PcOf(st, u) == Claimed(st.cur[i], st.primary, i);
        assert PcOf(st', u) == Claimed(st'.cur[i], st.primary, i);
      } else {
        assert PcOf(st', t) == Claimed(st'.cur[i], st.primary, i);
      }
    }
  }

  lemma OverClaimPrimary(cfg: Config, st: State, st': State)
    requires Primary(cfg, st) && !Finished(st.log)
    requires var b := st.bufs[st.primary];
             && st'.primary == st.primary < |st'.bufs| && st'.log == st.log && st'.cur == st.cur
             && b.index >= cfg.cap && st'.bufs[st.primary] == b.(index := b.index + 1)
    requires forall u: Tid {:trigger PcOf(st, u)} {:trigger PcOf(st', u)} ::
               (PcOf(st, u).Claimed? || PcOf(st', u).Claimed?) ==> PcOf(st', u) == PcOf(st, u)
    ensures Primary(cfg, st')
  {
  }

  lemma StorePrimary(cfg: Config, st: State, st': State, t: Tid, r: Rec, i: nat)
    requires Primary(cfg, st) && !Finished(st.log) && PcOf(st, t) == Claimed(r, st.primary, i) && PcOf(st', t) == Stored
    requires var b := st.bufs[st.primary];
             && st'.primary == st.primary < |st'.bufs| && st'.log == st.log && st'.cur == st.cur
             && st'.bufs[st.primary] == b.(rows := b.rows[i := r])
    requires forall u: Tid :: u != t ==> PcOf(st', u) == PcOf(st, u)
    ensures Primary(cfg, st')
  {
    var b := st.bufs[st.primary];
    forall j: nat | j < |st.cur| && j !in st'.bufs[st.primary].rows
      ensures exists u: Tid :: PcOf(st', u) == Claimed(st.cur[j], st.primary, j)
    {
      var u: Tid :| PcOf(st, u) == Claimed(st.cur[j], st.primary, j);
      assert PcOf(st', u) == Claimed(st.cur[j], st.primary, j);
    }
  }

  lemma FreshPrimary(cfg: Config, st: State, st': State)
    requires LocksOk(st') && st'.writer.Some? && st'.primary < |st'.bufs| && st'.bufs[st'.primary] == EMPTY && st'.cur == []
    ensures Primary(cfg, st')
  {
    assert forall u: Tid :: !HoldsShared(PcOf(st', u));
  }

  /** The other steps do not touch the primary buffer and nobody's claim. */
  lemma PrimaryFacts(cfg: Config, st: State, st': State, t: Tid, act: Act)
    requires StepProducer(cfg, st, st', t, act) && !act.Claim? && !act.Store? && !act.SwapFirst?
    ensures st'.primary == st.primary && st'.cur == st.cur && st'.log == st.log && st'.bufs == st.bufs
    ensures !PcOf(st, t).Claimed? && !PcOf(st', t).Claimed?
  {
    hide Started, MaySwap, HoldsShared;
  }

  lemma ClaimKeepsPrimary(cfg: Config, st: State, st': State, t: Tid)
    requires Primary(cfg, st) && !Finished(st.log) && StepProducer(cfg, st, st', t, Claim)
    ensures Primary(cfg, st')
  {
    hide Primary;
    OthersStay(cfg, st, st', t, Claim);
    if PcOf(st', t).Claimed? { ClaimPrimary(cfg, st, st', t, PcOf(st, t).r); } else { OverClaimPrimary(cfg, st, st'); }
  }

  lemma StoreKeepsPrimary(cfg: Config, st: State, st': State, t: Tid)
    requires Primary(cfg, st) && !Finished(st.log) && StepProducer(cfg, st, st', t, Store)
    ensures Primary(cfg, st')
  {
    hide Primary;
    OthersStay(cfg, st, st', t, Store);
    StoreTarget(cfg, st, t);
    StorePrimary(cfg, st, st', t, PcOf(st, t).r, PcOf(st, t).i);
  }

  lemma SwapKeepsPrimary(cfg: Config, st: State, st': State, t: Tid)
    requires LocksOk(st) && Flow(st) && Contents(cfg, st) && LocksOk(st') && StepProducer(cfg, st, st', t, SwapFirst)
    ensures Primary(cfg, st')
  {
    hide LocksOk, Flow, Contents, Primary;
    SwapTarget(cfg, st, t);
    WriterStays(cfg, st, t);
    FreshPrimary(cfg, st, st');
  }

  lemma ProducerPrimary(cfg: Config, st: State, st': State, t: Tid, act: Act)
    requires LocksOk(st) && Flow(st) && Contents(cfg, st) && Primary(cfg, st) && LocksOk(st')
    requires StepProducer(cfg, st, st', t, act)
    ensures Primary(cfg, st')
  {
    assert st.primary < |st.bufs|;
    hide LocksOk, Flow, Contents, Primary, StepProducer;
    ActorRuns(cfg, st, st', t, act);
    match act
    case Claim => ClaimKeepsPrimary(cfg, st, st', t);
    case Store => StoreKeepsPrimary(cfg, st, st', t);
    case SwapFirst => SwapKeepsPrimary(cfg, st, st', t);
    case _ =>
      OthersStay(cfg, st, st', t, act);
      PrimaryFacts(cfg, st, st', t, act);
      PrimaryFrame(cfg, st, st');
  }

  lemma StoreTarget(cfg: Config, st: State, t: Tid)
    requires Primary(cfg, st) && !Finished(st.log) && PcOf(st, t).Claimed?
    ensures PcOf(st, t).b == st.primary < |st.bufs|
  {
  }

  /** The secondary buffer is reset and empty when a producer makes it the primary one. */
  lemma SwapTarget(cfg: Config, st: State, t: Tid)
    requires LocksOk(st) && Flow(st) && Contents(cfg, st) && PcOf(st, t).SwapA?
    ensures st.secondary < |st.bufs| && st.bufs[st.secondary] == EMPTY
  {
  }

  lemma WriterStays(cfg: Config, st: State, t: Tid)
    requires LocksOk(st) && HoldsExclusive(PcOf(st, t))
    ensures st.writer == Some(t)
  {
  }

  lemma ProducerKeeps(cfg: Config, st: State, st': State, t: Tid, act: Act)
    requires Safe(cfg, st) && StepProducer(cfg, st, st', t, act) && Polite(cfg, st, P(t, act))
    ensures Safe(cfg, st')
  {
    hide LocksOk, Flow, Contents, Primary, OrderOk, StepProducer, Polite;
    ProducerLocks(cfg, st, st', t, act);
    ProducerFlow(cfg, st, st', t, act);
    ProducerContents(cfg, st, st', t, act);
    ProducerPrimary(cfg, st, st', t, act);
    ProducerOrder(cfg, st, st', t, act);
  }

  // ----- a step of the log thread -----------------------------------------------------

  /** A flush changes the buffers and the file. */
  lemma FlushFrame(cfg: Config, st: State, st': State)
    requires StepLogger(cfg, st, st') && (st.log.Flushing? || st.log.Resetting?)
    ensures st' == st.(bufs := st'.bufs, log := st'.log, file := st'.file) && |st'.bufs| == |st.bufs|
  {
  }

  /** Outside a flush only pointers, the event and the barrier change. */
  lemma WaitFrame(cfg: Config, st: State, st': State)
    requires StepLogger(cfg, st, st') && !st.log.Flushing? && !st.log.Resetting?
    ensures st' == st.(secondary := st'.secondary, write := st'.write, event := st'.event, phase := st'.phase,
                       arrived := st'.arrived, log := st'.log)
    ensures !Finished(st'.log)
  {
  }

  lemma PointersStay(cfg: Config, st: State, st': State)
    requires StepLogger(cfg, st, st') && !st.log.LSwapA? && !st.log.LSwapB? && !st.log.Flushing? && !st.log.Resetting?
    ensures st'.secondary == st.secondary && st'.write == st.write
    ensures st.log.Taking? ==> st'.log == LSwapA(st.secondary)
  {
  }

  lemma LoggerFrame(cfg: Config, st: State, st': State)
    requires StepLogger(cfg, st, st')
    ensures st' == st.(bufs := st'.bufs, secondary := st'.secondary, write := st'.write, event := st'.event,
                       phase := st'.phase, arrived := st'.arrived, log := st'.log, file := st'.file)
    ensures |st'.bufs| == |st.bufs|
  {
    hide StepLogger;
    if st.log.Flushing? || st.log.Resetting? {
      FlushFrame(cfg, st, st');
    } else {
      WaitFrame(cfg, st, st');
    }
  }

  lemma LoggerLocks(st: State, st': State)
    requires LocksOk(st) && st'.pcs == st.pcs && st'.writer == st.writer && st'.running == st.running
    ensures LocksOk(st') && Holder(st') == Holder(st)
  {
    assert forall u: Tid :: PcOf(st', u) == PcOf(st, u);
  }

  lemma LoggerOrder(st: State, st': State)
    requires OrderOk(st) && st'.pcs == st.pcs && st'.next == st.next && st'.past == st.past && st'.cur == st.cur
    ensures OrderOk(st')
  {
    assert forall u: Tid :: PcOf(st', u) == PcOf(st, u) && Placed(st', u) == Placed(st, u) && (InHand(st, u) ==> InHand(st', u));
  }

  /** Where the log thread goes. */
  ghost predicate NextLog(log: Logger, running: bool, log': Logger) {
    match log
    case Top => log' == if running then Waiting else Flushing(1, 0)
    case Waiting => log' == Woken
    case Woken => log' == if running then Reading else Flushing(1, 0)
    case Reading => log' == Taking
    case Taking => log'.LSwapA?
    case LSwapA(_) => log'.LSwapB?
    case LSwapB(_) => log' == Arriving
    case Arriving => log'.AtBarrier?
    case AtBarrier(_) => log' == Flushing(0, 0)
    case Flushing(stage, i) => log' == Flushing(stage, i + 1) || log' == Resetting(stage)
    case Resetting(stage) => log' == AfterFlush(stage)
    case Done => false
  }

  /** It sends no event, and clears the counter when it reads it. */
  lemma LoggerNext(cfg: Config, st: State, st': State)
    requires StepLogger(cfg, st, st')
    ensures NextLog(st.log, st.running, st'.log)
    ensures st'.event == (if st.log.Reading? then 0 else st.event) && (st.log.Waiting? ==> st.event > 0)
  {
  }

  lemma LoggerFlow(cfg: Config, st: State, st': State)
    requires Flow(st) && StepLogger(cfg, st, st') && Holder(st') == Holder(st)
    ensures Flow(st')
  {
    LoggerFrame(cfg, st, st');
    LoggerNext(cfg, st, st');
    hide StepLogger, Holder;
  }

  /** No flush is under way. */
  predicate Calm(log: Logger) {
    !log.Done? && !log.Resetting? && (log.Flushing? ==> log.stage <= 1 && log.i == 0)
  }

  lemma CalmData(cfg: Config, s: Buf, w: Buf, ls: bool, lw: bool, log: Logger, log': Logger, file: seq<Line>,
                 past: seq<Rec>, cur: seq<Rec>, early: bool, late: bool, late': bool)
    requires Calm(log) && Calm(log') && (late ==> late')
    requires DataOk(cfg, s, w, ls, lw, log, file, past, cur) && BlankOk(cfg, s, w, ls, lw, log, file, early, late)
    ensures DataOk(cfg, s, w, ls, lw, log', file, past, cur) && BlankOk(cfg, s, w, ls, lw, log', file, early, late')
  {
    hide Texts, Rows, Complete;
  }

  /** While the log thread waits for a request or a meeting, no row moves. */
  lemma LoggerWaits(cfg: Config, st: State, st': State)
    requires Flow(st) && Contents(cfg, st) && StepLogger(cfg, st, st') && Holder(st') == Holder(st)
    requires !st.log.LSwapA? && !st.log.LSwapB? && !st.log.Flushing? && !st.log.Resetting?
    ensures Contents(cfg, st')
  {
    LoggerNext(cfg, st, st');
    WaitFrame(cfg, st, st');
    PointersStay(cfg, st, st');
    hide Holder, DataOk, BlankOk, StepLogger, Pending, Final;
    var e, e' := Pending(st.event, st.owner), Pending(st'.event, st'.owner);
    WaitLoaded(st, st');
    CalmData(cfg, st.bufs[SecondOf(Holder(st), st.secondary)], st.bufs[WriteOf(st.log, st.write)],
             LoadedSecond(Holder(st), st.log, e), LoadedWrite(st.log), st.log, st'.log, st.file, st.past, st.cur, st.early,
             Final(st.log) && e == 1, Final(st'.log) && e' == 1);
  }

  /** What is loaded stays loaded: reading the event turns the pending request into one being served. */
  lemma WaitLoaded(st: State, st': State)
    requires Flow(st) && NextLog(st.log, st.running, st'.log) && st'.owner == st.owner
    requires st'.event == (if st.log.Reading? then 0 else st.event)
    requires !st.log.LSwapA? && !st.log.LSwapB? && !st.log.Flushing? && !st.log.Resetting?
    ensures LoadedSecond(Holder(st), st'.log, Pending(st'.event, st'.owner)) == LoadedSecond(Holder(st), st.log, Pending(st.event, st.owner))
    ensures LoadedWrite(st'.log) == LoadedWrite(st.log) && Calm(st.log) && Calm(st'.log) && !Final(st.log)
  {
    hide Holder;
  }

  /** The two halves of the log thread's exchange. */
  lemma SwapSteps(cfg: Config, st: State, st': State)
    requires StepLogger(cfg, st, st')
    ensures st.log.LSwapA? ==> st' == st.(log := LSwapB(st.log.t), secondary := st.write)
    ensures st.log.LSwapB? ==> st' == st.(log := Arriving, write := st.log.t)
  {
    hide FlushTarget, AfterFlush, LineOf;
  }

  /** The loaded secondary buffer becomes the write buffer, and the reset write buffer the secondary one. */
  lemma SidesSwap(cfg: Config, s: Buf, w: Buf, t: nat, file: seq<Line>, past: seq<Rec>, cur: seq<Rec>, early: bool)
    requires DataOk(cfg, s, w, true, false, LSwapA(t), file, past, cur) && BlankOk(cfg, s, w, true, false, LSwapA(t), file, early, false)
    ensures DataOk(cfg, w, s, false, true, LSwapB(t), file, past, cur) && BlankOk(cfg, w, s, false, true, LSwapB(t), file, early, false)
  {
    hide Texts, Complete, Rows;
    assert Texts(file) + [] + Rows(s, 0, cfg.cap) == Texts(file) + Rows(s, 0, cfg.cap) + [];
  }

  lemma FirstHalf(cfg: Config, st: State, st': State)
    requires Flow(st) && Contents(cfg, st) && st.log.LSwapA? && Holder(st') == Holder(st)
    requires st' == st.(log := LSwapB(st.log.t), secondary := st.write)
    ensures Contents(cfg, st')
  {
    hide Holder, DataOk, BlankOk;
    SidesSwap(cfg, st.bufs[st.secondary], st.bufs[st.write], st.log.t, st.file, st.past, st.cur, st.early);
  }

  lemma SecondHalf(cfg: Config, st: State, st': State)
    requires Flow(st) && Contents(cfg, st) && st.log.LSwapB? && Holder(st') == Holder(st)
    requires st' == st.(log := Arriving, write := st.log.t)
    ensures Contents(cfg, st')
  {
    hide Holder, Texts, Complete, Rows;
  }

  lemma LoggerSwaps(cfg: Config, st: State, st': State)
    requires Flow(st) && Contents(cfg, st) && StepLogger(cfg, st, st') && Holder(st') == Holder(st)
    requires st.log.LSwapA? || st.log.LSwapB?
    ensures Contents(cfg, st')
  {
    SwapSteps(cfg, st, st');
    hide Flow, Contents, Holder, StepLogger;
    if st.log.LSwapA? { FirstHalf(cfg, st, st'); } else { SecondHalf(cfg, st, st'); }
  }

  lemma {:induction false} RowsEmpty(n: nat, i: nat)
    ensures Rows(EMPTY, i, n) == []
    decreases n - i
  {
    if i < n { RowsEmpty(n, i + 1); }
  }

  lemma TextsAppend(file: seq<Line>, l: Line)
    ensures Texts(file + [l]) == Texts(file) + (if l.Text? then [l.r] else [])
    ensures Blank in file + [l] <==> Blank in file || l == Blank
  {
    assert (file + [l])[..|file|] == file;
  }

  lemma RowAppend(a: seq<Rec>, b: Buf, i: nat, n: nat, c: seq<Rec>)
    requires i < n
    ensures a + Rows(b, i, n) + c == a + (if i in b.rows then [b.rows[i]] else []) + Rows(b, i + 1, n) + c
  {
  }

  lemma FlushRowData(cfg: Config, s: Buf, w: Buf, ls: bool, i: nat, file: seq<Line>, past: seq<Rec>, cur: seq<Rec>, early: bool)
    requires DataOk(cfg, s, w, ls, true, Flushing(0, i), file, past, cur) && i < cfg.cap
    requires BlankOk(cfg, s, w, ls, true, Flushing(0, i), file, early, false)
    ensures DataOk(cfg, s, w, ls, true, Flushing(0, i + 1), file + [LineOf(w, i)], past, cur)
    ensures BlankOk(cfg, s, w, ls, true, Flushing(0, i + 1), file + [LineOf(w, i)], early, false)
  {
    TextsAppend(file, LineOf(w, i));
    RowAppend(Texts(file), w, i, cfg.cap, if ls then Rows(s, 0, cfg.cap) else []);
    hide Texts, Rows;
  }

  /** Flushing one row of a buffer in the loop. */
  lemma FlushRow(cfg: Config, st: State, st': State)
    requires Flow(st) && Contents(cfg, st) && StepLogger(cfg, st, st') && Holder(st') == Holder(st)
    requires st.log.Flushing? && st.log.stage == 0 && st.log.i < cfg.cap
    ensures Contents(cfg, st') && st'.bufs == st.bufs && !Finished(st'.log)
  {
    hide Holder, DataOk, BlankOk, LineOf;
    FlushRowData(cfg, st.bufs[SecondOf(Holder(st), st.secondary)], st.bufs[st.write],
                 LoadedSecond(Holder(st), st.log, Pending(st.event, st.owner)),
                 st.log.i, st.file, st.past, st.cur, st.early);
  }

  /** The end of a flush in the loop: the index of the write buffer is reset. */
  lemma FlushEnd(cfg: Config, st: State, st': State)
    requires Flow(st) && Contents(cfg, st) && StepLogger(cfg, st, st') && Holder(st') == Holder(st)
    requires st.log.Flushing? && st.log.stage == 0 && st.log.i >= cfg.cap
    ensures Contents(cfg, st') && st'.primary == st.primary < |st'.bufs| && st'.bufs[st.primary] == st.bufs[st.primary]
    ensures !Finished(st'.log)
  {
    hide Holder, Texts;
    assert Rows(st.bufs[st.write], st.log.i, cfg.cap) == [];
  }

  /** Then its rows are. */
  lemma ResetEnd(cfg: Config, st: State, st': State)
    requires Flow(st) && Contents(cfg, st) && StepLogger(cfg, st, st') && Holder(st') == Holder(st)
    requires st.log.Resetting? && st.log.stage <= 2
    ensures Contents(cfg, st') && st'.primary == st.primary < |st'.bufs| && st'.bufs[st.primary] == st.bufs[st.primary]
    ensures !Finished(st'.log)
  {
    hide Holder, Texts, Rows, Complete;
    assert st.past + st.cur[..0] == st.past;
  }

  /** The first of the last three flushes finds nothing to write. */
  lemma FlushNothing(cfg: Config, st: State, st': State)
    requires Flow(st) && Contents(cfg, st) && StepLogger(cfg, st, st') && Holder(st') == Holder(st)
    requires st.log.Flushing? && st.log.stage == 1
    ensures Contents(cfg, st') && st'.primary == st.primary < |st'.bufs| && st'.bufs == st.bufs && !Finished(st'.log)
  {
    hide Holder, Texts, Rows, Complete;
  }

  /** The second one writes the claimed rows of the secondary buffer, if the loop ended with a request pending. */
  lemma FlushSecondRow(cfg: Config, st: State, st': State)
    requires Flow(st) && Contents(cfg, st) && StepLogger(cfg, st, st') && Holder(st') == Holder(st)
    requires st.log.Flushing? && st.log.stage == 2 && st.secondary < |st.bufs| && st.log.i < Claims(cfg, st.bufs[st.secondary])
    ensures Contents(cfg, st') && st'.primary == st.primary < |st'.bufs| && st'.bufs == st.bufs && !Finished(st'.log)
  {
    SecondRowStep(cfg, st, st');
    SecondLoaded(cfg, st);
    hide Flow, StepLogger, Holder, DataOk, BlankOk, LineOf, Claims;
    SecondRowData(cfg, st.bufs[st.secondary], st.bufs[st.write], st.log.i, st.file, st.past, st.cur, st.early);
  }

  lemma SecondRowStep(cfg: Config, st: State, st': State)
    requires StepLogger(cfg, st, st') && st.log.Flushing? && st.log.stage == 2
    requires st.secondary < |st.bufs| && st.log.i < Claims(cfg, st.bufs[st.secondary])
    ensures st' == st.(file := st.file + [LineOf(st.bufs[st.secondary], st.log.i)], log := Flushing(2, st.log.i + 1))
  {
    hide LineOf;
  }

  /** A secondary buffer with claimed rows is loaded. */
  lemma SecondLoaded(cfg: Config, st: State)
    requires Flow(st) && Contents(cfg, st) && st.log.Flushing? && st.log.stage == 2
    requires st.secondary < |st.bufs| && Claims(cfg, st.bufs[st.secondary]) > 0
    ensures !Exchanging(Holder(st)) && Pending(st.event, st.owner) == 1 && st.write < |st.bufs|
    ensures DataOk(cfg, st.bufs[st.secondary], st.bufs[st.write], true, false, st.log, st.file, st.past, st.cur)
    ensures BlankOk(cfg, st.bufs[st.secondary], st.bufs[st.write], true, false, st.log, st.file, st.early, true)
  {
    hide Holder, Texts, Rows, Complete, BlankOk;
  }

  lemma SecondRowData(cfg: Config, s: Buf, w: Buf, i: nat, file: seq<Line>, past: seq<Rec>, cur: seq<Rec>, early: bool)
    requires DataOk(cfg, s, w, true, false, Flushing(2, i), file, past, cur) && i < Claims(cfg, s)
    requires BlankOk(cfg, s, w, true, false, Flushing(2, i), file, early, true)
    ensures DataOk(cfg, s, w, true, false, Flushing(2, i + 1), file + [LineOf(s, i)], past, cur)
    ensures BlankOk(cfg, s, w, true, false, Flushing(2, i + 1), file + [LineOf(s, i)], early, true)
  {
    TextsAppend(file, LineOf(s, i));
    RowAppend(Texts(file), s, i, cfg.cap, []);
    hide Texts, Rows;
  }

  lemma FlushSecondEnd(cfg: Config, st: State, st': State)
    requires Flow(st) && Contents(cfg, st) && StepLogger(cfg, st, st') && Holder(st') == Holder(st)
    requires st.log.Flushing? && st.log.stage == 2 && st.secondary < |st.bufs| && st.log.i >= Claims(cfg, st.bufs[st.secondary])
    ensures Contents(cfg, st') && st'.primary == st.primary < |st'.bufs| && st'.bufs[st.primary] == st.bufs[st.primary]
    ensures !Finished(st'.log)
  {
    hide Holder, Texts;
    if LoadedSecond(Holder(st), st.log, Pending(st.event, st.owner)) {
      RowsBeyond(st.bufs[st.secondary], st.log.i, cfg.cap, Claims(cfg, st.bufs[st.secondary]));
    }
  }

  /** The last flush writes the claimed rows of the primary buffer. */
  lemma FlushLastRow(cfg: Config, st: State, st': State)
    requires Flow(st) && Contents(cfg, st) && StepLogger(cfg, st, st') && Holder(st') == Holder(st)
    requires st.log.Flushing? && st.log.stage == 3 && st.log.i < |st.cur| && st.primary < |st.bufs|
    requires |st.cur| == Claims(cfg, st.bufs[st.primary])
    requires LineOf(st.bufs[st.primary], st.log.i) == Text(st.cur[st.log.i])
    ensures Contents(cfg, st') && st'.primary == st.primary && st'.bufs == st.bufs
  {
    var i := st.log.i;
    TextsAppend(st.file, Text(st.cur[i]));
    assert st.past + st.cur[..i + 1] == st.past + st.cur[..i] + [st.cur[i]];
    hide Holder, Rows, Texts, LineOf;
  }

  lemma FlushLastEnd(cfg: Config, st: State, st': State)
    requires Flow(st) && Contents(cfg, st) && StepLogger(cfg, st, st') && Holder(st') == Holder(st)
    requires st.log.Flushing? && st.log.stage == 3 && st.log.i >= |st.cur| && st.primary < |st.bufs|
    requires |st.cur| == Claims(cfg, st.bufs[st.primary])
    ensures Contents(cfg, st') && st'.primary == st.primary < |st'.bufs| && Finished(st'.log)
  {
    hide Holder, Rows, Texts, LineOf;
    assert st.cur[..|st.cur|] == st.cur;
  }

  lemma FlushLast(cfg: Config, st: State, st': State)
    requires LocksOk(st) && Flow(st) && Contents(cfg, st) && Primary(cfg, st) && StepLogger(cfg, st, st') && Holder(st') == Holder(st)
    requires st.log.Flushing? && st.log.stage == 3
    ensures Contents(cfg, st') && st'.primary == st.primary < |st'.bufs|
    ensures Finished(st'.log) || st'.bufs == st.bufs
  {
    IdleMeansStored(cfg, st);
    hide Holder, Rows, Texts, LocksOk, Flow, Contents, Primary, StepLogger;
    if st.log.i < |st.cur| {
      FlushLastRow(cfg, st, st');
    } else {
      FlushLastEnd(cfg, st, st');
    }
  }

  lemma ResetLast(cfg: Config, st: State, st': State)
    requires Flow(st) && Contents(cfg, st) && StepLogger(cfg, st, st') && Holder(st') == Holder(st)
    requires st.log == Resetting(3)
    ensures Contents(cfg, st') && st'.primary == st.primary < |st'.bufs| && Finished(st'.log)
  {
    hide Holder, Rows, Texts, LineOf, Complete;
  }

  lemma IdleMeansStored(cfg: Config, st: State)
    requires LocksOk(st) && Flow(st) && Primary(cfg, st) && st.log.Flushing? && st.log.stage > 0
    ensures st.primary < |st.bufs| && |st.cur| == Claims(cfg, st.bufs[st.primary])
    ensures forall i: nat :: i < |st.cur| ==> i in st.bufs[st.primary].rows && st.bufs[st.primary].rows[i] == st.cur[i]
  {
  }

  /** The primary buffer is left alone until the last flush is written. */
  ghost predicate KeepsPrimary(st: State, st': State) {
    && st'.primary == st.primary < |st'.bufs|
    && (Finished(st'.log) || (!Finished(st.log) && st.primary < |st.bufs| && st'.bufs[st.primary] == st.bufs[st.primary]))
  }

  lemma FlushContents(cfg: Config, st: State, st': State)
    requires LocksOk(st) && Flow(st) && Contents(cfg, st) && Primary(cfg, st)
    requires StepLogger(cfg, st, st') && Holder(st') == Holder(st) && st.log.Flushing?
    ensures Contents(cfg, st') && KeepsPrimary(st, st')
  {
    LoggerFrame(cfg, st, st');
    StageOk(cfg, st);
    hide LocksOk, Flow, Contents, Primary, StepLogger, Holder;
    if st.log.stage == 0 {
      if st.log.i < cfg.cap { FlushRow(cfg, st, st'); } else { FlushEnd(cfg, st, st'); }
    } else if st.log.stage == 1 {
      FlushNothing(cfg, st, st');
    } else if st.log.stage == 2 {
      if st.log.i < Claims(cfg, st.bufs[st.secondary]) { FlushSecondRow(cfg, st, st'); } else { FlushSecondEnd(cfg, st, st'); }
    } else {
      FlushLast(cfg, st, st');
    }
  }

  lemma LoggerContents(cfg: Config, st: State, st': State)
    requires LocksOk(st) && Flow(st) && Contents(cfg, st) && Primary(cfg, st)
    requires StepLogger(cfg, st, st') && Holder(st') == Holder(st)
    ensures Contents(cfg, st') && KeepsPrimary(st, st')
  {
    LoggerFrame(cfg, st, st');
    StageOk(cfg, st);
    if !st.log.Flushing? && !st.log.Resetting? { WaitFrame(cfg, st, st'); }
    hide LocksOk, Flow, Contents, Primary, StepLogger, Holder;
    if st.log.Flushing? {
      FlushContents(cfg, st, st');
    } else if st.log.Resetting? {
      if st.log.stage <= 2 { ResetEnd(cfg, st, st'); } else { ResetLast(cfg, st, st'); }
    } else if st.log.LSwapA? || st.log.LSwapB? {
      LoggerSwaps(cfg, st, st');
    } else {
      LoggerWaits(cfg, st, st');
    }
  }

  lemma StageOk(cfg: Config, st: State)
    requires Flow(st) && Contents(cfg, st)
    ensures st.log.Flushing? || st.log.Resetting? ==> st.log.stage <= 3
    ensures st.log.Flushing? && st.log.stage == 2 ==> st.secondary < |st.bufs|
    ensures st.primary < |st.bufs|
  {
    hide DataOk, BlankOk;
  }

  lemma LoggerPrimary(cfg: Config, st: State, st': State)
    requires Primary(cfg, st) && KeepsPrimary(st, st') && st'.cur == st.cur && st'.pcs == st.pcs
    ensures Primary(cfg, st')
  {
    assert forall u: Tid :: PcOf(st', u) == PcOf(st, u);
    PrimaryFrame(cfg, st, st');
  }

  lemma LoggerKeeps(cfg: Config, st: State, st': State)
    requires Safe(cfg, st) && StepLogger(cfg, st, st')
    ensures Safe(cfg, st')
  {
    hide LocksOk, Flow, Contents, Primary, OrderOk, StepLogger;
    LoggerFrame(cfg, st, st');
    LoggerLocks(st, st');
    LoggerFlow(cfg, st, st');
    LoggerContents(cfg, st, st');
    LoggerPrimary(cfg, st, st');
    LoggerOrder(st, st');
  }

  // ----- destruction ------------------------------------------------------------------

  lemma OwnerLocks(st: State, st': State)
    requires LocksOk(st) && Flow(st) && StepOwner(st, st')
    ensures LocksOk(st') && Flow(st') && Holder(st') == Holder(st)
    ensures Pending(st'.event, st'.owner) == Pending(st.event, st.owner)
  {
    assert forall u: Tid :: PcOf(st', u) == PcOf(st, u);
  }

  lemma OwnerPrimary(cfg: Config, st: State, st': State)
    requires Primary(cfg, st) && StepOwner(st, st')
    ensures Primary(cfg, st')
  {
    assert forall u: Tid :: PcOf(st', u) == PcOf(st, u);
    PrimaryFrame(cfg, st, st');
  }

  lemma OwnerSame(cfg: Config, st: State, st': State)
    requires Contents(cfg, st) && StepOwner(st, st') && Holder(st') == Holder(st)
    requires Pending(st'.event, st'.owner) == Pending(st.event, st.owner)
    ensures Contents(cfg, st')
  {
    hide Holder, ContentsOk, Pending;
  }

  lemma OwnerKeeps(cfg: Config, st: State, st': State)
    requires Safe(cfg, st) && StepOwner(st, st')
    ensures Safe(cfg, st')
  {
    hide LocksOk, Flow, Contents, Primary, OrderOk, Holder, Pending;
    OwnerLocks(st, st');
    OwnerPrimary(cfg, st, st');
    OwnerSame(cfg, st, st');
    LoggerOrder(st, st');
  }
}
