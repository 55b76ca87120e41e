/** The rendezvous at the barrier: with two parties or more no producer starts an exchange before the log thread
    has taken over the one before. */
module LogBarrier {
  import opened Common
  import opened LogProtocol
  import opened LogSafety

  /** The holder asked for the secondary buffer to be taken and has not been let go. */
  predicate Requested(hold: Producer, phase: nat) {
    hold.Notified? || (hold.Arrived? && hold.token == phase)
  }

  /** The log thread has accepted the request and has not been let go. */
  predicate Serving(log: Logger, phase: nat) {
    Swapping(log) || log.Arriving? || (log.AtBarrier? && log.token == phase)
  }

  /** One event and one arrival of each side per request. */
  ghost predicate HandOk(parties: nat, hold: Producer, log: Logger, event: nat, phase: nat, arrived: nat, running: bool, owner: Owner) {
    && (hold.Arrived? ==> hold.token <= phase)
    && (log.AtBarrier? ==> log.token <= phase)
    && arrived == One(hold.Arrived? && hold.token == phase) + One(log.AtBarrier? && log.token == phase)
    && arrived < parties
    && (Serving(log, phase) ==> Requested(hold, phase))
    && (running ==> event == One(Requested(hold, phase) && !Serving(log, phase)))
    && (!running ==> hold == Idle && event == One(owner.Signalled? || owner.Joined?) && !log.Reading?)
  }

  ghost predicate Hand(cfg: Config, st: State) {
    HandOk(cfg.parties, Holder(st), st.log, st.event, st.phase, st.arrived, st.running, st.owner)
  }

  /** The barrier makes every step polite. */
  lemma HandIsPolite(cfg: Config, st: State, l: Label)
    requires LocksOk(st) && Hand(cfg, st)
    ensures Polite(cfg, st, l)
  {
    if Starts(cfg, st, l) {
      assert st.writer == Some(l.t);
    }
  }

  predicate Asking(hold: Producer) { hold.Notified? || hold.Arrived? }

  /** Steps other than the event and the two at the barrier. */
  lemma OtherHand(cfg: Config, st: State, st': State, t: Tid, act: Act)
    requires LocksOk(st) && Flow(st) && Hand(cfg, st) && StepProducer(cfg, st, st', t, act)
    requires !act.Notify? && !act.Meet? && !act.Resume?
    ensures Hand(cfg, st')
  {
    ActorRuns(cfg, st, st', t, act);
    OtherHolder(cfg, st, st', t, act);
    OtherFrame(cfg, st, st', t, act);
    ProducerFrame(cfg, st, st', t, act);
    hide LocksOk, Flow, Holder, StepProducer;
  }

  lemma OtherHolder(cfg: Config, st: State, st': State, t: Tid, act: Act)
    requires LocksOk(st) && StepProducer(cfg, st, st', t, act)
    requires !act.Notify? && !act.Meet? && !act.Resume?
    ensures Holder(st') == Holder(st) || (!Asking(Holder(st)) && !Asking(Holder(st')))
  {
    hide Started;
    assert HoldsExclusive(PcOf(st, t)) <==> st.writer == Some(t);
  }

  lemma OtherFrame(cfg: Config, st: State, st': State, t: Tid, act: Act)
    requires StepProducer(cfg, st, st', t, act) && !act.Notify? && !act.Meet? && !act.Resume?
    ensures st'.event == st.event && st'.phase == st.phase && st'.arrived == st.arrived
  {
    hide Started, MaySwap, HoldsShared, PcOf;
  }

  lemma HandoverHand(cfg: Config, st: State, st': State, t: Tid, act: Act)
    requires LocksOk(st) && Flow(st) && Hand(cfg, st) && StepProducer(cfg, st, st', t, act) && cfg.parties >= 2
    requires act.Notify? || act.Meet? || act.Resume?
    ensures Hand(cfg, st')
  {
    ActorRuns(cfg, st, st', t, act);
    WriterStays(cfg, st, t);
    hide LocksOk, Flow;
  }

  lemma ProducerHand(cfg: Config, st: State, st': State, t: Tid, act: Act)
    requires LocksOk(st) && Flow(st) && Hand(cfg, st) && StepProducer(cfg, st, st', t, act) && cfg.parties >= 2
    ensures Hand(cfg, st')
  {
    hide LocksOk, Flow, Hand, StepProducer;
    if act.Notify? || act.Meet? || act.Resume? {
      HandoverHand(cfg, st, st', t, act);
    } else {
      OtherHand(cfg, st, st', t, act);
    }
  }

  lemma FlushHand(cfg: Config, st: State, st': State)
    requires Hand(cfg, st) && StepLogger(cfg, st, st') && Holder(st') == Holder(st) && (st.log.Flushing? || st.log.Resetting?)
    ensures Hand(cfg, st')
  {
    FlushFrame(cfg, st, st');
    LoggerNext(cfg, st, st');
    hide StepLogger, Holder;
  }

  lemma MeetHand(cfg: Config, st: State, st': State)
    requires Hand(cfg, st) && StepLogger(cfg, st, st') && Holder(st') == Holder(st) && cfg.parties >= 2
    requires st.log.Arriving? || st.log.AtBarrier?
    ensures Hand(cfg, st')
  {
    hide Holder;
  }

  lemma BarrierStays(cfg: Config, st: State, st': State)
    requires StepLogger(cfg, st, st') && !st.log.Arriving?
    ensures st'.phase == st.phase && st'.arrived == st.arrived
  {
  }

  lemma WaitHand(cfg: Config, st: State, st': State)
    requires Hand(cfg, st) && Flow(st) && StepLogger(cfg, st, st') && Holder(st') == Holder(st)
    requires !st.log.Arriving? && !st.log.AtBarrier? && !st.log.Flushing? && !st.log.Resetting?
    ensures Hand(cfg, st')
  {
    WaitFrame(cfg, st, st');
    LoggerNext(cfg, st, st');
    BarrierStays(cfg, st, st');
    hide StepLogger, Holder;
  }

  lemma LoggerHand(cfg: Config, st: State, st': State)
    requires Hand(cfg, st) && Flow(st) && StepLogger(cfg, st, st') && Holder(st') == Holder(st) && cfg.parties >= 2
    ensures Hand(cfg, st')
  {
    hide Hand, Flow, StepLogger, Holder;
    if st.log.Flushing? || st.log.Resetting? {
      FlushHand(cfg, st, st');
    } else if st.log.Arriving? || st.log.AtBarrier? {
      MeetHand(cfg, st, st');
    } else {
      WaitHand(cfg, st, st');
    }
  }

  lemma OwnerHand(cfg: Config, st: State, st': State)
    requires LocksOk(st) && Flow(st) && Hand(cfg, st) && StepOwner(st, st')
    ensures Hand(cfg, st')
  {
    assert forall u: Tid :: PcOf(st', u) == PcOf(st, u);
  }

  lemma StepHand(cfg: Config, st: State, st': State, l: Label)
    requires Safe(cfg, st) && Hand(cfg, st) && Step(cfg, st, st', l) && cfg.parties >= 2
    ensures Hand(cfg, st')
  {
    hide LocksOk, Flow, Contents, Primary, OrderOk, Hand, StepProducer, StepLogger, StepOwner;
    match l
    case P(t, act) => ProducerHand(cfg, st, st', t, act);
    case L =>
      LoggerFrame(cfg, st, st');
      LoggerLocks(st, st');
      LoggerHand(cfg, st, st');
    case O => OwnerHand(cfg, st, st');
  }
}
