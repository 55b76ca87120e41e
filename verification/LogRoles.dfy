/** The buffer pointers of the log thread (`logger/src/log_thread.cpp`), updated in place: each exchange is the
    run of steps that the transition system in LogProtocol takes for it. */
module LogRoles {
  import opened LogProtocol

  class LogThread {
    var primary: nat    // m_primary_buffer_
    var secondary: nat  // m_secondary_buffer_
    var write: nat      // m_write_buffer_
    var event: nat      // counter behind m_event_fd_
    var running: bool   // m_running_

    ghost predicate Matches(st: State)
      reads this
    {
      primary == st.primary && secondary == st.secondary && write == st.write && event == st.event && running == st.running
    }

    constructor ()
      ensures Matches(Init())
    {
      primary, secondary, write, event, running := 0, 1, 2, 0, true;
    }

    /** `primary_swap`, called by producer t under the exclusive lock. */
    method PrimarySwap(cfg: Config, ghost st: State, t: Tid) returns (ghost st1: State, ghost st2: State)
      requires Matches(st) && PcOf(st, t).SwapA? && PcOf(st, t).t == st.primary < |st.bufs|
      modifies this`primary, this`secondary
      ensures primary == old(secondary) && secondary == old(primary)
      ensures StepProducer(cfg, st, st1, t, SwapFirst) && StepProducer(cfg, st1, st2, t, SwapSecond) && Matches(st2)
    {
      var r := PcOf(st, t).r;
      var old_ := primary;
      primary := secondary;
      st1 := To(st, t, SwapB(r, old_)).(primary := st.secondary, past := st.past + st.cur, cur := [],
                                        early := st.early || st.bufs[st.primary].index < cfg.cap);
      secondary := old_;
      st2 := To(st1, t, Swapped(r)).(secondary := old_);
    }

    method Notify(cfg: Config, ghost st: State, t: Tid) returns (ghost st': State)
      requires Matches(st) && PcOf(st, t).Swapped?
      modifies this`event
      ensures event == old(event) + 1 && StepProducer(cfg, st, st', t, LogProtocol.Notify) && Matches(st')
    {
      event := event + 1;
      st' := To(st, t, Notified(PcOf(st, t).r)).(event := event);
    }

    /** The log thread after it woke up: false if it has to leave its loop; otherwise the event is cleared and the
        secondary buffer exchanged for the write buffer. */
    method TakeOver(cfg: Config, ghost st: State) returns (stay: bool, ghost steps: seq<State>)
      requires Matches(st) && st.log.Woken?
      modifies this`event, this`secondary, this`write
      ensures stay <==> running
      ensures stay ==> event == 0 && secondary == old(write) && write == old(secondary)
      ensures |steps| >= 1 && steps[0] == st && Matches(steps[|steps| - 1])
      ensures forall i :: 0 <= i < |steps| - 1 ==> StepLogger(cfg, steps[i], steps[i + 1])
      ensures steps[|steps| - 1].log == if stay then Arriving else Flushing(1, 0)
    {
      if !running {
        return false, [st, st.(log := Flushing(1, 0))];
      }
      ghost var s0 := st.(log := Reading);
      event := 0;
      ghost var s1 := s0.(log := Taking, event := 0);
      var t := secondary;
      ghost var s2 := s1.(log := LSwapA(t));
      secondary := write;
      ghost var s3 := s2.(log := LSwapB(t), secondary := st.write);
      write := t;
      ghost var s4 := s3.(log := Arriving, write := t);
      assert StepLogger(cfg, st, s0) && StepLogger(cfg, s0, s1);
      assert StepLogger(cfg, s1, s2) && StepLogger(cfg, s2, s3) && StepLogger(cfg, s3, s4);
      return true, [st, s0, s1, s2, s3, s4];
    }
  }
}
