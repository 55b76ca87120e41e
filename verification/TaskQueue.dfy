/** The sections of the thread pool that run under its mutex, as methods that update the pool's fields: each
    is a step of the transition system in WorkerPool. */
module TaskQueue {
  import opened Common
  import opened WorkerPool

  class TaskQueue {
    var queue: seq<Task>  // m_task_que_
    var size: nat         // m_task_size_
    var limit: nat        // m_thresh_hold_task_size_
    var running: bool     // m_running_
    var live: set<Tid>    // keys of m_threads_

    /** The fields agree with a state of the transition system. */
    ghost predicate Matches(st: State)
      reads this
    {
      queue == st.queue && size == st.size && limit == st.limit && running == st.running && live == st.live
    }

    constructor (n: nat, most: nat)
      ensures Matches(Init(n, most))
    {
      queue, size, limit, running, live := [], 0, most, true, Everyone(n);
    }

    /** The part of `submit_task` after the wait: false if there is no free place. The task is numbered by the
        order of acceptance. */
    method Submit(task: Task, ghost st: State, c: nat) returns (ok: bool, ghost st1: State, ghost st2: State)
      requires Matches(st) && ClientAt(st, c).Asking? && task == st.accepted
      modifies this`queue, this`size
      ensures ok <==> old(size) < limit
      ensures queue == if ok then old(queue) + [task] else old(queue)
      ensures forall timeout: bool :: ok || timeout ==> StepClient(st, st1, c, timeout, 0)
      ensures (ok ==> StepClient(st1, st2, c, true, 0) && Matches(st2)) && (!ok ==> Matches(st1))
    {
      ok := size < limit;
      st1 := if ok then ToC(st, c, Pushing) else ToC(st, c, Outside).(mutex := None);
      st2 := st1;
      if ok {
        queue := queue + [task];
        size := size + 1;
        st2 := ToC(st1, c, Notifying).(queue := queue, size := size, accepted := st1.accepted + 1);
      }
    }

    /** `m_get_task`: the oldest task; `notify` says whether the others are woken. */
    method GetTask(ghost st: State, t: Tid) returns (task: Task, notify: bool, ghost st': State)
      requires Matches(st) && WorkerAt(st, t).Getting? && t < st.n && queue != [] && size == |queue|
      modifies this`queue, this`size
      ensures [task] + queue == old(queue) && size == |queue| && notify
      ensures StepWorker(st, st', t) && Matches(st') && WorkerAt(st', t) == Got(task)
    {
      task := queue[0];
      queue := queue[1..];
      notify := size != 0;
      size := size - 1;
      st' := st.(queue := queue, size := size, taken := st.taken + 1,
                 workers := (if st.size != 0 then WakeAll(st.workers) else st.workers)[t := Got(task)]);
    }

    /** A worker that finds the pool stopped erases itself; `last` tells whether it wakes the destructor. */
    method Leave(ghost st: State, t: Tid) returns (last: bool, ghost st': State)
      requires Matches(st) && WorkerAt(st, t).Leaving? && t < st.n
      modifies this`live
      ensures live == old(live) - {t} && (last <==> live == {})
      ensures StepWorker(st, st', t) && Matches(st') && (last && st.owner.Waiting? ==> st'.owner.Woken?)
    {
      live := live - {t};
      last := live == {};
      st' := ToW(st, t, Erased).(live := live, owner := if live == {} && st.owner.Waiting? then Woken else st.owner);
    }

    /** The limit can be changed only while the pool is not running. */
    method SetLimit(most: nat) returns (ok: bool)
      modifies this`limit
      ensures ok <==> !running
      ensures limit == if ok then most else old(limit)
    {
      ok := !running;
      if ok { limit := most; }
    }
  }
}
