/**
 How receiver threads agree on who creates a file.  The first thread that gets a block of a file allocates it; the
 others wait on that thread's condition variable.  Any number of threads takes any interleaving of these steps.
 The log of the session starts behind its header.
 */
module FileAllocation {
  import opened Options

  /** What the sender says of a file is the same for all its blocks of a session. */
  datatype Kind = New | TooSmall | CorrectSize

  datatype Entry = FileCreation(id: nat) | FileResize(id: nat) | BlockWrite(id: nat)

  /** The status map holds the allocating thread until the allocation is over. */
  datatype Status = ByThread(t: nat) | Allocated | Failed

  datatype Phase =
    | Idle
    | Allocating(id: nat)
    | Sized(id: nat, ok: bool)
    | Marked(id: nat, ok: bool)
    | MustWait(id: nat, owner: nat)
    | Checking(id: nat, owner: nat)
    | AboutToSleep(id: nat, owner: nat)
    | Sleeping(id: nat, owner: nat)
    | Woken(id: nat, owner: nat)
    | Opening(id: nat)
    | Writing(id: nat)

  /** `unverified` are blocks that were written and are not in the log yet. */
  datatype Thread = Thread(phase: Phase, unverified: seq<nat>)

  /** `mutex` is the thread that holds the allocation mutex, `begun` the files whose allocation was begun. */
  datatype State = State(kind: nat -> Kind, threads: seq<Thread>, statuses: map<nat, Status>, mutex: Option<nat>,
                         log: seq<Entry>, begun: seq<nat>)

  datatype Step =
    | Request(t: nat, id: nat)
    | SetSize(t: nat, success: bool)
    | Mark(t: nat)
    | Notify(t: nat)
    | Lock(t: nat)
    | Check(t: nat)
    | Sleep(t: nat)
    | Wake(t: nat)
    | Open(t: nat, success: bool)
    | Finish(t: nat, success: bool)
    | Verify(t: nat)
    | Drop(t: nat)

  predicate Init(st: State) {
    && st.statuses == map[] && st.mutex == None && st.log == [] && st.begun == []
    && forall t :: 0 <= t < |st.threads| ==> st.threads[t] == Thread(Idle, [])
  }

  predicate Enabled(st: State, step: Step) {
    && step.t < |st.threads|
    && var th := st.threads[step.t];
       match step
       case Request(_, _) => th.phase.Idle?
       case SetSize(_, _) => th.phase.Allocating?
       case Mark(_) => th.phase.Sized?
       case Notify(_) => th.phase.Marked? && st.mutex == None
       case Lock(_) => (th.phase.MustWait? || th.phase.Woken?) && st.mutex == None
       case Check(_) => th.phase.Checking? && th.phase.id in st.statuses
       case Sleep(_) => th.phase.AboutToSleep?
       case Wake(_) => th.phase.Sleeping?
       case Open(_, _) => th.phase.Opening?
       case Finish(_, _) => th.phase.Writing?
       case Verify(_) => th.unverified != []
       case Drop(_) => true
  }

  /** The thread's next phase; only a request, a mark and a check look at the status map. */
  function PhaseAfter(st: State, step: Step): Phase
    requires Enabled(st, step)
  {
    var p := st.threads[step.t].phase;
    match step
    case Request(t, id) =>
      if id !in st.statuses then if st.kind(id) == CorrectSize then Opening(id) else Allocating(id)
      else (match st.statuses[id] case Failed => Idle case Allocated => Opening(id) case ByThread(u) => MustWait(id, u))
    case SetSize(_, success) => Sized(p.id, success)
    case Mark(_) => Marked(p.id, p.ok)
    case Notify(_) => if p.ok then Writing(p.id) else Idle
    case Lock(_) => Checking(p.id, p.owner)
    case Check(_) =>
      (match st.statuses[p.id]
       case Failed => Idle
       case Allocated => Opening(p.id)
       case ByThread(_) => AboutToSleep(p.id, p.owner))
    case Sleep(_) => Sleeping(p.id, p.owner)
    case Wake(_) => Woken(p.id, p.owner)
    case Open(_, success) => if success then Writing(p.id) else Idle
    case Finish(_, _) => Idle
    case Verify(_) => p
    case Drop(_) => p
  }

  function UnverifiedAfter(st: State, step: Step): seq<nat>
    requires Enabled(st, step)
  {
    var th := st.threads[step.t];
    match step
    case Finish(_, success) => if success then th.unverified + [th.phase.id] else th.unverified
    case Verify(_) => th.unverified[1..]
    case Drop(_) => []
    case _ => th.unverified
  }

  function StatusesAfter(st: State, step: Step): map<nat, Status>
    requires Enabled(st, step)
  {
    var p := st.threads[step.t].phase;
    if step.Request? && step.id !in st.statuses then
      st.statuses[step.id := if st.kind(step.id) == CorrectSize then Allocated else ByThread(step.t)]
    else if step.Mark? then st.statuses[p.id := if p.ok then Allocated else Failed]
    else st.statuses
  }

  function MutexAfter(st: State, step: Step): Option<nat>
    requires Enabled(st, step)
  {
    if step.Lock? then Some(step.t)
    else if step.Sleep? || (step.Check? && !PhaseAfter(st, step).AboutToSleep?) then None
    else st.mutex
  }

  function LogAfter(st: State, step: Step): seq<Entry>
    requires Enabled(st, step)
  {
    var th := st.threads[step.t];
    match step
    case SetSize(_, success) =>
      if !success then st.log
      else st.log + [if st.kind(th.phase.id) == New then FileCreation(th.phase.id) else FileResize(th.phase.id)]
    case Verify(_) => st.log + [BlockWrite(th.unverified[0])]
    case _ => st.log
  }

  /** Notifying wakes everybody who sleeps on the thread's condition variable. */
  function WokenBy(t: nat, th: Thread): Thread {
    if th.phase.Sleeping? && th.phase.owner == t then th.(phase := Woken(th.phase.id, t)) else th
  }

  function ThreadsAfter(st: State, step: Step): seq<Thread>
    requires Enabled(st, step)
  {
    var own := Thread(PhaseAfter(st, step), UnverifiedAfter(st, step));
    if step.Notify? then
      seq(|st.threads|, i requires 0 <= i < |st.threads| => if i == step.t then own else WokenBy(step.t, st.threads[i]))
    else st.threads[step.t := own]
  }

  function Apply(st: State, step: Step): State
    requires Enabled(st, step)
  {
    State(st.kind, ThreadsAfter(st, step), StatusesAfter(st, step), MutexAfter(st, step), LogAfter(st, step),
          if PhaseAfter(st, step).Allocating? && step.Request? then st.begun + [step.id] else st.begun)
  }

  ghost predicate Next(st: State, st': State) {
    exists step :: Enabled(st, step) && st' == Apply(st, step)
  }

  ghost predicate IsRun(run: seq<State>) {
    && run != [] && Init(run[0])
    && forall i :: 0 <= i < |run| - 1 ==> Next(run[i], run[i + 1])
  }

  // ---- the invariant

  predicate Working(p: Phase, id: nat) {
    (p.Allocating? || p.Sized?) && p.id == id
  }

  /** The thread will still notify those who wait for this file. */
  predicate WillNotify(p: Phase, id: nat) {
    Working(p, id) || (p.Marked? && p.id == id)
  }

  predicate HasStatus(st: State, id: nat, s: Status) {
    id in st.statuses && st.statuses[id] == s
  }

  /** The file's creation is in the log if the file is new. */
  predicate CreationLogged(st: State, id: nat) {
    st.kind(id) == New ==> FileCreation(id) in st.log
  }

  predicate Usable(st: State, id: nat) {
    HasStatus(st, id, Allocated) && CreationLogged(st, id)
  }

  predicate Waits(p: Phase) {
    p.MustWait? || p.Checking? || p.AboutToSleep? || p.Sleeping? || p.Woken?
  }

  /** Who sleeps, or is about to, will be notified. */
  predicate WaitOk(st: State, p: Phase)
    requires Waits(p)
  {
    && p.id in st.statuses && (st.statuses[p.id].ByThread? ==> st.statuses[p.id].t == p.owner)
    && p.owner < |st.threads|
    && (p.AboutToSleep? || p.Sleeping? ==> WillNotify(st.threads[p.owner].phase, p.id))
  }

  predicate PhaseOk(st: State, t: nat)
    requires t < |st.threads|
  {
    var p := st.threads[t].phase;
    && (p.Allocating? || p.Sized? ==> HasStatus(st, p.id, ByThread(t)))
    && (p.Sized? && p.ok ==> CreationLogged(st, p.id))
    && (p.Marked? ==> if p.ok then Usable(st, p.id) else HasStatus(st, p.id, Failed))
    && (p.Opening? || p.Writing? ==> Usable(st, p.id))
    && (Waits(p) ==> WaitOk(st, p))
  }

  predicate ThreadOk(st: State, t: nat)
    requires t < |st.threads|
  {
    && PhaseOk(st, t)
    && (st.mutex == Some(t) <==> st.threads[t].phase.Checking? || st.threads[t].phase.AboutToSleep?)
    && forall id :: id in st.threads[t].unverified ==> Usable(st, id)
  }

  predicate StatusOk(st: State, id: nat)
    requires id in st.statuses
  {
    match st.statuses[id]
    case ByThread(t) => t < |st.threads| && Working(st.threads[t].phase, id)
    case Allocated => CreationLogged(st, id)
    case Failed => true
  }

  /** Every block of a new file in the log has the file's creation before it. */
  predicate LogOrdered(st: State) {
    forall j :: 0 <= j < |st.log| && st.log[j].BlockWrite? && st.kind(st.log[j].id) == New ==>
      FileCreation(st.log[j].id) in st.log[..j]
  }

  predicate BegunOnce(st: State) {
    && (forall i, j :: 0 <= i < j < |st.begun| ==> st.begun[i] != st.begun[j])
    && forall i :: 0 <= i < |st.begun| ==> st.begun[i] in st.statuses
  }

  ghost predicate Inv(st: State) {
    && (forall t :: 0 <= t < |st.threads| ==> ThreadOk(st, t))
    && (forall id :: id in st.statuses ==> StatusOk(st, id))
    && LogOrdered(st) && BegunOnce(st) && (st.mutex.Some? ==> st.mutex.value < |st.threads|)
  }

  // ---- every step keeps it

  lemma CreationKept(st: State, step: Step, id: nat)
    requires Enabled(st, step) && CreationLogged(st, id)
    ensures CreationLogged(Apply(st, step), id)
  {
  }

  /** An allocated or failed file stays so; another thread's allocation goes on. */
  lemma StatusKept(st: State, step: Step, id: nat, s: Status)
    requires Inv(st) && Enabled(st, step) && HasStatus(st, id, s) && s != ByThread(step.t)
    ensures HasStatus(Apply(st, step), id, s)
  {
    assert ThreadOk(st, step.t);
  }

  lemma UsableKept(st: State, step: Step, id: nat)
    requires Inv(st) && Enabled(st, step) && Usable(st, id)
    ensures Usable(Apply(st, step), id)
  {
    CreationKept(st, step, id);
    StatusKept(st, step, id, Allocated);
  }

  lemma OwnPhaseKept(st: State, step: Step)
    requires Inv(st) && Enabled(st, step)
    ensures PhaseOk(Apply(st, step), step.t)
  {
    var t := step.t;
    var p, p' := st.threads[t].phase, PhaseAfter(st, step);
    var st' := Apply(st, step);
    assert ThreadOk(st, t);
    assert st'.threads[t].phase == p';
    if (p.Opening? || p.Writing?) || (p.Marked? && p.ok) {
      UsableKept(st, step, p.id);
    }
    if p.Sized? && p.ok {
      CreationKept(st, step, p.id);
    }
    if Waits(p) {
      assert p.id in st.statuses && StatusOk(st, p.id);
      if st.statuses[p.id] == Allocated {
        UsableKept(st, step, p.id);
      }
    }
    if step.Request? && step.id in st.statuses {
      assert StatusOk(st, step.id);
      if st.statuses[step.id] == Allocated {
        UsableKept(st, step, step.id);
      }
    }
  }

  lemma OtherThread(st: State, step: Step, u: nat)
    requires Enabled(st, step) && u < |st.threads| && u != step.t
    ensures var th, th' := st.threads[u], Apply(st, step).threads[u];
            && th'.unverified == th.unverified
            && (th' == th || (step.Notify? && th' == WokenBy(step.t, th)))
            && (step.Notify? && th.phase.Sleeping? ==> th.phase.owner != step.t || th'.phase.Woken?)
  {
  }

  /** Nobody who counts on a thread is forgotten: it keeps working, or it notifies when no one is about to sleep. */
  lemma WaitersKept(st: State, step: Step, u: nat)
    requires Inv(st) && Enabled(st, step) && u < |st.threads| && u != step.t && Waits(st.threads[u].phase)
    ensures WaitOk(Apply(st, step), Apply(st, step).threads[u].phase)
  {
    var p, st' := st.threads[u].phase, Apply(st, step);
    OtherThread(st, step, u);
    assert ThreadOk(st, u) && ThreadOk(st, step.t) && StatusOk(st, p.id);
    var o := p.owner;
    if o != step.t {
      OtherThread(st, step, o);
    }
    if st.statuses[p.id] != ByThread(step.t) {
      StatusKept(st, step, p.id, st.statuses[p.id]);
    }
  }

  lemma OtherPhaseKept(st: State, step: Step, u: nat)
    requires Inv(st) && Enabled(st, step) && u < |st.threads| && u != step.t
    ensures PhaseOk(Apply(st, step), u)
  {
    var p := st.threads[u].phase;
    OtherThread(st, step, u);
    assert ThreadOk(st, u);
    if Waits(p) {
      WaitersKept(st, step, u);
    } else if p.Allocating? || p.Sized? {
      StatusKept(st, step, p.id, ByThread(u));
      if p.Sized? && p.ok {
        CreationKept(st, step, p.id);
      }
    } else if (p.Opening? || p.Writing?) || (p.Marked? && p.ok) {
      UsableKept(st, step, p.id);
    } else if p.Marked? {
      StatusKept(st, step, p.id, Failed);
    }
  }

  lemma ThreadKept(st: State, step: Step, u: nat)
    requires Inv(st) && Enabled(st, step) && u < |st.threads|
    ensures ThreadOk(Apply(st, step), u)
  {
    var st' := Apply(st, step);
    assert ThreadOk(st, u) && ThreadOk(st, step.t);
    if u == step.t {
      OwnPhaseKept(st, step);
      assert st'.threads[u] == Thread(PhaseAfter(st, step), UnverifiedAfter(st, step));
    } else {
      OtherPhaseKept(st, step, u);
      OtherThread(st, step, u);
    }
    forall id | id in st'.threads[u].unverified ensures Usable(st', id) {
      if id in st.threads[u].unverified {
        UsableKept(st, step, id);
      } else {
        UsableKept(st, step, st.threads[u].phase.id);
      }
    }
  }

  lemma StatusesKept(st: State, step: Step, id: nat)
    requires Inv(st) && Enabled(st, step) && id in Apply(st, step).statuses
    ensures StatusOk(Apply(st, step), id)
  {
    var st' := Apply(st, step);
    assert ThreadOk(st, step.t);
    assert st'.threads[step.t].phase == PhaseAfter(st, step);
    if id in st.statuses {
      assert StatusOk(st, id);
      if st.statuses[id] == Allocated {
        UsableKept(st, step, id);
      } else if st.statuses[id].ByThread? && st.statuses[id].t != step.t {
        StatusKept(st, step, id, st.statuses[id]);
        OtherThread(st, step, st.statuses[id].t);
      }
    }
  }

  lemma LogKept(st: State, step: Step)
    requires Inv(st) && Enabled(st, step)
    ensures LogOrdered(Apply(st, step))
  {
    var st' := Apply(st, step);
    assert ThreadOk(st, step.t);
    forall j | 0 <= j < |st'.log| && st'.log[j].BlockWrite? && st'.kind(st'.log[j].id) == New
      ensures FileCreation(st'.log[j].id) in st'.log[..j]
    {
      if j < |st.log| {
        assert st'.log[j] == st.log[j] && st'.log[..j] == st.log[..j];
      } else {
        assert st'.log[..j] == st.log;
        assert st'.log[j].id in st.threads[step.t].unverified;
      }
    }
  }

  lemma BegunKept(st: State, step: Step)
    requires Inv(st) && Enabled(st, step)
    ensures BegunOnce(Apply(st, step))
  {
    var st' := Apply(st, step);
    assert forall id :: id in st.statuses ==> id in st'.statuses;
  }

  lemma StepKeepsInv(st: State, step: Step)
    requires Inv(st) && Enabled(st, step)
    ensures Inv(Apply(st, step))
  {
    var st' := Apply(st, step);
    forall u | 0 <= u < |st'.threads| ensures ThreadOk(st', u) {
      ThreadKept(st, step, u);
    }
    forall id | id in st'.statuses ensures StatusOk(st', id) {
      StatusesKept(st, step, id);
    }
    LogKept(st, step);
    BegunKept(st, step);
  }

  lemma {:induction false} RunKeepsInv(run: seq<State>, k: nat)
    requires IsRun(run) && k < |run|
    ensures Inv(run[k])
  {
    if k > 0 {
      RunKeepsInv(run, k - 1);
      assert Next(run[k - 1], run[k - 1 + 1]);
      var step :| Enabled(run[k - 1], step) && run[k] == Apply(run[k - 1], step);
      StepKeepsInv(run[k - 1], step);
    }
  }

  // ---- the promises

  /** In every run each file is allocated by one thread at most, and the log has a file's creation before its blocks. */
  lemma AllocatedOnceLoggedInOrder(run: seq<State>, k: nat)
    requires IsRun(run) && k < |run|
    ensures forall i, j :: 0 <= i < j < |run[k].begun| ==> run[k].begun[i] != run[k].begun[j]
    ensures LogOrdered(run[k])
  {
    RunKeepsInv(run, k);
  }

  /** No two threads are ever allocating the same file. */
  lemma OneAllocator(run: seq<State>, k: nat, t: nat, u: nat, id: nat)
    requires IsRun(run) && k < |run| && t < |run[k].threads| && u < |run[k].threads|
    requires Working(run[k].threads[t].phase, id) && Working(run[k].threads[u].phase, id)
    ensures t == u
  {
    RunKeepsInv(run, k);
    assert ThreadOk(run[k], t) && ThreadOk(run[k], u);
  }

  /** Nobody opens or writes a file that is not allocated. */
  lemma OpenOnlyAllocated(run: seq<State>, k: nat, t: nat)
    requires IsRun(run) && k < |run| && t < |run[k].threads|
    requires run[k].threads[t].phase.Opening? || run[k].threads[t].phase.Writing?
    ensures HasStatus(run[k], run[k].threads[t].phase.id, Allocated)
  {
    RunKeepsInv(run, k);
    assert ThreadOk(run[k], t);
  }

  // ---- nobody sleeps for ever

  /**
   The steps that lead from one state to another, all taken by the thread waited for or by the holder of the mutex.
   */
  ghost predicate LeadsTo(st: State, steps: seq<Step>, st': State)
    decreases |steps|
  {
    if steps == [] then st' == st
    else
      && Enabled(st, steps[0])
      && (steps[0].SetSize? || steps[0].Mark? || steps[0].Notify? || steps[0].Check? || steps[0].Sleep?)
      && LeadsTo(Apply(st, steps[0]), steps[1..], st')
  }

  /** How many steps it takes until the thread that allocates the file notifies the others. */
  function StepsToGo(st: State, owner: nat): nat
    requires owner < |st.threads|
  {
    var held := if st.mutex.None? || st.mutex.value >= |st.threads| then 0
                else if st.threads[st.mutex.value].phase.Checking? then 2 else 1;
    held + if st.threads[owner].phase.Allocating? then 3 else if st.threads[owner].phase.Sized? then 2 else 1
  }

  /**
   While a thread sleeps, the thread it waits for or the holder of the mutex has a step that leads nearer to its
   waking.
   */
  lemma SleeperIsNotForgotten(st: State, t: nat) returns (step: Step)
    requires Inv(st) && t < |st.threads| && st.threads[t].phase.Sleeping?
    ensures Enabled(st, step) && (step.SetSize? || step.Mark? || step.Notify? || step.Check? || step.Sleep?)
    ensures var p, st' := st.threads[t].phase, Apply(st, step);
            && |st'.threads| == |st.threads| && p.owner < |st.threads|
            && if step.Notify? then st'.threads[t].phase == Woken(p.id, p.owner)
               else st'.threads[t].phase == p && StepsToGo(st', p.owner) < StepsToGo(st, p.owner)
    ensures if st.mutex.Some? then st.mutex == Some(step.t) else step.t == st.threads[t].phase.owner
  {
    assert ThreadOk(st, t);
    var o := st.threads[t].phase.owner;
    if st.mutex.Some? {
      var m := st.mutex.value;
      assert ThreadOk(st, m);
      step := if st.threads[m].phase.Checking? then Check(m) else Sleep(m);
    } else if st.threads[o].phase.Allocating? {
      step := SetSize(o, true);
    } else if st.threads[o].phase.Sized? {
      step := Mark(o);
    } else {
      step := Notify(o);
    }
  }

  lemma {:induction false} SleeperCanBeWoken(st: State, t: nat, fuel: nat) returns (steps: seq<Step>, st': State)
    requires Inv(st) && t < |st.threads| && st.threads[t].phase.Sleeping?
    requires st.threads[t].phase.owner < |st.threads| && StepsToGo(st, st.threads[t].phase.owner) <= fuel
    ensures LeadsTo(st, steps, st') && |steps| <= fuel && t < |st'.threads| && st'.threads[t].phase.Woken?
    decreases fuel
  {
    var step := SleeperIsNotForgotten(st, t);
    var next := Apply(st, step);
    if step.Notify? {
      steps, st' := [step], next;
      assert steps[1..] == [];
    } else {
      StepKeepsInv(st, step);
      var rest;
      rest, st' := SleeperCanBeWoken(next, t, fuel - 1);
      steps := [step] + rest;
      assert steps[1..] == rest;
    }
  }

  /** No wakeup is lost: in every run, whoever sleeps can be woken by at most five steps of those it waits for. */
  lemma SleeperIsWoken(run: seq<State>, k: nat, t: nat) returns (steps: seq<Step>, st': State)
    requires IsRun(run) && k < |run| && t < |run[k].threads| && run[k].threads[t].phase.Sleeping?
    ensures LeadsTo(run[k], steps, st') && |steps| <= 5 && t < |st'.threads| && st'.threads[t].phase.Woken?
  {
    RunKeepsInv(run, k);
    assert ThreadOk(run[k], t);
    steps, st' := SleeperCanBeWoken(run[k], t, 5);
  }
}
