/**
 When the receiver may say that a transfer is done.  Each thread serves one sender connection after the other; a
 thread that gives up publishes its checkpoint, and the others must hand it to their senders before they finish.
 What was said on which connection is kept in a log, against which the threads' indices are judged.
 */
module ReceiverFinish {
  import opened Options

  datatype Status = Running | Waiting | Finished

  /** Where a thread is in its state machine. */
  datatype Phase = Reading | DoneRead | AwaitingOthers | SendingGlobal | Accepting | Failing | SendingDone | Ended

  /**
   `index` checkpoints are known to have reached the sender, `pending` were written on this connection, and `toSend`
   more are about to be.  `doneFailed` tells whether the thread's DONE did not get through and it has not waited
   since, `published` which checkpoint it left behind.
   */
  datatype Thread = Thread(status: Status, phase: Phase, index: nat, pending: nat, toSend: nat,
                           doneFailed: bool, published: Option<nat>)

  /**
   What happened on the connections: checkpoints `[from, to)` written, a FILE or DONE command read, a new connection.
   */
  datatype Event = Wrote(t: nat, from: nat, to: nat) | Confirmed(t: nat) | Reconnected(t: nat)

  /** `checkpoints` holds the thread that published each. */
  datatype State = State(threads: seq<Thread>, checkpoints: seq<nat>, log: seq<Event>)

  datatype Step =
    | ReadFile(t: nat)
    | ReadDone(t: nat)
    | StartWaiting(t: nat)
    | FindNew(t: nat)
    | FindQuiet(t: nat)
    | WaitBroke(t: nat)
    | WriteGlobal(t: nat)
    | WriteGlobalFailed(t: nat)
    | Break(t: nat)
    | Accept(t: nat)
    | GiveUp(t: nat)
    | Publish(t: nat)
    | DoneSent(t: nat)
    | DoneFailed(t: nat)
    | Stop(t: nat)

  predicate Init(st: State) {
    && st.checkpoints == [] && st.log == []
    && forall t :: 0 <= t < |st.threads| ==> st.threads[t] == Thread(Running, Reading, 0, 0, 0, false, None)
  }

  /** No thread but `t` is running. */
  predicate OthersQuiet(st: State, t: nat) {
    forall u :: 0 <= u < |st.threads| && u != t ==> st.threads[u].status != Running
  }

  /** `Stop` is an abort, or a socket error that is not worth a retry: it can end a thread between any two states. */
  predicate Enabled(st: State, step: Step) {
    && step.t < |st.threads|
    && var th := st.threads[step.t];
       match step
       case ReadFile(_) => th.phase == Reading
       case ReadDone(_) => th.phase == Reading
       case StartWaiting(_) => th.phase == DoneRead
       case FindNew(_) => th.phase == AwaitingOthers && th.index < |st.checkpoints|
       case FindQuiet(t) => th.phase == AwaitingOthers && th.index >= |st.checkpoints| && OthersQuiet(st, t)
       case WaitBroke(_) => th.phase == AwaitingOthers
       case WriteGlobal(_) => th.phase == SendingGlobal
       case WriteGlobalFailed(_) => th.phase == SendingGlobal
       case Break(_) => th.phase == Reading
       case Accept(_) => th.phase == Accepting
       case GiveUp(_) => th.phase == Reading || th.phase == Accepting
       case Publish(_) => th.phase == Failing
       case DoneSent(_) => th.phase == SendingDone
       case DoneFailed(_) => th.phase == SendingDone
       case Stop(_) => th.phase != Ended
  }

  function ThreadAfter(st: State, step: Step): Thread
    requires Enabled(st, step)
  {
    var th := st.threads[step.t];
    match step
    case ReadFile(_) => th.(index := th.pending)
    case ReadDone(_) => th.(index := th.pending, phase := DoneRead)
    case StartWaiting(_) => th.(status := Waiting, phase := AwaitingOthers, doneFailed := false)
    case FindNew(_) => th.(status := Running, phase := SendingGlobal, toSend := |st.checkpoints| - th.index)
    case FindQuiet(_) => th.(status := Finished, phase := SendingDone)
    case WaitBroke(_) => th.(status := Running, phase := Accepting)
    case WriteGlobal(_) => th.(phase := Reading, pending := th.index + th.toSend)
    case WriteGlobalFailed(_) => th.(phase := Accepting)
    case Break(_) => th.(phase := Accepting)
    case Accept(_) => th.(phase := Reading, pending := th.index)
    case GiveUp(_) => th.(phase := Failing)
    case Publish(_) => th.(status := Finished, phase := Ended, doneFailed := false, published := Some(|st.checkpoints|))
    case DoneSent(_) => th.(phase := Ended)
    case DoneFailed(_) => th.(phase := Accepting, doneFailed := true)
    case Stop(_) => th.(status := Finished, phase := Ended, doneFailed := false)
  }

  function LogAfter(st: State, step: Step): seq<Event>
    requires Enabled(st, step)
  {
    var th := st.threads[step.t];
    match step
    case ReadFile(t) => st.log + [Confirmed(t)]
    case ReadDone(t) => st.log + [Confirmed(t)]
    case WriteGlobal(t) => st.log + [Wrote(t, th.index, th.index + th.toSend)]
    case Accept(t) => st.log + [Reconnected(t)]
    case _ => st.log
  }

  function Apply(st: State, step: Step): State
    requires Enabled(st, step)
  {
    State(st.threads[step.t := ThreadAfter(st, step)],
          if step.Publish? then st.checkpoints + [step.t] else st.checkpoints,
          LogAfter(st, step))
  }

  ghost predicate Next(st: State, st': State) {
    exists step :: Enabled(st, step) && st' == Apply(st, step)
  }

  ghost predicate IsRun(run: seq<State>) {
    && run != [] && Init(run[0])
    && forall i :: 0 <= i < |run| - 1 ==> Next(run[i], run[i + 1])
  }

  // ---- what the log says

  /** From position `p` on, the thread kept its connection. */
  predicate SameConnection(log: seq<Event>, t: nat, p: nat) {
    forall q :: p <= q < |log| ==> log[q] != Reconnected(t)
  }

  predicate WroteAt(log: seq<Event>, t: nat, i: nat, p: nat) {
    p < |log| && log[p].Wrote? && log[p].t == t && log[p].from <= i < log[p].to
  }

  /** Checkpoint `i` was written on the connection that the thread has now. */
  ghost predicate WrittenNow(log: seq<Event>, t: nat, i: nat) {
    exists p: nat :: WroteAt(log, t, i, p) && SameConnection(log, t, p)
  }

  /** After a command of the sender at `q`, on the same connection, checkpoint `i` had reached it. */
  ghost predicate ConfirmedAt(log: seq<Event>, t: nat, i: nat, q: nat) {
    q < |log| && log[q] == Confirmed(t) && WrittenNow(log[..q], t, i)
  }

  /** Checkpoint `i` was written to the sender of thread `t`, which then went on with a FILE or DONE command. */
  ghost predicate Delivered(log: seq<Event>, t: nat, i: nat) {
    exists q: nat :: ConfirmedAt(log, t, i, q)
  }

  lemma DeliveredGrows(log: seq<Event>, e: Event, t: nat, i: nat)
    requires Delivered(log, t, i)
    ensures Delivered(log + [e], t, i)
  {
    var q: nat :| ConfirmedAt(log, t, i, q);
    assert (log + [e])[..q] == log[..q];
    assert ConfirmedAt(log + [e], t, i, q);
  }

  lemma WrittenGrows(log: seq<Event>, e: Event, t: nat, i: nat)
    requires WrittenNow(log, t, i) && e != Reconnected(t)
    ensures WrittenNow(log + [e], t, i)
  {
    var p: nat :| WroteAt(log, t, i, p) && SameConnection(log, t, p);
    assert WroteAt(log + [e], t, i, p) && SameConnection(log + [e], t, p);
  }

  lemma WritingIsWritten(log: seq<Event>, t: nat, from: nat, to: nat, i: nat)
    requires from <= i < to
    ensures WrittenNow(log + [Wrote(t, from, to)], t, i)
  {
    var log' := log + [Wrote(t, from, to)];
    assert WroteAt(log', t, i, |log|) && SameConnection(log', t, |log|);
  }

  lemma ConfirmingDelivers(log: seq<Event>, t: nat, i: nat)
    requires WrittenNow(log, t, i)
    ensures Delivered(log + [Confirmed(t)], t, i)
  {
    var log' := log + [Confirmed(t)];
    assert log'[..|log|] == log;
    assert ConfirmedAt(log', t, i, |log|);
  }

  // ---- the invariant

  ghost predicate IndicesTrue(st: State, t: nat)
    requires t < |st.threads|
  {
    var th := st.threads[t];
    && th.index <= th.pending <= |st.checkpoints|
    && (forall i :: 0 <= i < th.index ==> Delivered(st.log, t, i))
    && (forall i :: th.index <= i < th.pending ==> WrittenNow(st.log, t, i))
    && (th.phase == SendingGlobal ==> th.index + th.toSend <= |st.checkpoints|)
  }

  predicate WaitsOrEnds(p: Phase) {
    p == AwaitingOthers || p == SendingDone || p == Ended
  }

  /** A thread counts as running exactly while it works, unless its DONE has failed. */
  predicate PhaseTrue(st: State, t: nat)
    requires t < |st.threads|
  {
    var th := st.threads[t];
    && (th.phase == AwaitingOthers ==> th.status == Waiting)
    && (th.phase == SendingDone || th.phase == Ended ==> th.status == Finished)
    && (th.doneFailed ==> !WaitsOrEnds(th.phase) && th.status == Finished)
    && (!th.doneFailed && !WaitsOrEnds(th.phase) ==> th.status == Running)
    && (th.published.Some? ==> th.phase == Ended && th.published.value < |st.checkpoints|
                               && st.checkpoints[th.published.value] == t)
  }

  ghost predicate Inv(st: State) {
    forall t :: 0 <= t < |st.threads| ==> IndicesTrue(st, t) && PhaseTrue(st, t)
  }

  lemma OtherKeepsIndices(st: State, step: Step, u: nat)
    requires Inv(st) && Enabled(st, step) && u < |st.threads| && u != step.t
    ensures IndicesTrue(Apply(st, step), u) && PhaseTrue(Apply(st, step), u)
  {
    var th, st' := st.threads[u], Apply(st, step);
    assert IndicesTrue(st, u) && PhaseTrue(st, u);
    if st'.log != st.log {
      var e := st'.log[|st.log|];
      assert st'.log == st.log + [e] && e.t == step.t;
      forall i | 0 <= i < th.index ensures Delivered(st'.log, u, i) {
        DeliveredGrows(st.log, e, u, i);
      }
      forall i | th.index <= i < th.pending ensures WrittenNow(st'.log, u, i) {
        WrittenGrows(st.log, e, u, i);
      }
    }
  }

  lemma OwnKeepsPhase(st: State, step: Step)
    requires Inv(st) && Enabled(st, step)
    ensures PhaseTrue(Apply(st, step), step.t)
  {
    assert PhaseTrue(st, step.t) && IndicesTrue(st, step.t);
  }

  lemma OwnKeepsIndices(st: State, step: Step)
    requires Inv(st) && Enabled(st, step)
    ensures IndicesTrue(Apply(st, step), step.t)
  {
    var t := step.t;
    var th, th', st' := st.threads[t], ThreadAfter(st, step), Apply(st, step);
    assert IndicesTrue(st, t);
    if st'.log != st.log {
      var e := st'.log[|st.log|];
      assert st'.log == st.log + [e];
      forall i | 0 <= i < th'.index ensures Delivered(st'.log, t, i) {
        if i < th.index {
          DeliveredGrows(st.log, e, t, i);
        } else {
          ConfirmingDelivers(st.log, t, i);
        }
      }
      forall i | th'.index <= i < th'.pending ensures WrittenNow(st'.log, t, i) {
        WritingIsWritten(st.log, t, th.index, th.index + th.toSend, i);
      }
    }
  }

  lemma StepKeepsInv(st: State, step: Step)
    requires Inv(st) && Enabled(st, step)
    ensures Inv(Apply(st, step))
  {
    OwnKeepsPhase(st, step);
    OwnKeepsIndices(st, step);
    forall u | 0 <= u < |st.threads| && u != step.t
      ensures IndicesTrue(Apply(st, step), u) && PhaseTrue(Apply(st, step), u)
    {
      OtherKeepsIndices(st, step, u);
    }
  }

  lemma {:induction false} RunKeepsInv(run: seq<State>, k: nat)
    requires IsRun(run) && k < |run|
    ensures Inv(run[k])
  {
    if k > 0 {
      RunKeepsInv(run, k - 1);
      assert Next(run[k - 1], run[k - 1 + 1]);
      var step :| Enabled(run[k - 1], step) && run[k] == Apply(run[k - 1], step);
      StepKeepsInv(run[k - 1], step);
    }
  }

  // ---- the promises

  /**
   In every run, when a thread is allowed to send DONE: every published checkpoint, including that of each thread
   that gave up, has been written to this thread's sender and confirmed by a later command on the same connection.
   */
  lemma DoneOnlyAfterDelivery(run: seq<State>, k: nat, t: nat)
    requires IsRun(run) && k < |run| && Enabled(run[k], FindQuiet(t))
    ensures forall i :: 0 <= i < |run[k].checkpoints| ==> Delivered(run[k].log, t, i)
    ensures forall u :: 0 <= u < |run[k].threads| && run[k].threads[u].published.Some? ==>
              run[k].threads[u].published.value < |run[k].checkpoints|
  {
    RunKeepsInv(run, k);
    assert IndicesTrue(run[k], t);
    forall u | 0 <= u < |run[k].threads| && run[k].threads[u].published.Some?
      ensures run[k].threads[u].published.value < |run[k].checkpoints|
    {
      assert PhaseTrue(run[k], u);
    }
  }

  /** At that time another thread is at work exactly if its own DONE has failed and it has not waited since. */
  lemma DoneOnlyWhenOthersQuiet(run: seq<State>, k: nat, t: nat, u: nat)
    requires IsRun(run) && k < |run| && Enabled(run[k], FindQuiet(t)) && u < |run[k].threads| && u != t
    ensures !WaitsOrEnds(run[k].threads[u].phase) <==> run[k].threads[u].doneFailed
  {
    RunKeepsInv(run, k);
    assert PhaseTrue(run[k], u);
  }

  /**
   This happens: a thread whose DONE did not get through goes back to reading blocks while it counts as finished, so
   another thread may send DONE beside it.
   */
  lemma DoneBesideReader() returns (run: seq<State>)
    ensures IsRun(run)
    ensures var st := run[|run| - 1]; |st.threads| == 2 && st.threads[0].phase == Reading && Enabled(st, FindQuiet(1))
  {
    var log := [Confirmed(0), Confirmed(1)];
    var waiting, allowed := NewThread(Waiting, AwaitingOthers), Thread(Finished, SendingDone, 0, 0, 0, false, None);
    run := BothWait();
    run := Extend(run, FindQuiet(0), State([allowed, waiting], [], log));
    run := Extend(run, DoneFailed(0), State([allowed.(phase := Accepting, doneFailed := true), waiting], [], log));
    run := Extend(run, Accept(0),
                  State([allowed.(phase := Reading, doneFailed := true), waiting], [], log + [Reconnected(0)]));
  }

  lemma BothWait() returns (run: seq<State>)
    ensures IsRun(run)
    ensures run[|run| - 1] == State([NewThread(Waiting, AwaitingOthers), NewThread(Waiting, AwaitingOthers)], [],
                                    [Confirmed(0), Confirmed(1)])
  {
    var reading, done := NewThread(Running, Reading), NewThread(Running, DoneRead);
    var waiting := NewThread(Waiting, AwaitingOthers);
    var log := [Confirmed(0), Confirmed(1)];
    run := [State([reading, reading], [], [])];
    run := Extend(run, ReadDone(0), State([done, reading], [], [Confirmed(0)]));
    run := Extend(run, ReadDone(1), State([done, done], [], log));
    run := Extend(run, StartWaiting(0), State([waiting, done], [], log));
    run := Extend(run, StartWaiting(1), State([waiting, waiting], [], log));
  }

  function NewThread(status: Status, phase: Phase): Thread {
    Thread(status, phase, 0, 0, 0, false, None)
  }

  lemma Extend(run: seq<State>, step: Step, st: State) returns (run': seq<State>)
    requires IsRun(run) && Enabled(run[|run| - 1], step) && st == Apply(run[|run| - 1], step)
    ensures IsRun(run') && run' == run + [st]
  {
    run' := run + [st];
    assert Next(run[|run| - 1], st);
    forall i | 0 <= i < |run'| - 1 ensures Next(run'[i], run'[i + 1]) {
      if i < |run| - 1 {
        assert Next(run[i], run[i + 1]);
      }
    }
  }
}
