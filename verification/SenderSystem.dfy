/**
 N sender threads sharing one queue, as a step system: every step is one critical section of the program, so a
 run is any interleaving.  Checkpoints come from outside and may be arbitrary, as long as the bytes they vouch
 for stay inside the block they are credited to.
 */
module SenderSystem {
  import opened Options
  import opened Sources
  import opened TransferHistory

  /** Where the thread's current source is: being opened, on the wire, counted on the thread, counted on both. */
  datatype Slot = Idle | Opening(s: Source) | Sending(s: Source) | Booked(s: Source, d: Stats) | Sent(s: Source)

  datatype Thread = Thread(slot: Slot, hist: History, stats: Stats)

  /** `enqueued` and `credited` are logs of the ranges ever enqueued and ever credited. */
  datatype State = State(queue: seq<Source>, dequeued: int, failed: seq<Source>, threads: seq<Thread>,
                         enqueued: seq<Range>, credited: seq<Range>)

  datatype Step =
    | Discover(s: Source)
    | Pop(t: nat, i: nat)
    | OpenOk(t: nat)
    | OpenFailed(t: nat)
    | FinishSend(t: nat, d: Stats)
    | Book(t: nat)
    | Add(t: nat)
    | LocalCk(t: nat, ck: Checkpoint)
    | GlobalCk(t: nat, ck: Checkpoint)
    | AckAll(t: nat)
    | ReturnUnacked(t: nat)

  predicate Init(st: State) {
    && st.queue == [] && st.failed == [] && st.dequeued == 0 && st.enqueued == [] && st.credited == []
    && forall t :: 0 <= t < |st.threads| ==> st.threads[t] == Thread(Idle, EMPTY, NO_STATS)
  }

  /** What sending one block can add to the counters: all of it, or a failure with some bytes out. */
  predicate SendResult(s: Source, d: Stats) {
    if d.ok then d.blocks == 1 && d.failed == 0 && d.data == s.size && d.effData == s.size
    else d.blocks == 0 && d.failed == 1 && 0 <= d.data <= s.size && d.effData == 0 && d.effHeader == 0
  }

  /** The applied checkpoint carries a seq-id and stays within the first unacknowledged block. */
  predicate CkInside(h: History, ck: Checkpoint) {
    && ck.hasSeqId
    && (ck.numBlocks < |h.sources| ==> Fits(h.sources[ck.numBlocks], Some(ck)))
  }

  /** The program can be at this point; nothing is said about what a checkpoint contains. */
  predicate Possible(st: State, step: Step) {
    if step.Discover? then
      var s := step.s;
      s.size >= 0 && s.offset >= 0 && s == NewSource(s.meta, s.size, s.offset)
      && (s.meta.allocation == ToBeDeleted ==> s.size == 0)
    else
      && step.t < |st.threads|
      && var th := st.threads[step.t];
         match step
         case Pop(_, i) => th.slot.Idle? && i < |st.queue|
         case OpenOk(_) => th.slot.Opening?
         case OpenFailed(_) => th.slot.Opening? && th.slot.s.meta.allocation != ToBeDeleted
         case FinishSend(_, d) => th.slot.Sending? && SendResult(th.slot.s, d)
         case Book(_) => th.slot.Booked?
         case Add(_) => th.slot.Sent?
         case LocalCk(_, ck) => th.slot.Idle?
         case _ => true
  }

  predicate Enabled(st: State, step: Step) {
    && Possible(st, step)
    && match step
       case Add(t) => st.threads[t].hist.global ==> Fits(st.threads[t].slot.s, st.threads[t].hist.last)
       case LocalCk(t, ck) => CkInside(st.threads[t].hist, ck)
       case GlobalCk(t, ck) => CkInside(st.threads[t].hist, ck)
       case _ => true
  }

  function SetThread(st: State, t: nat, th: Thread): State
    requires t < |st.threads|
  {
    st.(threads := st.threads[t := th])
  }

  /** Truncating the history of thread `t` to a checkpoint, whoever runs it. */
  function ApplyCk(st: State, t: nat, ck: Checkpoint, global: bool): State
    requires t < |st.threads|
  {
    var th := st.threads[t];
    var back := Returned(th.hist, ck, global);
    SetThread(st, t, th.(hist := AfterCheckpoint(th.hist, ck, global),
                         stats := StatsAfterCheckpoint(th.stats, th.hist, ck, global)))
    .(queue := st.queue + back, dequeued := st.dequeued - |back|,
      credited := st.credited + CreditedBy(th.hist, ck, global))
  }

  function Apply(st: State, step: Step): State
    requires Possible(st, step)
  {
    if step.Discover? then
      st.(queue := st.queue + [step.s],
          enqueued := st.enqueued + [Range(step.s.meta.seqId, step.s.offset, step.s.offset + step.s.size)])
    else
      var th := st.threads[step.t];
      match step
      case Pop(t, i) =>
        SetThread(st, t, th.(slot := Opening(st.queue[i]))).(queue := st.queue[..i] + st.queue[i + 1..])
      case OpenOk(t) =>
        SetThread(st, t, th.(slot := Sending(th.slot.s.Opened()))).(dequeued := st.dequeued + 1)
      case OpenFailed(t) =>
        SetThread(st, t, th.(slot := Idle)).(failed := st.failed + [th.slot.s.(stats := th.slot.s.stats.(ok := false))])
      case FinishSend(t, d) =>
        SetThread(st, t, th.(slot := Booked(th.slot.s, d), stats := th.stats.Plus(d)))
      case Book(t) =>
        SetThread(st, t, th.(slot := Sent(th.slot.s.(stats := th.slot.s.stats.Plus(th.slot.d)))))
      case Add(t) =>
        var s := th.slot.s;
        var next := th.(slot := Idle, hist := AfterAdd(th.hist, s));
        if !th.hist.global then SetThread(st, t, next)
        else SetThread(st, t, next.(stats := ThreadAfter(th.stats, s, th.hist.last)))
             .(queue := st.queue + [MarkFailed(s, th.hist.last)], dequeued := st.dequeued - 1,
               credited := st.credited + [CreditedRange(s, th.hist.last)])
      case LocalCk(t, ck) => ApplyCk(st, t, ck, false)
      case GlobalCk(t, ck) => ApplyCk(st, t, ck, true)
      case AckAll(t) => SetThread(st, t, th.(hist := th.hist.(acked := |th.hist.sources|)))
      case ReturnUnacked(t) => ApplyCk(st, t, UnackedCheckpoint(th.hist), false)
  }

  ghost predicate Next(st: State, st': State) {
    exists step :: Enabled(st, step) && st' == Apply(st, step)
  }

  ghost predicate IsRun(run: seq<State>) {
    && run != [] && Init(run[0])
    && forall i :: 0 <= i < |run| - 1 ==> Next(run[i], run[i + 1])
  }

  // ---- sums over threads

  /** What is added up over threads: what the thread holds, what is on its books, and its handed-out sources. */
  datatype PerThread = Holds(m: Measure) | Books(m: Measure) | HandedOut

  function SlotValue(m: Measure, slot: Slot): int {
    match slot
    case Idle => 0
    case Booked(s, d) => SourceValue(m, s) + (if Audited(m) then StatsValue(m, d) else 0)
    case _ => SourceValue(m, slot.s)
  }

  function ThreadValue(p: PerThread, th: Thread): int
  {
    match p
    case Holds(m) => SlotValue(m, th.slot) + Sum(m, th.hist.sources)
    case Books(m) => if Audited(m) then StatsValue(m, th.stats) else 0
    case HandedOut => |th.hist.sources| + (if th.slot.Idle? || th.slot.Opening? then 0 else 1)
  }

  function Total(p: PerThread, ths: seq<Thread>): int {
    if ths == [] then 0 else Total(p, ths[..|ths| - 1]) + ThreadValue(p, ths[|ths| - 1])
  }

  lemma {:induction false} TotalUpdate(p: PerThread, ths: seq<Thread>, t: nat, th: Thread)
    requires t < |ths|
    ensures Total(p, ths[t := th]) == Total(p, ths) - ThreadValue(p, ths[t]) + ThreadValue(p, th)
  {
    var n := |ths| - 1;
    if t == n {
      assert ths[t := th][..n] == ths[..n];
    } else {
      assert ths[t := th][..n] == ths[..n][t := th];
      TotalUpdate(p, ths[..n], t, th);
    }
  }

  function Held(m: Measure, st: State): int {
    Sum(m, st.queue) + Sum(m, st.failed) + Total(Holds(m), st.threads)
  }

  /** Counters agree between sources and threads; every enqueued position is owed or credited. */
  predicate Balanced(m: Measure, st: State) {
    match m
    case Owed(seqId, pos) => Held(m, st) + Times(st.credited, seqId, pos) == Times(st.enqueued, seqId, pos)
    case _ => Held(m, st) == Total(Books(m), st.threads)
  }

  predicate DequeuedExact(st: State) {
    st.dequeued == Total(HandedOut, st.threads)
  }

  // ---- what every single source keeps

  /** A source outside the histories: its effective bytes are exactly the credited ones. */
  predicate AtRest(s: Source) {
    s.size >= 0 && s.offset >= s.start && (s.meta.allocation == ToBeDeleted ==> s.size == 0)
    && s.stats.effData == s.offset - s.start
  }

  /** A sent source: on top of the credited bytes, its current size counts as effective if it was sent OK. */
  predicate Accounted(s: Source) {
    s.size >= 0 && s.offset >= s.start && (s.meta.allocation == ToBeDeleted ==> s.size == 0)
    && s.stats.effData == s.offset - s.start + (if s.stats.ok then s.size else 0)
  }

  predicate SlotOk(slot: Slot) {
    match slot
    case Idle => true
    case Opening(s) => AtRest(s)
    case Sending(s) => AtRest(s) && (s.meta.allocation != ToBeDeleted ==> s.stats.ok)
    case Booked(s, d) => AtRest(s) && SendResult(s, d) && (s.meta.allocation != ToBeDeleted ==> s.stats.ok)
    case Sent(s) => Accounted(s)
  }

  predicate SourcesOk(st: State) {
    && (forall i :: 0 <= i < |st.queue| ==> AtRest(st.queue[i]))
    && (forall i :: 0 <= i < |st.failed| ==> AtRest(st.failed[i]))
    && (forall t :: 0 <= t < |st.threads| ==>
                      SlotOk(st.threads[t].slot)
                      && forall k :: 0 <= k < |st.threads[t].hist.sources| ==> Accounted(st.threads[t].hist.sources[k]))
  }

  lemma BalancedInit(m: Measure, st: State)
    requires Init(st)
    ensures Balanced(m, st) && DequeuedExact(st)
  {
    TotalInit(Holds(m), st.threads);
    TotalInit(Books(m), st.threads);
    TotalInit(HandedOut, st.threads);
  }

  lemma {:induction false} TotalInit(p: PerThread, ths: seq<Thread>)
    requires forall t :: 0 <= t < |ths| ==> ths[t] == Thread(Idle, EMPTY, NO_STATS)
    ensures Total(p, ths) == 0
  {
    if ths != [] {
      TotalInit(p, ths[..|ths| - 1]);
    }
  }

  /** Every step keeps every measure balanced. */
  lemma StepBalances(m: Measure, st: State, step: Step)
    requires Enabled(st, step) && Balanced(m, st)
    requires SourcesOk(st)
    ensures Balanced(m, Apply(st, step))
  {
    match step
    case Discover(s) =>
      SumConcat(m, st.queue, [s]);
      SumOne(m, s);
      if m.Owed? {
        TimesOne(st.enqueued, Range(s.meta.seqId, s.offset, s.offset + s.size), m.seqId, m.pos);
      }
    case Pop(t, i) => PopBalances(m, st, t, i);
    case OpenFailed(t) => OpenFailedBalances(m, st, t);
    case Add(t) => AddBalances(m, st, t);
    case LocalCk(t, ck) => CkBalances(m, st, t, ck, false);
    case GlobalCk(t, ck) => CkBalances(m, st, t, ck, true);
    case ReturnUnacked(t) =>
      CkFitsUnacked(st, t);
      CkBalances(m, st, t, UnackedCheckpoint(st.threads[t].hist), false);
    case _ => SlotBalances(m, st, step);
  }

  lemma CkFitsUnacked(st: State, t: nat)
    requires t < |st.threads| && SourcesOk(st)
    ensures var h := st.threads[t].hist;
            h.acked < |h.sources| ==> Fits(h.sources[h.acked], Some(UnackedCheckpoint(h)))
  {
    var h := st.threads[t].hist;
    if h.acked < |h.sources| {
      assert Accounted(h.sources[h.acked]);
    }
  }

  /** A step of one thread balances if what it moves in and out of queue, slot and history adds up. */
  lemma MoveBalances(m: Measure, st: State, st': State, t: nat)
    requires t < |st.threads| && |st'.threads| == |st.threads|
    requires st'.threads == st.threads[t := st'.threads[t]] && st'.enqueued == st.enqueued
    requires Balanced(m, st)
    requires Sum(m, st'.queue) - Sum(m, st.queue) + Sum(m, st'.failed) - Sum(m, st.failed)
             + ThreadValue(Holds(m), st'.threads[t]) - ThreadValue(Holds(m), st.threads[t])
             == if m.Owed? then Times(st.credited, m.seqId, m.pos) - Times(st'.credited, m.seqId, m.pos)
                else ThreadValue(Books(m), st'.threads[t]) - ThreadValue(Books(m), st.threads[t])
    ensures Balanced(m, st')
  {
    TotalUpdate(Holds(m), st.threads, t, st'.threads[t]);
    TotalUpdate(Books(m), st.threads, t, st'.threads[t]);
  }

  lemma PopBalances(m: Measure, st: State, t: nat, i: nat)
    requires Enabled(st, Pop(t, i)) && Balanced(m, st)
    ensures Balanced(m, Apply(st, Pop(t, i)))
  {
    SumSplit(m, st.queue, i);
    MoveBalances(m, st, Apply(st, Pop(t, i)), t);
  }

  lemma OpenFailedBalances(m: Measure, st: State, t: nat)
    requires Enabled(st, OpenFailed(t)) && Balanced(m, st)
    ensures Balanced(m, Apply(st, OpenFailed(t)))
  {
    var s := st.threads[t].slot.s;
    var f := s.(stats := s.stats.(ok := false));
    SumConcat(m, st.failed, [f]);
    SumOne(m, f);
    MoveBalances(m, st, Apply(st, OpenFailed(t)), t);
  }

  /** The steps that only move a source along its slot. */
  lemma SlotBalances(m: Measure, st: State, step: Step)
    requires Enabled(st, step) && Balanced(m, st)
    requires step.OpenOk? || step.FinishSend? || step.Book? || step.AckAll?
    ensures Balanced(m, Apply(st, step))
  {
    var st' := Apply(st, step);
    var th, th' := st.threads[step.t], st'.threads[step.t];
    assert th'.hist.sources == th.hist.sources;
    assert SlotValue(m, th'.slot) - SlotValue(m, th.slot)
        == if m.Owed? then 0 else ThreadValue(Books(m), th') - ThreadValue(Books(m), th);
    assert st'.threads == st.threads[step.t := th'];
    MoveBalances(m, st, st', step.t);
  }

  lemma TimesOne(rs: seq<Range>, r: Range, seqId: nat, pos: int)
    ensures Times(rs + [r], seqId, pos) == Times(rs, seqId, pos) + RangeValue(r, seqId, pos)
  {
    assert (rs + [r])[..|rs|] == rs;
  }

  lemma AddBalances(m: Measure, st: State, t: nat)
    requires Enabled(st, Add(t)) && Balanced(m, st)
    ensures Balanced(m, Apply(st, Add(t)))
  {
    var th := st.threads[t];
    var s, ck := th.slot.s, th.hist.last;
    var st' := Apply(st, Add(t));
    if th.hist.global {
      MarkFailedBalances(th.stats, s, ck, m);
      SumConcat(m, st.queue, [MarkFailed(s, ck)]);
      SumOne(m, MarkFailed(s, ck));
      if m.Owed? {
        TimesOne(st.credited, CreditedRange(s, ck), m.seqId, m.pos);
      }
    } else {
      SumConcat(m, th.hist.sources, [s]);
      SumOne(m, s);
    }
    MoveBalances(m, st, st', t);
  }

  lemma CkBalances(m: Measure, st: State, t: nat, ck: Checkpoint, global: bool)
    requires t < |st.threads| && Balanced(m, st)
    requires var h := st.threads[t].hist;
             ck.numBlocks < |h.sources| ==> Fits(h.sources[ck.numBlocks], Some(ck))
    ensures Balanced(m, ApplyCk(st, t, ck, global))
  {
    var th := st.threads[t];
    CheckpointConserves(th.stats, th.hist, ck, global, m);
    SumConcat(m, st.queue, Returned(th.hist, ck, global));
    if m.Owed? {
      TimesConcat(st.credited, CreditedBy(th.hist, ck, global), m.seqId, m.pos);
    }
    MoveBalances(m, st, ApplyCk(st, t, ck, global), t);
  }

  /** The handed-out counter is exact after every step, so the check on returning a source never fires. */
  lemma StepCountsDequeued(st: State, step: Step)
    requires Enabled(st, step) && DequeuedExact(st)
    ensures DequeuedExact(Apply(st, step))
  {
    match step
    case Discover(_) =>
    case LocalCk(t, ck) => CkCountsDequeued(st, t, ck, false);
    case GlobalCk(t, ck) => CkCountsDequeued(st, t, ck, true);
    case ReturnUnacked(t) => CkCountsDequeued(st, t, UnackedCheckpoint(st.threads[t].hist), false);
    case _ =>
      TotalUpdate(HandedOut, st.threads, step.t, Apply(st, step).threads[step.t]);
  }

  lemma CkCountsDequeued(st: State, t: nat, ck: Checkpoint, global: bool)
    requires t < |st.threads| && DequeuedExact(st)
    ensures DequeuedExact(ApplyCk(st, t, ck, global))
  {
    var h := st.threads[t].hist;
    TotalUpdate(HandedOut, st.threads, t, ApplyCk(st, t, ck, global).threads[t]);
    if ck.numBlocks <= |h.sources| {
      FailTailLength(h.sources, ck.numBlocks, ck);
    }
  }

  lemma {:induction false} HandedOutBound(ths: seq<Thread>, t: nat)
    requires t < |ths|
    ensures Total(HandedOut, ths) >= ThreadValue(HandedOut, ths[t])
    ensures Total(HandedOut, ths) >= 0
  {
    var n := |ths| - 1;
    if n > 0 {
      HandedOutBound(ths[..n], if t < n then t else 0);
    }
  }

  lemma FailTailAtRest(h: seq<Source>, n: nat, ck: Checkpoint)
    requires n <= |h| && forall k :: 0 <= k < |h| ==> Accounted(h[k])
    requires n < |h| ==> Fits(h[n], Some(ck))
    ensures forall k :: 0 <= k < |FailTail(h, n, ck)| ==> AtRest(FailTail(h, n, ck)[k])
  {
    FailTailLength(h, n, ck);
    forall k | 0 <= k < |h| - n
      ensures AtRest(FailTail(h, n, ck)[k])
    {
      assert Accounted(h[|h| - 1 - k]);
    }
  }

  lemma StepKeepsSources(st: State, step: Step)
    requires Enabled(st, step) && SourcesOk(st)
    ensures SourcesOk(Apply(st, step))
  {
    match step
    case LocalCk(t, ck) => CkKeepsSources(st, t, ck, false);
    case GlobalCk(t, ck) => CkKeepsSources(st, t, ck, true);
    case ReturnUnacked(t) =>
      CkFitsUnacked(st, t);
      CkKeepsSources(st, t, UnackedCheckpoint(st.threads[t].hist), false);
    case Discover(_) =>
    case _ => SlotStepKeepsSources(st, step);
  }

  lemma SlotStepKeepsSources(st: State, step: Step)
    requires Enabled(st, step) && SourcesOk(st)
    requires !step.Discover? && !step.LocalCk? && !step.GlobalCk? && !step.ReturnUnacked?
    ensures SourcesOk(Apply(st, step))
  {
    var st' := Apply(st, step);
    assert forall u :: 0 <= u < |st'.threads| && u != step.t ==> st'.threads[u] == st.threads[u];
  }

  lemma CkKeepsSources(st: State, t: nat, ck: Checkpoint, global: bool)
    requires t < |st.threads| && SourcesOk(st)
    requires var h := st.threads[t].hist;
             ck.numBlocks < |h.sources| ==> Fits(h.sources[ck.numBlocks], Some(ck))
    ensures SourcesOk(ApplyCk(st, t, ck, global))
  {
    var h := st.threads[t].hist;
    if CheckpointStatus(h, ck, global) != InvalidCheckpoint {
      FailTailAtRest(h.sources, ck.numBlocks, ck);
    }
    var st' := ApplyCk(st, t, ck, global);
    assert forall u :: 0 <= u < |st'.threads| && u != t ==> st'.threads[u] == st.threads[u];
  }

  // ---- whole runs

  ghost predicate Inv(st: State) {
    && SourcesOk(st) && DequeuedExact(st)
    && forall m :: Balanced(m, st)
  }

  lemma StepKeepsInv(st: State, step: Step)
    requires Inv(st) && Enabled(st, step)
    ensures Inv(Apply(st, step))
  {
    StepKeepsSources(st, step);
    StepCountsDequeued(st, step);
    forall m ensures Balanced(m, Apply(st, step)) {
      StepBalances(m, st, step);
    }
  }

  lemma {:induction false} RunKeepsInv(run: seq<State>, i: nat)
    requires IsRun(run) && i < |run|
    ensures Inv(run[i])
  {
    if i == 0 {
      forall m ensures Balanced(m, run[0]) {
        BalancedInit(m, run[0]);
      }
      BalancedInit(DataBytes, run[0]);
    } else {
      RunKeepsInv(run, i - 1);
      assert Next(run[i - 1], run[i - 1 + 1]);
      var step :| Enabled(run[i - 1], step) && run[i] == Apply(run[i - 1], step);
      StepKeepsInv(run[i - 1], step);
    }
  }

  /** The four sums that the final report compares are equal in every state of every run. */
  lemma AuditNeverFails(run: seq<State>, i: nat, m: Measure)
    requires IsRun(run) && i < |run| && Audited(m)
    ensures Held(m, run[i]) == Total(Books(m), run[i].threads)
  {
    RunKeepsInv(run, i);
    assert Balanced(m, run[i]);
  }

  /** Credited ranges together with what is still held partition what was enqueued. */
  lemma RangesPartition(run: seq<State>, i: nat, seqId: nat, pos: int)
    requires IsRun(run) && i < |run|
    ensures Times(run[i].credited, seqId, pos) + Held(Owed(seqId, pos), run[i]) == Times(run[i].enqueued, seqId, pos)
  {
    RunKeepsInv(run, i);
    assert Balanced(Owed(seqId, pos), run[i]);
  }

  lemma {:induction false} TotalOwed(ths: seq<Thread>, seqId: nat, pos: int)
    ensures Total(Holds(Owed(seqId, pos)), ths) >= 0
  {
    if ths != [] {
      TotalOwed(ths[..|ths| - 1], seqId, pos);
      SumOwed(ths[|ths| - 1].hist.sources, seqId, pos);
    }
  }

  /** However often checkpoints are repeated, no position is credited more often than it was enqueued. */
  lemma NeverCreditedTwice(run: seq<State>, i: nat, seqId: nat, pos: int)
    requires IsRun(run) && i < |run|
    ensures Times(run[i].credited, seqId, pos) <= Times(run[i].enqueued, seqId, pos)
  {
    RangesPartition(run, i, seqId, pos);
    SumOwed(run[i].queue, seqId, pos);
    SumOwed(run[i].failed, seqId, pos);
    TotalOwed(run[i].threads, seqId, pos);
  }

  /** Whatever a thread is about to return, the counter covers it: the check in the queue holds. */
  lemma ReturnCheckHolds(run: seq<State>, i: nat, t: nat)
    requires IsRun(run) && i < |run| && t < |run[i].threads|
    ensures run[i].dequeued >= |run[i].threads[t].hist.sources|
    ensures run[i].threads[t].slot.Sent? ==> run[i].dequeued > |run[i].threads[t].hist.sources|
  {
    RunKeepsInv(run, i);
    HandedOutBound(run[i].threads, t);
  }
}
