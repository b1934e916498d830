/**
 How sender threads agree on another protocol version.  When a receiver reports a mismatch, all threads meet at a
 barrier, one of them goes through a funnel and picks the version, and the others follow its decision.
 */
module VersionNegotiation {
  import opened Options

  datatype Negotiation = Undecided | Resolved | Failed

  datatype FunnelStatus = Start | Progress | End

  /**
   Active threads transfer data.  Entering to Waiting is the way through the barrier, Past and FunnelWait the loop at
   the funnel, Leading to Announcing the way of the one thread that passes it first.  Leaving threads are done but
   still registered.
   */
  datatype Phase = Active | Entering | AtBarrier | Waiting | Past | FunnelWait | Leading | Judging | Announcing
    | Leaving | Gone

  /**
   `negotiated` is the version the receiver offered, or -1; `hit` and `left` remember the barrier and the way back.
   */
  datatype Thread = Thread(phase: Phase, version: int, negotiated: int, hit: bool, left: bool)

  /** `refused` tells whether some offer was not one the sender can take; `leaders` lists those who led. */
  datatype State = State(threads: seq<Thread>, negotiation: Negotiation, version: int, aborted: bool,
                         numThreads: int, numHits: int, isComplete: bool, funnel: FunnelStatus,
                         refused: bool, leaders: seq<nat>)

  datatype Step =
    | Offered(t: nat, offer: int)
    | SeeAbort(t: nat)
    | Finish(t: nat)
    | CheckStatus(t: nat)
    | Hit(t: nat)
    | Release(t: nat)
    | Deregister(t: nat)
    | GetStatus(t: nat)
    | Wake(t: nat)
    | MarkFailed(t: nat)
    | Judge(t: nat, historyOk: bool)
    | Announce(t: nat)

  /** The version both ends support, or 0 if the requested one is too old. */
  function NegotiateProtocol(requested: int, current: int): int {
    if requested < 10 then 0 else if current < requested then current else requested
  }

  predicate Supports(current: int, offer: int) {
    NegotiateProtocol(offer, current) == offer
  }

  predicate Init(st: State, version: int) {
    && st.threads != []
    && st == State(st.threads, Undecided, version, false, |st.threads|, 0, false, Start, false, [])
    && forall t :: 0 <= t < |st.threads| ==> st.threads[t] == Thread(Active, version, -1, false, false)
  }

  predicate Enabled(st: State, step: Step) {
    && step.t < |st.threads|
    && var p := st.threads[step.t].phase;
       match step
       case Offered(_, _) => p == Active
       case SeeAbort(_) => p == Active && st.aborted
       case Finish(_) => p == Active
       case CheckStatus(_) => p == Entering
       case Hit(_) => p == AtBarrier
       case Release(_) => p == Waiting && st.isComplete
       case Deregister(_) => p == Leaving
       case GetStatus(_) => p == Past
       case Wake(_) => p == FunnelWait
       case MarkFailed(_) => p == Leading
       case Judge(_, historyOk) => p == Judging && (historyOk && Agree(st.threads) ==> Offer(st.threads) > 0)
       case Announce(_) => p == Announcing
  }

  // ---- the leader's judgement

  /** All threads that were offered a version were offered the same. */
  predicate Agree(ths: seq<Thread>) {
    forall i, j :: 0 <= i < |ths| && 0 <= j < |ths| && ths[i].negotiated > 0 && ths[j].negotiated > 0 ==>
      ths[i].negotiated == ths[j].negotiated
  }

  /** The last offered version, or 0. */
  function Offer(ths: seq<Thread>): int {
    if ths == [] then 0
    else if ths[|ths| - 1].negotiated > 0 then ths[|ths| - 1].negotiated
    else Offer(ths[..|ths| - 1])
  }

  /** The loop over the threads' offers: 0 if there is none, nothing if two differ. */
  method PickVersion(ths: seq<Thread>) returns (version: Option<int>)
    ensures version.Some? <==> Agree(ths)
    ensures version.Some? ==> version.value == Offer(ths)
  {
    var picked := 0;
    for i := 0 to |ths|
      invariant Agree(ths[..i]) && picked == Offer(ths[..i]) && picked >= 0
      invariant forall j :: 0 <= j < i && ths[j].negotiated > 0 ==> ths[j].negotiated == picked
    {
      assert ths[..i + 1][..i] == ths[..i];
      if ths[i].negotiated > 0 {
        if picked > 0 && picked != ths[i].negotiated {
          var j :| 0 <= j < i && ths[j].negotiated == picked by { OfferIsSomeones(ths[..i]); }
          assert ths[j].negotiated > 0 && ths[i].negotiated > 0;
          return None;
        }
        picked := ths[i].negotiated;
      }
    }
    assert ths[..|ths|] == ths;
    return Some(picked);
  }

  lemma {:induction false} OfferIsSomeones(ths: seq<Thread>)
    ensures Offer(ths) >= 0
    ensures Offer(ths) > 0 <==> exists j :: 0 <= j < |ths| && ths[j].negotiated > 0
    ensures Offer(ths) > 0 ==> exists j :: 0 <= j < |ths| && ths[j].negotiated == Offer(ths)
  {
    if ths != [] {
      var n := |ths| - 1;
      OfferIsSomeones(ths[..n]);
      if ths[n].negotiated <= 0 && Offer(ths[..n]) > 0 {
        var j :| 0 <= j < n && ths[..n][j].negotiated == Offer(ths[..n]);
        assert ths[j].negotiated == Offer(ths);
      }
      if exists j :: 0 <= j < |ths| && ths[j].negotiated > 0 {
        var j :| 0 <= j < |ths| && ths[j].negotiated > 0;
        assert j < n ==> ths[..n][j].negotiated > 0;
      }
    }
  }

  // ---- steps

  function ThreadAfter(st: State, step: Step): Thread
    requires Enabled(st, step)
  {
    var th := st.threads[step.t];
    match step
    case Offered(_, offer) =>
      if Supports(th.version, offer) then th.(phase := Entering, negotiated := offer) else th.(phase := Leaving)
    case SeeAbort(_) => th.(phase := Entering)
    case Finish(_) => th.(phase := Leaving)
    case CheckStatus(_) => th.(phase := if st.negotiation == Undecided then AtBarrier else Leaving)
    case Hit(_) => th.(phase := if st.numHits + 1 == st.numThreads then Past else Waiting, hit := true)
    case Release(_) => th.(phase := Past)
    case Deregister(_) => th.(phase := Gone)
    case GetStatus(_) =>
      (match st.funnel
       case Start => th.(phase := Leading)
       case Progress => th.(phase := FunnelWait)
       case End => if st.negotiation == Resolved then th.(phase := Active, version := st.version, left := true)
                   else th.(phase := Leaving))
    case Wake(_) => th.(phase := Past)
    case MarkFailed(_) => th.(phase := Judging)
    case Judge(_, historyOk) =>
      th.(phase := Announcing, version := if historyOk && Agree(st.threads) then Offer(st.threads) else th.version)
    case Announce(_) =>
      if st.negotiation == Resolved then th.(phase := Active, left := true) else th.(phase := Leaving)
  }

  function Apply(st: State, step: Step): State
    requires Enabled(st, step)
  {
    var st' := st.(threads := st.threads[step.t := ThreadAfter(st, step)]);
    match step
    case Offered(t, offer) =>
      st'.(aborted := true, refused := st.refused || offer <= 0 || !Supports(st.threads[t].version, offer))
    case Hit(_) => st'.(numHits := st.numHits + 1, isComplete := st.isComplete || st.numHits + 1 == st.numThreads)
    case Deregister(_) =>
      if st.isComplete then st'
      else st'.(numThreads := st.numThreads - 1, isComplete := st.numHits == st.numThreads - 1)
    case GetStatus(_) => if st.funnel == Start then st'.(funnel := Progress, leaders := st.leaders + [step.t]) else st'
    case MarkFailed(_) => st'.(negotiation := Failed)
    case Judge(_, historyOk) =>
      if historyOk && Agree(st.threads) then
        st'.(negotiation := Resolved, version := Offer(st.threads), aborted := false)
      else st'
    case Announce(_) => st'.(funnel := End)
    case _ => st'
  }

  ghost predicate Next(st: State, st': State) {
    exists step :: Enabled(st, step) && st' == Apply(st, step)
  }

  ghost predicate IsRun(run: seq<State>, version: int) {
    && run != [] && Init(run[0], version)
    && forall i :: 0 <= i < |run| - 1 ==> Next(run[i], run[i + 1])
  }

  // ---- counting threads

  datatype What = Hits | Live

  function Weight(what: What, th: Thread): nat {
    match what
    case Hits => if th.hit then 1 else 0
    case Live => if th.phase != Gone then 1 else 0
  }

  function Tally(what: What, ths: seq<Thread>): nat {
    if ths == [] then 0 else Tally(what, ths[..|ths| - 1]) + Weight(what, ths[|ths| - 1])
  }

  lemma {:induction false} TallyUpdate(what: What, ths: seq<Thread>, t: nat, th: Thread)
    requires t < |ths|
    ensures Tally(what, ths[t := th]) == Tally(what, ths) - Weight(what, ths[t]) + Weight(what, th)
  {
    var n := |ths| - 1;
    if t == n {
      assert ths[t := th][..n] == ths[..n];
    } else {
      assert ths[t := th][..n] == ths[..n][t := th];
      TallyUpdate(what, ths[..n], t, th);
    }
  }

  /** As many hits as live threads: every live thread has hit. */
  lemma {:induction false} TallyEqual(ths: seq<Thread>)
    requires forall t :: 0 <= t < |ths| && ths[t].hit ==> ths[t].phase != Gone
    ensures Tally(Hits, ths) <= Tally(Live, ths)
    ensures Tally(Hits, ths) == Tally(Live, ths) <==> forall t :: 0 <= t < |ths| && ths[t].phase != Gone ==> ths[t].hit
  {
    if ths != [] {
      var n := |ths| - 1;
      assert forall t :: 0 <= t < n ==> ths[..n][t] == ths[t];
      TallyEqual(ths[..n]);
    }
  }

  // ---- the invariant

  predicate Leads(p: Phase) {
    p in {Leading, Judging, Announcing}
  }

  /** On the way through the barrier and the funnel. */
  predicate InMismatch(p: Phase) {
    p in {Entering, AtBarrier, Waiting, Past, FunnelWait, Leading, Judging}
  }

  /** Before the barrier opens: nobody is behind it, and who has hit it waits. */
  predicate EarlyOk(st: State, th: Thread) {
    th.phase in {Active, Entering, AtBarrier, Waiting, Leaving, Gone} && (th.hit <==> th.phase == Waiting) && !th.left
  }

  /** Until the decision is announced nobody is outside. */
  predicate MeetingOk(st: State, t: nat)
    requires t < |st.threads|
  {
    var th := st.threads[t];
    && (th.phase in {Waiting, Past, FunnelWait, Gone} || Leads(th.phase)) && !th.left
    && (Leads(th.phase) <==> |st.leaders| == 1 && st.leaders[0] == t)
    && (th.phase == Leading ==> st.negotiation == Undecided)
    && (th.phase == Judging ==> st.negotiation == Failed)
    && (th.phase == Announcing ==>
        st.negotiation != Undecided && (st.negotiation == Resolved ==> th.version == st.version))
  }

  /** Afterwards nobody comes to the barrier, and who went back to work has the version that was picked. */
  predicate LateOk(st: State, th: Thread) {
    && th.phase != AtBarrier && !Leads(th.phase)
    && (th.phase in {Active, Entering} ==> th.left && st.negotiation == Resolved)
    && (th.left ==> th.version == st.version)
  }

  predicate ThreadOk(st: State, t: nat)
    requires t < |st.threads|
  {
    var th := st.threads[t];
    && (InMismatch(th.phase) && st.negotiation != Resolved ==> st.aborted)
    && (!st.isComplete ==> EarlyOk(st, th))
    && (st.isComplete && st.funnel != End ==> MeetingOk(st, t))
    && (st.isComplete ==> th.hit || th.phase == Gone)
    && (st.funnel == End ==> LateOk(st, th))
  }

  predicate CountsOk(st: State) {
    !st.isComplete ==> st.numHits == Tally(Hits, st.threads) && st.numThreads == Tally(Live, st.threads)
                       && st.numHits != st.numThreads
  }

  predicate SharedOk(st: State) {
    && (!st.isComplete ==> st.funnel == Start)
    && (st.funnel == Start ==> st.negotiation == Undecided && st.leaders == [])
    && (st.funnel != Start ==> |st.leaders| == 1)
    && (st.funnel == End ==> st.negotiation != Undecided)
  }

  predicate OfferOk(st: State) {
    st.aborted && !st.refused && st.negotiation != Resolved ==> Offer(st.threads) > 0
  }

  ghost predicate Inv(st: State) {
    (forall t :: 0 <= t < |st.threads| ==> ThreadOk(st, t)) && CountsOk(st) && SharedOk(st) && OfferOk(st)
  }

  // ---- every step keeps it

  /** The barrier opens when the last thread that has not hit it does so, or goes. */
  lemma OpensWhenAllHit(ths: seq<Thread>, t: nat, u: nat)
    requires t < |ths| && u < |ths| && u != t
    requires forall v :: 0 <= v < |ths| && v != t && ths[v].hit ==> ths[v].phase != Gone
    requires ths[t].hit ==> ths[t].phase != Gone
    requires Tally(Hits, ths) == Tally(Live, ths)
    ensures ths[u].hit || ths[u].phase == Gone
  {
    TallyEqual(ths);
  }

  lemma HitOpens(st: State, t: nat, u: nat)
    requires Inv(st) && Enabled(st, Hit(t)) && !st.isComplete && st.numHits + 1 == st.numThreads && u < |st.threads|
    requires u != t
    ensures st.threads[u].phase in {Waiting, Gone}
  {
    var ths' := st.threads[t := ThreadAfter(st, Hit(t))];
    TallyUpdate(Hits, st.threads, t, ths'[t]);
    TallyUpdate(Live, st.threads, t, ths'[t]);
    assert ThreadOk(st, t) && ThreadOk(st, u);
    forall v | 0 <= v < |ths'| && v != t && ths'[v].hit ensures ths'[v].phase != Gone {
      assert ThreadOk(st, v);
    }
    OpensWhenAllHit(ths', t, u);
  }

  lemma GoingOpens(st: State, t: nat, u: nat)
    requires Inv(st) && Enabled(st, Deregister(t)) && !st.isComplete && st.numHits == st.numThreads - 1
    requires u < |st.threads| && u != t
    ensures st.threads[u].phase in {Waiting, Gone}
  {
    var ths' := st.threads[t := ThreadAfter(st, Deregister(t))];
    TallyUpdate(Hits, st.threads, t, ths'[t]);
    TallyUpdate(Live, st.threads, t, ths'[t]);
    assert ThreadOk(st, t) && ThreadOk(st, u);
    forall v | 0 <= v < |ths'| && v != t && ths'[v].hit ensures ths'[v].phase != Gone {
      assert ThreadOk(st, v);
    }
    OpensWhenAllHit(ths', t, u);
  }

  lemma OtherKept(st: State, step: Step, u: nat)
    requires Inv(st) && Enabled(st, step) && u < |st.threads| && u != step.t
    ensures ThreadOk(Apply(st, step), u)
  {
    assert ThreadOk(st, u) && ThreadOk(st, step.t);
    if !st.isComplete && step.Hit? && st.numHits + 1 == st.numThreads {
      HitOpens(st, step.t, u);
    }
    if !st.isComplete && step.Deregister? && st.numHits == st.numThreads - 1 {
      GoingOpens(st, step.t, u);
    }
  }

  lemma OwnKept(st: State, step: Step)
    requires Inv(st) && Enabled(st, step)
    ensures ThreadOk(Apply(st, step), step.t)
  {
    assert ThreadOk(st, step.t);
  }

  lemma {:induction false} OfferKept(ths: seq<Thread>, t: nat, th: Thread)
    requires t < |ths| && Offer(ths) > 0 && (ths[t].negotiated > 0 ==> th.negotiated > 0)
    ensures Offer(ths[t := th]) > 0
  {
    OfferIsSomeones(ths);
    OfferIsSomeones(ths[t := th]);
    var j :| 0 <= j < |ths| && ths[j].negotiated > 0;
    assert ths[t := th][j].negotiated > 0;
  }

  lemma CountsKept(st: State, step: Step)
    requires Inv(st) && Enabled(st, step)
    ensures CountsOk(Apply(st, step))
  {
    var t, th' := step.t, ThreadAfter(st, step);
    assert ThreadOk(st, t);
    TallyUpdate(Hits, st.threads, t, th');
    TallyUpdate(Live, st.threads, t, th');
  }

  lemma SharedKept(st: State, step: Step)
    requires Inv(st) && Enabled(st, step)
    ensures SharedOk(Apply(st, step))
  {
    assert ThreadOk(st, step.t);
  }

  lemma OfferOkKept(st: State, step: Step)
    requires Inv(st) && Enabled(st, step)
    ensures OfferOk(Apply(st, step))
  {
    var t, th' := step.t, ThreadAfter(st, step);
    assert ThreadOk(st, t);
    if step.Offered? && Supports(st.threads[t].version, step.offer) {
      var ths' := st.threads[t := th'];
      OfferIsSomeones(ths');
      assert step.offer > 0 ==> ths'[t].negotiated > 0;
    } else if Offer(st.threads) > 0 {
      OfferKept(st.threads, t, th');
    }
  }

  lemma StepKeepsInv(st: State, step: Step)
    requires Inv(st) && Enabled(st, step)
    ensures Inv(Apply(st, step))
  {
    var st' := Apply(st, step);
    assert |st'.threads| == |st.threads|;
    forall u | 0 <= u < |st'.threads| ensures ThreadOk(st', u) {
      if u == step.t {
        OwnKept(st, step);
      } else {
        OtherKept(st, step, u);
      }
    }
    CountsKept(st, step);
    SharedKept(st, step);
    OfferOkKept(st, step);
  }

  lemma {:induction false} InitKeepsInv(st: State, version: int)
    requires Init(st, version)
    ensures Inv(st)
  {
    InitTally(st.threads, version);
  }

  lemma {:induction false} InitTally(ths: seq<Thread>, version: int)
    requires forall t :: 0 <= t < |ths| ==> ths[t] == Thread(Active, version, -1, false, false)
    ensures Tally(Hits, ths) == 0 && Tally(Live, ths) == |ths|
  {
    if ths != [] {
      InitTally(ths[..|ths| - 1], version);
    }
  }

  lemma {:induction false} RunKeepsInv(run: seq<State>, version: int, k: nat)
    requires IsRun(run, version) && k < |run|
    ensures Inv(run[k])
  {
    if k == 0 {
      InitKeepsInv(run[0], version);
    } else {
      RunKeepsInv(run, version, k - 1);
      assert Next(run[k - 1], run[k - 1 + 1]);
      var step :| Enabled(run[k - 1], step) && run[k] == Apply(run[k - 1], step);
      StepKeepsInv(run[k - 1], step);
    }
  }

  // ---- the promises

  /** In every run the barrier is open exactly if each thread has hit it or has deregistered. */
  lemma BarrierOpensExactly(run: seq<State>, version: int, k: nat)
    requires IsRun(run, version) && k < |run|
    ensures run[k].isComplete <==>
            forall t :: 0 <= t < |run[k].threads| ==> run[k].threads[t].hit || run[k].threads[t].phase == Gone
  {
    var st := run[k];
    RunKeepsInv(run, version, k);
    if st.isComplete {
      forall t | 0 <= t < |st.threads| ensures st.threads[t].hit || st.threads[t].phase == Gone {
        assert ThreadOk(st, t);
      }
    } else {
      forall t | 0 <= t < |st.threads| && st.threads[t].hit ensures st.threads[t].phase != Gone {
        assert ThreadOk(st, t);
      }
      TallyEqual(st.threads);
    }
  }

  /** One thread at most ever leads, and while it does no thread is outside the meeting. */
  lemma OneLeader(run: seq<State>, version: int, k: nat)
    requires IsRun(run, version) && k < |run|
    ensures |run[k].leaders| <= 1
    ensures forall t :: 0 <= t < |run[k].threads| && Leads(run[k].threads[t].phase) ==> run[k].leaders == [t]
  {
    RunKeepsInv(run, version, k);
    forall t | 0 <= t < |run[k].threads| && Leads(run[k].threads[t].phase) ensures run[k].leaders == [t] {
      assert ThreadOk(run[k], t);
    }
  }

  /** All threads that went back to work hold one version, the one that was picked. */
  lemma CommonVersion(run: seq<State>, version: int, k: nat, t: nat, u: nat)
    requires IsRun(run, version) && k < |run| && t < |run[k].threads| && u < |run[k].threads|
    requires run[k].threads[t].left && run[k].threads[u].left
    ensures run[k].threads[t].version == run[k].threads[u].version == run[k].version
  {
    RunKeepsInv(run, version, k);
    assert ThreadOk(run[k], t) && ThreadOk(run[k], u);
  }

  /** The program's checks never fail: a mismatch is never met after a failure, the barrier never hit when open. */
  lemma ChecksHold(run: seq<State>, version: int, k: nat, t: nat)
    requires IsRun(run, version) && k < |run| && t < |run[k].threads|
    ensures Enabled(run[k], CheckStatus(t)) ==> run[k].negotiation != Failed
    ensures Enabled(run[k], Hit(t)) ==> !run[k].isComplete && run[k].numHits + 1 <= run[k].numThreads
    ensures Enabled(run[k], GetStatus(t)) && run[k].funnel == End ==> run[k].negotiation != Undecided
  {
    var st := run[k];
    RunKeepsInv(run, version, k);
    assert ThreadOk(st, t);
    if !st.isComplete {
      forall u | 0 <= u < |st.threads| && st.threads[u].hit ensures st.threads[u].phase != Gone {
        assert ThreadOk(st, u);
      }
      TallyEqual(st.threads);
    }
  }

  /**
   The leader demands that some thread was offered a version.  That holds exactly if one was; and one was, whenever
   every offer in the run was one the sender can take.
   */
  lemma LeaderFindsVersion(run: seq<State>, version: int, k: nat, t: nat)
    requires IsRun(run, version) && k < |run| && t < |run[k].threads| && run[k].threads[t].phase == Judging
    ensures Offer(run[k].threads) > 0 <==>
            exists u :: 0 <= u < |run[k].threads| && run[k].threads[u].negotiated > 0
    ensures !run[k].refused ==> Offer(run[k].threads) > 0
  {
    RunKeepsInv(run, version, k);
    assert ThreadOk(run[k], t);
    OfferIsSomeones(run[k].threads);
  }

  /** An offer the sender cannot take aborts all threads, and then the leader finds nothing. */
  lemma RefusedOfferLeavesNone(version: int) returns (run: seq<State>)
    requires version >= 10
    ensures IsRun(run, version)
    ensures var st := run[|run| - 1]; |st.threads| == 2 && st.threads[1].phase == Judging && Offer(st.threads) == 0
  {
    var gone := Thread(Gone, version, -1, false, false);
    var other := Thread(Past, version, -1, true, false);
    var base := State([gone, other], Undecided, version, true, 1, 1, true, Start, true, []);
    run := LastOneHits(version);
    var leading := base.(threads := [gone, other.(phase := Leading)], funnel := Progress, leaders := [1]);
    run := Extend(run, version, GetStatus(1), leading);
    run := Extend(run, version, MarkFailed(1),
                  leading.(threads := [gone, other.(phase := Judging)], negotiation := Failed));
    OfferIsSomeones(run[|run| - 1].threads);
  }

  lemma LastOneHits(version: int) returns (run: seq<State>)
    requires version >= 10
    ensures IsRun(run, version)
    ensures run[|run| - 1] == State([Thread(Gone, version, -1, false, false), Thread(Past, version, -1, true, false)],
                                    Undecided, version, true, 1, 1, true, Start, true, [])
  {
    var th := Thread(Active, version, -1, false, false);
    var s0 := State([th, th], Undecided, version, false, 2, 0, false, Start, false, []);
    run := [s0];
    var s1 := s0.(threads := [th.(phase := Leaving), th], aborted := true, refused := true);
    run := Extend(run, version, Offered(0, 5), s1);
    var gone := th.(phase := Gone);
    var s2 := s1.(threads := [gone, th], numThreads := 1);
    run := Extend(run, version, Deregister(0), s2);
    run := Extend(run, version, SeeAbort(1), s2.(threads := [gone, th.(phase := Entering)]));
    run := Extend(run, version, CheckStatus(1), s2.(threads := [gone, th.(phase := AtBarrier)]));
    run := Extend(run, version, Hit(1),
                  s2.(threads := [gone, th.(phase := Past, hit := true)], numHits := 1, isComplete := true));
  }

  lemma Extend(run: seq<State>, version: int, step: Step, st: State) returns (run': seq<State>)
    requires IsRun(run, version) && Enabled(run[|run| - 1], step) && st == Apply(run[|run| - 1], step)
    ensures IsRun(run', version) && run' == run + [st]
  {
    run' := run + [st];
    assert Next(run[|run| - 1], st);
    forall i | 0 <= i < |run'| - 1 ensures Next(run'[i], run'[i + 1]) {
      if i < |run| - 1 {
        assert Next(run[i], run[i + 1]);
      }
    }
  }
}
