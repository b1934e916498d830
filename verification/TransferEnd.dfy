/**
 The end of a transfer, on both sides: the retry protocol of CheckpointProtocol together with the finish protocol of
 ReceiverFinish.  A sender that finds nothing more to send says DONE and waits.  The answer is DONE when the receiver's
 other threads are quiet, or ERR with the checkpoints of the threads that gave up; the sender then truncates the
 histories of those ports and goes on.
 */
module TransferEnd {
  import opened Options
  import opened Sources
  import opened TransferHistory
  import S = SenderSystem
  import P = CheckpointProtocol
  import F = ReceiverFinish

  /** What the sender thread does: it is free, it has said DONE, or it works through checkpoints `[next, to)`. */
  datatype Talk = Free | Waits | Told(next: nat, to: nat)

  /** `done` tells whether a DONE is on its way to the receiver, `stopped` whether the receiver thread was aborted. */
  datatype Side = Side(talk: Talk, done: bool, stopped: bool)

  /**
   `listed` tells whether all files have been discovered, `handled` are the checkpoints that some sender has applied,
   `refused` the ports of those that were rejected.
   */
  datatype System = System(w: P.World, f: F.State, sides: seq<Side>, listed: bool, handled: set<nat>, refused: set<nat>)

  datatype Step =
    | EndsListing
    | Sends(s: P.Step)
    | Leaves(u: nat, ends: bool)
    | SaysDone(u: nat)
    | HandlesGlobal(u: nat)
    | GoesOn(u: nat)
    | ReadsHeader(u: nat)
    | Receives(u: nat)
    | ReadsDone(u: nat)
    | Moves(m: F.Step)
    | WritesGlobal(u: nat)
    | Breaks(m: F.Step, cut: P.Cut)
    | StopsUnconnected(u: nat)
    | Accepts(u: nat)
    | Publishes(u: nat)

  predicate Init(sys: System) {
    && P.Init(sys.w) && F.Init(sys.f) && |sys.w.ports| == |sys.f.threads| == |sys.sides|
    && !sys.listed && sys.handled == {} && sys.refused == {}
    && forall u :: 0 <= u < |sys.sides| ==> sys.sides[u] == Side(Free, false, false)
  }

  /** The steps of the sender and of the tag check that take no part in the conversation. */
  predicate OwnStep(s: P.Step) {
    s.Discover? || s.Pop? || s.OpenOk? || s.OpenFailed? || s.SendHeader? || s.SendData? || s.FinishSend? || s.Book?
    || s.Add? || s.AckAll? || s.DeliverLocal? || s.VerifyTags?
  }

  /** The steps of a receiver thread that keep its connection, or that it takes without one. */
  predicate Keeps(rt: F.Thread, s: F.Step) {
    s.StartWaiting? || s.FindNew? || s.FindQuiet? || s.DoneSent? || (s.GiveUp? && rt.phase == F.Accepting)
  }

  /** The steps of a receiver thread that leave its connection. */
  predicate Drops(rt: F.Thread, s: F.Step) {
    s.Break? || s.WaitBroke? || s.WriteGlobalFailed? || s.DoneFailed? || s.Stop? || (s.GiveUp? && rt.phase == F.Reading)
  }

  /** Discovery is the work of no port. */
  predicate Discovers(step: Step) {
    step.EndsListing? || (step.Sends? && step.s.Discover?)
  }

  /** The port whose sender and receiver are at work; for discovery, the first one. */
  function PortOf(step: Step): nat {
    match step
    case EndsListing => 0
    case Sends(s) => if s.Discover? then 0 else s.p
    case Moves(m) => m.t
    case Breaks(m, _) => m.t
    case _ => step.u
  }

  predicate InRange(sys: System, step: Step) {
    && |sys.w.ports| == |sys.w.s.threads| == |sys.f.threads| == |sys.sides|
    && (Discovers(step) || PortOf(step) < |sys.sides|)
    && (step.HandlesGlobal? ==> sys.sides[step.u].talk.Told? && sys.sides[step.u].talk.next < |sys.f.checkpoints|)
  }

  /** The step of the retry protocol in this one, if any. */
  function RetryPart(sys: System, step: Step): Option<P.Step>
    requires InRange(sys, step)
  {
    match step
    case Sends(s) => Some(s)
    case Leaves(u, ends) => Some(if ends then P.SenderEnds(u) else P.SenderBreaks(u))
    case HandlesGlobal(u) => Some(P.DeliverGlobal(sys.f.checkpoints[sys.sides[u].talk.next]))
    case Receives(u) => Some(P.Receive(u))
    case Breaks(m, cut) => Some(P.ReceiverBreaks(m.t, cut))
    case Accepts(u) => Some(P.Reconnect(u))
    case Publishes(u) => Some(P.ReceiverFinishes(u))
    case _ => None
  }

  /** The step of the finish protocol in this one, if any. */
  function FinishPart(step: Step): Option<F.Step> {
    match step
    case ReadsHeader(u) => Some(F.ReadFile(u))
    case Receives(u) => Some(F.ReadFile(u))
    case ReadsDone(u) => Some(F.ReadDone(u))
    case Moves(m) => Some(m)
    case WritesGlobal(u) => Some(F.WriteGlobal(u))
    case Breaks(m, _) => Some(m)
    case StopsUnconnected(u) => Some(F.Stop(u))
    case Accepts(u) => Some(F.Accept(u))
    case Publishes(u) => Some(F.Publish(u))
    case _ => None
  }

  predicate Guard(sys: System, step: Step)
    requires InRange(sys, step) && !Discovers(step)
  {
    var u := PortOf(step);
    var p, k := sys.w.ports[u], sys.sides[u];
    match step
    case Sends(s) => OwnStep(s) && (s.Pop? ==> k.talk.Free?)
    case Leaves(_, _) => true
    case SaysDone(_) =>
      k.talk.Free? && p.link.Up? && sys.w.s.threads[u].slot.Idle? && sys.w.s.queue == [] && sys.listed
    case HandlesGlobal(_) => k.talk.next < k.talk.to
    case GoesOn(_) => k.talk.Told? && k.talk.next == k.talk.to
    case ReadsHeader(_) => p.pipe != []
    case ReadsDone(_) => p.pipe == [] && k.done
    case Moves(m) => Keeps(sys.f.threads[u], m)
    case Breaks(m, _) => Drops(sys.f.threads[u], m)
    case StopsUnconnected(_) => !p.reading
    case _ => true
  }

  predicate Enabled(sys: System, step: Step) {
    && InRange(sys, step)
    && (RetryPart(sys, step).Some? ==> P.Enabled(sys.w, RetryPart(sys, step).value))
    && (FinishPart(step).Some? ==> F.Enabled(sys.f, FinishPart(step).value))
    && (if Discovers(step) then !sys.listed else Guard(sys, step))
  }

  /** DONE and ERR reach the other end only while the connection is up. */
  function SideAfter(sys: System, step: Step): Side
    requires Enabled(sys, step) && PortOf(step) < |sys.sides|
  {
    var u := PortOf(step);
    var p, rt, k := sys.w.ports[u], sys.f.threads[u], sys.sides[u];
    match step
    case Leaves(_, _) => k.(talk := Free)
    case SaysDone(_) => k.(talk := Waits, done := p.reading)
    case HandlesGlobal(_) => k.(talk := Told(k.talk.next + 1, k.talk.to))
    case GoesOn(_) => k.(talk := Free)
    case ReadsDone(_) => k.(done := false)
    case WritesGlobal(_) => if p.link.Up? then k.(talk := Told(rt.index, rt.index + rt.toSend)) else k
    case Breaks(m, _) => k.(done := false, stopped := m.Stop?)
    case StopsUnconnected(_) => k.(stopped := true)
    case _ => k
  }

  predicate Refuses(w: P.World, v: nat)
    requires v < |w.ports| == |w.s.threads|
  {
    CheckpointStatus(w.s.threads[v].hist, P.CkOf(w.ports[v]), true) == InvalidCheckpoint
  }

  function Apply(sys: System, step: Step): (sys': System)
    requires Enabled(sys, step)
    ensures |sys'.w.ports| == |sys'.w.s.threads| == |sys'.f.threads| == |sys'.sides| == |sys.sides|
  {
    var retry, finish := RetryPart(sys, step), FinishPart(step);
    System(if retry.Some? then P.StepFrame(sys.w, retry.value); P.Apply(sys.w, retry.value) else sys.w,
           if finish.Some? then F.Apply(sys.f, finish.value) else sys.f,
           if PortOf(step) < |sys.sides| then sys.sides[PortOf(step) := SideAfter(sys, step)] else sys.sides,
           sys.listed || step.EndsListing?,
           if step.HandlesGlobal? then sys.handled + {sys.sides[step.u].talk.next} else sys.handled,
           if step.HandlesGlobal? && Refuses(sys.w, retry.value.p) then sys.refused + {retry.value.p} else sys.refused)
  }

  ghost predicate IsRun(run: seq<System>, steps: seq<Step>) {
    && |run| == |steps| + 1 && Init(run[0])
    && forall i :: 0 <= i < |steps| ==> Enabled(run[i], steps[i]) && run[i + 1] == Apply(run[i], steps[i])
  }

  lemma RunExtends(run: seq<System>, steps: seq<Step>, step: Step, sys': System)
    requires IsRun(run, steps) && Enabled(run[|steps|], step) && sys' == Apply(run[|steps|], step)
    ensures IsRun(run + [sys'], steps + [step]) && (run + [sys'])[|steps + [step]|] == sys'
  {
    var run', steps' := run + [sys'], steps + [step];
    forall i | 0 <= i < |steps'| ensures Enabled(run'[i], steps'[i]) && run'[i + 1] == Apply(run'[i], steps'[i]) {
      if i < |steps| {
        assert run'[i] == run[i] && run'[i + 1] == run[i + 1] && steps'[i] == steps[i];
      } else {
        assert run'[i] == run[|steps|] && run'[i + 1] == sys' && steps'[i] == step;
      }
    }
  }

  // ---- the invariant of one port

  predicate Connected(phase: F.Phase) {
    phase != F.Accepting && phase != F.Failing && phase != F.Ended
  }

  predicate Phases(p: P.Port, rt: F.Thread, k: Side) {
    && (Connected(rt.phase) ==> p.reading && !p.finished)
    && (rt.phase == F.Accepting || rt.phase == F.Failing ==> !p.reading && !p.finished)
    && (rt.phase == F.Ended ==> (p.finished <==> rt.published.Some?))
    && (rt.published.Some? ==> rt.phase == F.Ended)
    && (k.stopped ==> rt.phase == F.Ended && rt.published.None?)
  }

  /** The receiver has read DONE, and has not read anything else since. */
  predicate Settled(rt: F.Thread, k: Side) {
    || (Connected(rt.phase) && rt.phase != F.Reading)
    || (rt.phase == F.Ended && rt.published.None? && !k.stopped)
  }

  /** The sender has nothing under way, and all that it answers for has reached, or is reaching, the receiver. */
  predicate Agreed(th: S.Thread, p: P.Port, k: Side) {
    && p.reading && !p.finished && th.slot.Idle? && !p.link.Awaiting? && (p.link.Up? ==> k.talk.Waits?)
    && P.Blks(th.hist.sources) == P.Reaching(p)
  }

  predicate Talking(th: S.Thread, p: P.Port, rt: F.Thread, k: Side, published: nat) {
    && (!k.talk.Free? ==> p.link.Up? && th.slot.Idle?)
    && (k.talk.Told? ==> p.pipe == [] && !k.done && k.talk.next <= k.talk.to <= published)
    && (k.done ==> Agreed(th, p, k))
    && (Settled(rt, k) ==> Agreed(th, p, k) && p.pipe == [] && !k.done)
  }

  predicate AllIn(from: nat, to: nat, handled: set<nat>) {
    forall i :: from <= i < to ==> i in handled
  }

  /** Checkpoints that the sender may not have handled yet keep it from sending anything. */
  predicate Confirmable(p: P.Port, rt: F.Thread, k: Side, handled: set<nat>) {
    && AllIn(0, rt.index, handled)
    && (rt.phase == F.Reading ==>
          || AllIn(rt.index, rt.pending, handled)
          || (&& p.pipe == [] && !k.done && !p.link.Awaiting?
              && (p.link.Up? ==> k.talk.Told? && k.talk.to == rt.pending && AllIn(rt.index, k.talk.next, handled))))
  }

  predicate Tie(th: S.Thread, p: P.Port, rt: F.Thread, k: Side, published: nat, handled: set<nat>) {
    Phases(p, rt, k) && Talking(th, p, rt, k, published) && Confirmable(p, rt, k, handled)
  }

  predicate Tied(sys: System, u: nat)
    requires u < |sys.w.ports| == |sys.w.s.threads| == |sys.f.threads| == |sys.sides|
  {
    Tie(sys.w.s.threads[u], sys.w.ports[u], sys.f.threads[u], sys.sides[u], |sys.f.checkpoints|, sys.handled)
  }

  /** A handled checkpoint has closed the history of its port, or was refused. */
  predicate HandledTrue(sys: System)
    requires |sys.w.ports| == |sys.w.s.threads|
  {
    forall i :: i in sys.handled ==>
                  && i < |sys.f.checkpoints| && sys.f.checkpoints[i] < |sys.w.ports|
                  && (sys.w.s.threads[sys.f.checkpoints[i]].hist.global || sys.f.checkpoints[i] in sys.refused)
  }

  ghost predicate Inv(sys: System) {
    && |sys.w.ports| == |sys.w.s.threads| == |sys.f.threads| == |sys.sides|
    && P.Inv(sys.w) && F.Inv(sys.f) && HandledTrue(sys)
    && forall u :: 0 <= u < |sys.sides| ==> Tied(sys, u)
  }

  // ---- every step keeps it

  /** A port that no part of the step touches. */
  lemma OtherStaysTied(sys: System, sys': System, u: nat)
    requires |sys.w.ports| == |sys.w.s.threads| == |sys.f.threads| == |sys.sides|
    requires |sys'.w.ports| == |sys'.w.s.threads| == |sys'.f.threads| == |sys'.sides| == |sys.sides|
    requires u < |sys.sides| && Tied(sys, u)
    requires sys'.w.ports[u] == sys.w.ports[u] && sys'.f.threads[u] == sys.f.threads[u] && sys'.sides[u] == sys.sides[u]
    requires || sys'.w.s.threads[u] == sys.w.s.threads[u]
             || (sys.w.ports[u].finished && sys'.w.s.threads[u].slot == sys.w.s.threads[u].slot)
    requires |sys.f.checkpoints| <= |sys'.f.checkpoints| && sys.handled <= sys'.handled
    ensures Tied(sys', u)
  {
  }

  lemma TagsKeepTie(th: S.Thread, p: P.Port, p': P.Port, rt: F.Thread, k: Side, published: nat, handled: set<nat>)
    requires Tie(th, p, rt, k, published, handled) && p' == p.(verified := p.verified + p.waiting, waiting := [])
    ensures Tie(th, p', rt, k, published, handled)
  {
    assert P.Reaching(p') == P.Reaching(p);
  }

  /** A sender that works on a source, or is about to take one, is free and has not said DONE. */
  lemma WorkIsFree(w: P.World, s: P.Step, rt: F.Thread, k: Side, published: nat, handled: set<nat>)
    requires OwnStep(s) && !s.Discover? && !s.AckAll? && !s.VerifyTags? && P.Enabled(w, s) && (s.Pop? ==> k.talk.Free?)
    requires Tie(w.s.threads[s.p], w.ports[s.p], rt, k, published, handled)
    ensures k.talk.Free? && !k.done && !Settled(rt, k)
  {
  }

  /** What a sender's step can do to its port. */
  lemma WorkFrame(w: P.World, s: P.Step)
    requires OwnStep(s) && !s.Discover? && !s.AckAll? && !s.VerifyTags? && P.Enabled(w, s)
    ensures |P.Apply(w, s).ports| == |w.ports|
    ensures var p, p' := w.ports[s.p], P.Apply(w, s).ports[s.p];
            && p'.reading == p.reading && p'.finished == p.finished && (p.pipe == [] && !p.link.Up? ==> p'.pipe == [])
            && (p'.link.Up? || p'.link.Awaiting? ==> p.link.Up? || p.link.Awaiting?)
            && (p'.link.Awaiting? ==> p.link.Awaiting?)
  {
  }

  /** The sender's own steps. */
  lemma SendsKeepsTie(w: P.World, s: P.Step, rt: F.Thread, k: Side, published: nat, handled: set<nat>)
    requires OwnStep(s) && !s.Discover? && P.Enabled(w, s) && (s.Pop? ==> k.talk.Free?)
    requires Tie(w.s.threads[s.p], w.ports[s.p], rt, k, published, handled)
    ensures |P.Apply(w, s).ports| == |w.ports| == |P.Apply(w, s).s.threads|
    ensures Tie(P.Apply(w, s).s.threads[s.p], P.Apply(w, s).ports[s.p], rt, k, published, handled)
  {
    P.StepFrame(w, s);
    var p, p' := w.ports[s.p], P.Apply(w, s).ports[s.p];
    if s.VerifyTags? {
      TagsKeepTie(w.s.threads[s.p], p, p', rt, k, published, handled);
    } else if !s.AckAll? {
      WorkIsFree(w, s, rt, k, published, handled);
      WorkFrame(w, s);
    }
  }

  lemma LeavesKeepsTie(th: S.Thread, p: P.Port, link: P.Link, rt: F.Thread, k: Side, published: nat, handled: set<nat>)
    requires Tie(th, p, rt, k, published, handled) && (link == P.Down || link == P.Ended)
    ensures Tie(th, p.(link := link), rt, k.(talk := Free), published, handled)
  {
    assert P.Reaching(p.(link := link)) == P.Reaching(p);
  }

  /** Everything sent has reached an up connection, so DONE is the last thing on it. */
  lemma SaysDoneKeepsTie(th: S.Thread, p: P.Port, rt: F.Thread, k: Side, published: nat, handled: set<nat>)
    requires Tie(th, p, rt, k, published, handled) && P.Stream(th, p)
    requires k.talk.Free? && p.link.Up? && th.slot.Idle?
    ensures Tie(th, p, rt, k.(talk := Waits, done := p.reading), published, handled)
  {
    assert P.SentBlks(th, p) == P.Blks(th.hist.sources);
  }

  lemma HandlesKeepsTie(th: S.Thread, th': S.Thread, p: P.Port, rt: F.Thread, k: Side, published: nat,
                        handled: set<nat>)
    requires Tie(th, p, rt, k, published, handled) && k.talk.Told? && k.talk.next < k.talk.to && th'.slot == th.slot
    ensures Tie(th', p, rt, k.(talk := Told(k.talk.next + 1, k.talk.to)), published, handled + {k.talk.next})
  {
  }

  lemma GoesOnKeepsTie(th: S.Thread, p: P.Port, rt: F.Thread, k: Side, published: nat, handled: set<nat>)
    requires Tie(th, p, rt, k, published, handled) && k.talk.Told? && k.talk.next == k.talk.to
    ensures Tie(th, p, rt, k.(talk := Free), published, handled)
  {
  }

  /** A header or a DONE shows that the sender has handled all that was written to it. */
  lemma ReadsKeepsTie(th: S.Thread, p: P.Port, rt: F.Thread, k: Side, published: nat, handled: set<nat>)
    requires Tie(th, p, rt, k, published, handled) && rt.phase == F.Reading && (p.pipe != [] || k.done)
    ensures Tie(th, p, rt.(index := rt.pending), k, published, handled)
    ensures p.pipe == [] ==>
            Tie(th, p, rt.(index := rt.pending, phase := F.DoneRead), k.(done := false), published, handled)
  {
  }

  lemma ReceivesKeepsTie(th: S.Thread, p: P.Port, p': P.Port, rt: F.Thread, k: Side, published: nat, handled: set<nat>)
    requires Tie(th, p, rt, k, published, handled) && rt.phase == F.Reading && p.pipe != []
    requires p' == p.(pipe := p'.pipe, partial := p'.partial, waiting := p'.waiting, verified := p'.verified)
    requires P.Reaching(p') == P.Reaching(p)
    ensures Tie(th, p', rt.(index := rt.pending), k, published, handled)
  {
  }

  lemma BreaksKeepsTie(th: S.Thread, p: P.Port, p': P.Port, rt: F.Thread, rt': F.Thread, k: Side, published: nat,
                       handled: set<nat>)
    requires Tie(th, p, rt, k, published, handled) && Connected(rt.phase) && rt.published.None?
    requires p' == p.(reading := false, pipe := [], waiting := [], partial := p'.partial)
    requires rt' == rt.(status := rt'.status, phase := rt'.phase, doneFailed := rt'.doneFailed)
    requires rt'.phase == F.Accepting || rt'.phase == F.Failing || rt'.phase == F.Ended
    ensures Tie(th, p', rt', k.(done := false, stopped := rt'.phase == F.Ended), published, handled)
  {
  }

  lemma SendsStaysTied(sys: System, s: P.Step)
    requires Enabled(sys, Sends(s)) && !s.Discover? && Tied(sys, s.p)
    ensures Tied(Apply(sys, Sends(s)), s.p)
  {
    SendsKeepsTie(sys.w, s, sys.f.threads[s.p], sys.sides[s.p], |sys.f.checkpoints|, sys.handled);
  }

  lemma LeavesStaysTied(sys: System, u: nat, ends: bool)
    requires Enabled(sys, Leaves(u, ends)) && Tied(sys, u)
    ensures Tied(Apply(sys, Leaves(u, ends)), u)
  {
    LeavesKeepsTie(sys.w.s.threads[u], sys.w.ports[u], if ends then P.Ended else P.Down, sys.f.threads[u], sys.sides[u],
                   |sys.f.checkpoints|, sys.handled);
  }

  lemma SaysDoneStaysTied(sys: System, u: nat)
    requires Enabled(sys, SaysDone(u)) && Tied(sys, u) && P.PortInv(sys.w, u)
    ensures Tied(Apply(sys, SaysDone(u)), u)
  {
    SaysDoneKeepsTie(sys.w.s.threads[u], sys.w.ports[u], sys.f.threads[u], sys.sides[u], |sys.f.checkpoints|,
                     sys.handled);
  }

  lemma HandlesStaysTied(sys: System, u: nat)
    requires Enabled(sys, HandlesGlobal(u)) && Tied(sys, u)
    ensures Tied(Apply(sys, HandlesGlobal(u)), u)
  {
    var sys' := Apply(sys, HandlesGlobal(u));
    HandlesKeepsTie(sys.w.s.threads[u], sys'.w.s.threads[u], sys.w.ports[u], sys.f.threads[u], sys.sides[u],
                    |sys.f.checkpoints|, sys.handled);
  }

  lemma GoesOnStaysTied(sys: System, u: nat)
    requires Enabled(sys, GoesOn(u)) && Tied(sys, u)
    ensures Tied(Apply(sys, GoesOn(u)), u)
  {
    GoesOnKeepsTie(sys.w.s.threads[u], sys.w.ports[u], sys.f.threads[u], sys.sides[u], |sys.f.checkpoints|,
                   sys.handled);
  }

  lemma ReadsStaysTied(sys: System, u: nat, done: bool)
    requires var step := if done then ReadsDone(u) else ReadsHeader(u); Enabled(sys, step)
    requires Tied(sys, u)
    ensures Tied(Apply(sys, if done then ReadsDone(u) else ReadsHeader(u)), u)
  {
    ReadsKeepsTie(sys.w.s.threads[u], sys.w.ports[u], sys.f.threads[u], sys.sides[u], |sys.f.checkpoints|, sys.handled);
  }

  lemma ReceivesStaysTied(sys: System, u: nat)
    requires Enabled(sys, Receives(u)) && Tied(sys, u) && P.PortInv(sys.w, u)
    ensures Tied(Apply(sys, Receives(u)), u)
  {
    var p, p' := sys.w.ports[u], Apply(sys, Receives(u)).w.ports[u];
    P.ReachingSame(p, p', p.pipe[0].blk, sys.w.tags);
    ReceivesKeepsTie(sys.w.s.threads[u], p, p', sys.f.threads[u], sys.sides[u], |sys.f.checkpoints|, sys.handled);
  }

  lemma MovesStaysTied(sys: System, m: F.Step)
    requires Enabled(sys, Moves(m)) && Tied(sys, m.t)
    ensures Tied(Apply(sys, Moves(m)), m.t)
  {
  }

  lemma WritesStaysTied(sys: System, u: nat)
    requires Enabled(sys, WritesGlobal(u)) && Tied(sys, u) && F.IndicesTrue(sys.f, u)
    ensures Tied(Apply(sys, WritesGlobal(u)), u)
  {
  }

  lemma BreakForm(w: P.World, u: nat, cut: P.Cut)
    requires P.Enabled(w, P.ReceiverBreaks(u, cut))
    ensures var w', p := P.Apply(w, P.ReceiverBreaks(u, cut)), w.ports[u];
            && |w'.ports| == |w.ports| == |w'.s.threads| && w'.s == w.s
            && w'.ports[u] == p.(reading := false, pipe := [], waiting := [], partial := w'.ports[u].partial)
  {
  }

  lemma DropForm(f: F.State, m: F.Step)
    requires F.Enabled(f, m) && Drops(f.threads[m.t], m) && F.PhaseTrue(f, m.t)
    ensures var rt, rt' := f.threads[m.t], F.Apply(f, m).threads[m.t];
            && (m.Stop? ==> rt'.phase == F.Ended) && (!m.Stop? ==> Connected(rt.phase))
            && rt.published.None? && rt' == rt.(status := rt'.status, phase := rt'.phase, doneFailed := rt'.doneFailed)
            && (rt'.phase == F.Ended || rt'.phase == F.Accepting || rt'.phase == F.Failing)
            && (rt'.phase == F.Ended <==> m.Stop?) && rt.phase != F.Ended
  {
  }

  lemma BreaksStaysTied(sys: System, m: F.Step, cut: P.Cut)
    requires Enabled(sys, Breaks(m, cut)) && Tied(sys, m.t) && F.PhaseTrue(sys.f, m.t)
    ensures Tied(Apply(sys, Breaks(m, cut)), m.t)
  {
    var u, w', f' := m.t, P.Apply(sys.w, P.ReceiverBreaks(m.t, cut)), F.Apply(sys.f, m);
    BreakForm(sys.w, u, cut);
    DropForm(sys.f, m);
    BreaksKeepsTie(sys.w.s.threads[u], sys.w.ports[u], w'.ports[u], sys.f.threads[u], f'.threads[u],
                   sys.sides[u], |sys.f.checkpoints|, sys.handled);
  }

  lemma StopsStaysTied(sys: System, u: nat)
    requires Enabled(sys, StopsUnconnected(u)) && Tied(sys, u)
    ensures Tied(Apply(sys, StopsUnconnected(u)), u)
  {
  }

  lemma AcceptsStaysTied(sys: System, u: nat)
    requires Enabled(sys, Accepts(u)) && Tied(sys, u)
    ensures Tied(Apply(sys, Accepts(u)), u)
  {
  }

  lemma PublishesKeepsTie(th: S.Thread, p: P.Port, rt: F.Thread, k: Side, published: nat, handled: set<nat>)
    requires Tie(th, p, rt, k, published, handled) && rt.phase == F.Failing
    ensures Tie(th, p.(finished := true),
                rt.(status := F.Finished, phase := F.Ended, doneFailed := false, published := Some(published)), k,
                published + 1, handled)
  {
  }

  lemma PublishesStaysTied(sys: System, u: nat)
    requires Enabled(sys, Publishes(u)) && Tied(sys, u)
    ensures Tied(Apply(sys, Publishes(u)), u)
  {
    PublishesKeepsTie(sys.w.s.threads[u], sys.w.ports[u], sys.f.threads[u], sys.sides[u], |sys.f.checkpoints|,
                      sys.handled);
  }

  lemma OwnStaysTied(sys: System, step: Step)
    requires Enabled(sys, step) && !Discovers(step)
    requires Tied(sys, PortOf(step)) && P.PortInv(sys.w, PortOf(step))
    requires F.IndicesTrue(sys.f, PortOf(step)) && F.PhaseTrue(sys.f, PortOf(step))
    ensures Tied(Apply(sys, step), PortOf(step))
  {
    var u := PortOf(step);
    match step
    case Sends(s) => SendsStaysTied(sys, s);
    case Leaves(_, ends) => LeavesStaysTied(sys, u, ends);
    case SaysDone(_) => SaysDoneStaysTied(sys, u);
    case HandlesGlobal(_) => HandlesStaysTied(sys, u);
    case GoesOn(_) => GoesOnStaysTied(sys, u);
    case ReadsHeader(_) => ReadsStaysTied(sys, u, false);
    case ReadsDone(_) => ReadsStaysTied(sys, u, true);
    case Receives(_) => ReceivesStaysTied(sys, u);
    case Moves(m) => MovesStaysTied(sys, m);
    case WritesGlobal(_) => WritesStaysTied(sys, u);
    case Breaks(m, cut) => BreaksStaysTied(sys, m, cut);
    case StopsUnconnected(_) => StopsStaysTied(sys, u);
    case Accepts(_) => AcceptsStaysTied(sys, u);
    case Publishes(_) => PublishesStaysTied(sys, u);
  }

  lemma GlobalKeepsSlots(w: P.World, v: nat, x: nat)
    requires P.Enabled(w, P.DeliverGlobal(v)) && x < |w.ports|
    ensures var w' := P.Apply(w, P.DeliverGlobal(v));
            && |w'.ports| == |w'.s.threads| == |w.ports| && w'.ports[x] == w.ports[x]
            && (w'.s.threads[x] == w.s.threads[x]
                || (w.ports[x].finished && w'.s.threads[x].slot == w.s.threads[x].slot))
  {
  }

  /** The other ports: only a global checkpoint reaches beyond its own port, and only to one that has finished. */
  lemma StepFrame(sys: System, step: Step, x: nat)
    requires Enabled(sys, step) && x < |sys.sides| && (x != PortOf(step) || Discovers(step))
    ensures var sys' := Apply(sys, step);
            && sys'.w.ports[x] == sys.w.ports[x] && sys'.f.threads[x] == sys.f.threads[x]
            && sys'.sides[x] == sys.sides[x]
            && (sys'.w.s.threads[x] == sys.w.s.threads[x]
                || (sys.w.ports[x].finished && sys'.w.s.threads[x].slot == sys.w.s.threads[x].slot))
  {
    RetryFrame(sys, step, x);
    FinishFrame(sys, step, x);
    if Discovers(step) {
      assert SideAfter(sys, step) == sys.sides[PortOf(step)];
    }
  }

  lemma RetryFrame(sys: System, step: Step, x: nat)
    requires Enabled(sys, step) && x < |sys.sides| && (x != PortOf(step) || Discovers(step))
    ensures var w, w' := sys.w, Apply(sys, step).w;
            && w'.ports[x] == w.ports[x]
            && (w'.s.threads[x] == w.s.threads[x]
                || (w.ports[x].finished && w'.s.threads[x].slot == w.s.threads[x].slot))
  {
    var retry := RetryPart(sys, step);
    if step.HandlesGlobal? {
      GlobalKeepsSlots(sys.w, retry.value.p, x);
    } else if retry.Some? {
      P.StepFrame(sys.w, retry.value);
    }
  }

  lemma FinishFrame(sys: System, step: Step, x: nat)
    requires Enabled(sys, step) && x < |sys.sides| && (x != PortOf(step) || Discovers(step))
    ensures Apply(sys, step).f.threads[x] == sys.f.threads[x]
    ensures Discovers(step) || Apply(sys, step).sides[x] == sys.sides[x]
  {
  }

  lemma StepGrows(sys: System, step: Step)
    requires Enabled(sys, step)
    ensures sys.f.checkpoints <= Apply(sys, step).f.checkpoints
    ensures sys.handled <= Apply(sys, step).handled && sys.refused <= Apply(sys, step).refused
  {
  }

  /** A closed history stays closed. */
  lemma GlobalStays(w: P.World, s: P.Step, v: nat)
    requires P.Enabled(w, s) && v < |w.s.threads| && w.s.threads[v].hist.global
    ensures v < |P.Apply(w, s).s.threads| && P.Apply(w, s).s.threads[v].hist.global
  {
    P.StepFrame(w, s);
  }

  /** Applying a global checkpoint closes the history unless it is refused. */
  lemma GlobalCloses(w: P.World, v: nat)
    requires P.Enabled(w, P.DeliverGlobal(v))
    ensures v < |P.Apply(w, P.DeliverGlobal(v)).s.threads|
    ensures P.Apply(w, P.DeliverGlobal(v)).s.threads[v].hist.global || Refuses(w, v)
  {
  }

  lemma StepKeepsHandled(sys: System, step: Step)
    requires Enabled(sys, step) && HandledTrue(sys)
    ensures HandledTrue(Apply(sys, step))
  {
    var sys' := Apply(sys, step);
    StepGrows(sys, step);
    if step.HandlesGlobal? {
      GlobalCloses(sys.w, RetryPart(sys, step).value.p);
    }
    forall i | i in sys'.handled
      ensures i < |sys'.f.checkpoints| && sys'.f.checkpoints[i] < |sys'.w.ports|
      ensures sys'.w.s.threads[sys'.f.checkpoints[i]].hist.global || sys'.f.checkpoints[i] in sys'.refused
    {
      if i in sys.handled {
        var v := sys.f.checkpoints[i];
        if sys.w.s.threads[v].hist.global && RetryPart(sys, step).Some? {
          GlobalStays(sys.w, RetryPart(sys, step).value, v);
        }
      }
    }
  }

  lemma StepKeepsInv(sys: System, step: Step)
    requires Inv(sys) && Enabled(sys, step)
    ensures Inv(Apply(sys, step))
  {
    var sys' := Apply(sys, step);
    if RetryPart(sys, step).Some? {
      P.StepKeepsInv(sys.w, RetryPart(sys, step).value);
    }
    if FinishPart(step).Some? {
      F.StepKeepsInv(sys.f, FinishPart(step).value);
    }
    StepKeepsHandled(sys, step);
    StepGrows(sys, step);
    forall x | 0 <= x < |sys'.sides| ensures Tied(sys', x) {
      if x == PortOf(step) && !Discovers(step) {
        assert Tied(sys, x) && P.PortInv(sys.w, x) && F.IndicesTrue(sys.f, x) && F.PhaseTrue(sys.f, x);
        OwnStaysTied(sys, step);
      } else {
        StepFrame(sys, step, x);
        OtherStaysTied(sys, sys', x);
      }
    }
  }

  lemma InitInv(sys: System)
    requires Init(sys)
    ensures Inv(sys)
  {
    P.InitInv(sys.w);
    F.RunKeepsInv([sys.f], 0);
  }

  lemma {:induction false} RunKeepsInv(run: seq<System>, steps: seq<Step>, i: nat)
    requires IsRun(run, steps) && i < |run|
    ensures Inv(run[i])
  {
    if i == 0 {
      InitInv(run[0]);
    } else {
      RunKeepsInv(run, steps, i - 1);
      StepKeepsInv(run[i - 1], steps[i - 1]);
    }
  }

  /** On its connections, every run is a run of the retry protocol. */
  lemma {:induction false} RetryRun(run: seq<System>, steps: seq<Step>, i: nat)
    returns (worlds: seq<P.World>, moves: seq<P.Step>)
    requires IsRun(run, steps) && i < |run|
    ensures P.IsRun(worlds, moves) && worlds[|moves|] == run[i].w
  {
    if i == 0 {
      worlds, moves := [run[0].w], [];
    } else {
      worlds, moves := RetryRun(run, steps, i - 1);
      var part := RetryPart(run[i - 1], steps[i - 1]);
      if part.Some? {
        P.RunExtends(worlds, moves, part.value, run[i].w);
        worlds, moves := worlds + [run[i].w], moves + [part.value];
      }
    }
  }

  /** And among the receiver's threads a run of the finish protocol. */
  lemma {:induction false} FinishRun(run: seq<System>, steps: seq<Step>, i: nat) returns (states: seq<F.State>)
    requires IsRun(run, steps) && i < |run|
    ensures F.IsRun(states) && states[|states| - 1] == run[i].f
  {
    if i == 0 {
      states := [run[0].f];
    } else {
      states := FinishRun(run, steps, i - 1);
      var part := FinishPart(steps[i - 1]);
      if part.Some? {
        states := F.Extend(states, part.value, run[i].f);
      }
    }
  }

  // ---- the promise

  /**
   The receiver thread was aborted, its DONE did not get through, or the senders have refused its final checkpoint and
   none has accepted it.
   */
  predicate Exceptional(sys: System, u: nat)
    requires u < |sys.sides| == |sys.f.threads| == |sys.w.s.threads|
  {
    sys.sides[u].stopped || sys.f.threads[u].doneFailed || (u in sys.refused && !sys.w.s.threads[u].hist.global)
  }

  /**
   In every run, when a receiver thread may answer DONE: what any port still counts as transferred is what its receiver
   has received, block by block, but for exceptional ports.
   */
  lemma DoneMeansReceived(run: seq<System>, steps: seq<Step>, i: nat, t: nat, u: nat)
    requires IsRun(run, steps) && i < |run| && F.Enabled(run[i].f, F.FindQuiet(t))
    requires |run[i].w.ports| == |run[i].w.s.threads| == |run[i].f.threads| == |run[i].sides|
    requires u < |run[i].sides| && !Exceptional(run[i], u)
    ensures P.Blks(run[i].w.s.threads[u].hist.sources) == run[i].w.ports[u].verified + run[i].w.ports[u].waiting
  {
    RunKeepsInv(run, steps, i);
    QuietMeansReceived(run[i], t, u);
  }

  lemma QuietMeansReceived(sys: System, t: nat, u: nat)
    requires Inv(sys) && F.Enabled(sys.f, F.FindQuiet(t)) && u < |sys.sides| && !Exceptional(sys, u)
    ensures P.Blks(sys.w.s.threads[u].hist.sources) == sys.w.ports[u].verified + sys.w.ports[u].waiting
  {
    var th, p, rt := sys.w.s.threads[u], sys.w.ports[u], sys.f.threads[u];
    assert Tied(sys, u) && Tied(sys, t) && F.PhaseTrue(sys.f, u) && P.PortInv(sys.w, u);
    if rt.published.Some? {
      assert rt.published.value in sys.handled;
      assert th.hist.global;
      assert p.verified <= P.SentBlks(th, p) && P.Blks(th.hist.sources) <= P.SentBlks(th, p);
    } else {
      assert Settled(rt, sys.sides[u]);
      assert P.Reaching(p) == p.verified + p.waiting;
    }
  }

  /** A block of an unexceptional port's history is on disk. */
  lemma HistoryOnDisk(sys: System, t: nat, u: nat, k: nat, pos: int)
    requires Inv(sys) && F.Enabled(sys.f, F.FindQuiet(t)) && u < |sys.sides| && !Exceptional(sys, u)
    requires k < |sys.w.s.threads[u].hist.sources|
    requires var s := sys.w.s.threads[u].hist.sources[k]; s.offset <= pos < s.offset + s.size
    ensures (sys.w.s.threads[u].hist.sources[k].meta.seqId, pos) in sys.w.written
  {
    var h, p := sys.w.s.threads[u].hist.sources, sys.w.ports[u];
    QuietMeansReceived(sys, t, u);
    assert P.PortInv(sys.w, u);
    var b := (p.verified + p.waiting)[k];
    assert b == P.BlkOf(h[k]);
    assert (b.seqId, pos) in P.Positions(b.seqId, b.offset, b.offset + b.size);
    assert P.VerifiedWritten(sys.w, p);
  }

  // ---- which bytes are lost

  /** A thread has a source in its hands that owes the position. */
  predicate InHand(w: P.World, seqId: nat, pos: int) {
    exists u :: 0 <= u < |w.s.threads| && S.SlotValue(Owed(seqId, pos), w.s.threads[u].slot) > 0
  }

  /** Not on disk, and nobody is going to send it: neither queued, nor failed to open, nor in a thread's hands. */
  predicate Lost(w: P.World, seqId: nat, pos: int) {
    && (seqId, pos) !in w.written && !InHand(w, seqId, pos)
    && !P.OwedIn(w.s.queue, seqId, pos) && !P.OwedIn(w.s.failed, seqId, pos)
  }

  /** The port's history has the position in a block that the receiver has not verified. */
  predicate Unverified(w: P.World, u: nat, seqId: nat, pos: int)
    requires u < |w.ports| == |w.s.threads|
  {
    var h, v := w.s.threads[u].hist.sources, |w.ports[u].verified|;
    v <= |h| && P.OwedIn(h[v..], seqId, pos)
  }

  lemma UnverifiedIsExceptional(sys: System, t: nat, u: nat, seqId: nat, pos: int)
    requires Inv(sys) && F.Enabled(sys.f, F.FindQuiet(t)) && u < |sys.sides|
    requires Unverified(sys.w, u, seqId, pos) && (seqId, pos) !in sys.w.written
    ensures Exceptional(sys, u)
  {
    var h, v := sys.w.s.threads[u].hist.sources, |sys.w.ports[u].verified|;
    if !Exceptional(sys, u) {
      var k :| 0 <= k < |h[v..]| && SourceValue(Owed(seqId, pos), h[v..][k]) > 0;
      HistoryOnDisk(sys, t, u, v + k, pos);
      assert false;
    }
  }

  /** What a history has, nobody else has: every position is enqueued once. */
  lemma UnverifiedIsNowhereElse(w: P.World, u: nat, seqId: nat, pos: int)
    requires P.Inv(w) && u < |w.ports| && Unverified(w, u, seqId, pos)
    ensures !InHand(w, seqId, pos) && !P.OwedIn(w.s.queue, seqId, pos) && !P.OwedIn(w.s.failed, seqId, pos)
  {
    var h, v := w.s.threads[u].hist.sources, |w.ports[u].verified|;
    var k :| 0 <= k < |h[v..]| && SourceValue(Owed(seqId, pos), h[v..][k]) > 0;
    assert h[v + k] == h[v..][k];
    P.OwedCounts(h, seqId, pos);
    assert S.Balanced(Owed(seqId, pos), w.s);
    P.EnqueuedOnce(w.s.enqueued, seqId, pos);
    P.OwedCounts(w.s.queue, seqId, pos);
    P.OwedCounts(w.s.failed, seqId, pos);
    P.TotalAtLeast(w.s.threads, u, seqId, pos);
    if x :| 0 <= x < |w.s.threads| && S.SlotValue(Owed(seqId, pos), w.s.threads[x].slot) > 0 {
      P.OwedCounts(w.s.threads[x].hist.sources, seqId, pos);
      if x != u {
        P.TotalOfTwo(w.s.threads, x, u, seqId, pos);
      }
    }
  }

  /**
   In every run, when a receiver thread may answer DONE, a byte that was enqueued is lost exactly if it is not on disk
   and an exceptional port has it in a block that its receiver has not verified.
   */
  lemma LostAtDoneIff(run: seq<System>, steps: seq<Step>, i: nat, t: nat, seqId: nat, pos: int)
    requires IsRun(run, steps) && i < |run| && F.Enabled(run[i].f, F.FindQuiet(t))
    requires Times(run[i].w.s.enqueued, seqId, pos) > 0
    ensures |run[i].w.ports| == |run[i].w.s.threads| == |run[i].f.threads| == |run[i].sides|
    ensures Lost(run[i].w, seqId, pos)
            <==> (seqId, pos) !in run[i].w.written
                 && exists u :: 0 <= u < |run[i].sides| && Exceptional(run[i], u) && Unverified(run[i].w, u, seqId, pos)
  {
    var sys, w := run[i], run[i].w;
    RunKeepsInv(run, steps, i);
    P.NothingIsLost(w, seqId, pos);
    if Lost(w, seqId, pos) {
      var u: nat :| u < |w.ports| && P.OwedByPort(w, u, seqId, pos);
      UnverifiedIsExceptional(sys, t, u, seqId, pos);
    }
    if u :| 0 <= u < |sys.sides| && Exceptional(sys, u) && Unverified(w, u, seqId, pos) {
      UnverifiedIsNowhereElse(w, u, seqId, pos);
    }
  }

  /** So nothing is lost when no port is exceptional. */
  lemma CompleteAtDone(run: seq<System>, steps: seq<Step>, i: nat, t: nat, seqId: nat, pos: int)
    requires IsRun(run, steps) && i < |run| && F.Enabled(run[i].f, F.FindQuiet(t))
    requires |run[i].sides| == |run[i].f.threads| == |run[i].w.s.threads|
    requires forall u :: 0 <= u < |run[i].sides| ==> !Exceptional(run[i], u)
    requires Times(run[i].w.s.enqueued, seqId, pos) > 0
    ensures !Lost(run[i].w, seqId, pos)
  {
    LostAtDoneIff(run, steps, i, t, seqId, pos);
  }
}
