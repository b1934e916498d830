/**
 The retry protocol end to end: the sender threads of SenderSystem, one receiver thread per port, and the
 connection between them.  A connection delivers what was written in order, up to an arbitrary cut.  Both ends
 notice a break on their own; the sender then waits for the receiver's checkpoint, truncates its history to it
 and sends the rest again, possibly on other ports.
 */
module CheckpointProtocol {
  import opened Options
  import opened Sources
  import opened TransferHistory
  import S = SenderSystem

  /** A block as its header announces it. */
  datatype Blk = Blk(seqId: nat, offset: int, size: int)

  function BlkOf(s: Source): Blk {
    Blk(s.meta.seqId, s.offset, s.size)
  }

  function Blks(ss: seq<Source>): seq<Blk> {
    seq(|ss|, i requires 0 <= i < |ss| => BlkOf(ss[i]))
  }

  /** A block on the wire, with the data bytes that can be read so far. */
  datatype Item = Item(blk: Blk, avail: nat)

  function PipeBlks(pipe: seq<Item>): seq<Blk> {
    seq(|pipe|, i requires 0 <= i < |pipe| => pipe[i].blk)
  }

  /** The sender's side of its connection. */
  datatype Link = Up | Awaiting | Down | Ended

  /** The receiver's record of the block it was reading when the connection broke. */
  datatype Partial = Partial(seqId: nat, offset: int, bytes: nat)

  const NOTHING := Partial(0, 0, 0)

  /** One port: the link and the header flag of the sender, the bytes under way, and the receiver thread. */
  datatype Port = Port(link: Link, started: bool, msg: Checkpoint, pipe: seq<Item>,
                       reading: bool, finished: bool, verified: seq<Blk>, waiting: seq<Blk>, partial: Partial)

  /** `written` is what the receiver has put on disk; with tags or footers partial blocks are not trusted. */
  datatype World = World(s: S.State, ports: seq<Port>, written: set<(nat, int)>, tags: bool, footers: bool)

  function Positions(seqId: nat, from: int, to: int): set<(nat, int)> {
    set q | from <= q < to :: (seqId, q)
  }

  function CkOf(p: Port): Checkpoint {
    Checkpoint(|p.verified|, p.partial.seqId, p.partial.offset, p.partial.bytes, true)
  }

  /** Where the connection ends for the receiver: before a header, inside one, or after `k` data bytes. */
  datatype Cut = BetweenBlocks | InHeader | InData(k: nat)

  datatype Step =
    | Discover(s: Source)
    | Pop(p: nat, i: nat)
    | OpenOk(p: nat)
    | OpenFailed(p: nat)
    | SendHeader(p: nat)
    | SendData(p: nat, k: nat)
    | FinishSend(p: nat, d: Stats)
    | Book(p: nat)
    | Add(p: nat)
    | AckAll(p: nat)
    | SenderBreaks(p: nat)
    | SenderEnds(p: nat)
    | Reconnect(p: nat)
    | DeliverLocal(p: nat)
    | DeliverGlobal(p: nat)
    | Receive(p: nat)
    | VerifyTags(p: nat)
    | ReceiverBreaks(p: nat, cut: Cut)
    | ReceiverFinishes(p: nat)

  predicate Init(w: World) {
    && S.Init(w.s) && |w.ports| == |w.s.threads| && w.written == {}
    && forall p :: 0 <= p < |w.ports| ==>
                     w.ports[p] == Port(Up, false, Checkpoint(0, 0, 0, 0, true), [], true, false, [], [], NOTHING)
  }

  /** The step of the sender system that is part of this one, if any. */
  function SenderPart(w: World, step: Step): Option<S.Step>
    requires !step.Discover? ==> step.p < |w.ports|
  {
    match step
    case Discover(s) => Some(S.Discover(s))
    case Pop(p, i) => Some(S.Pop(p, i))
    case OpenOk(p) => Some(S.OpenOk(p))
    case OpenFailed(p) => Some(S.OpenFailed(p))
    case FinishSend(p, d) => Some(S.FinishSend(p, d))
    case Book(p) => Some(S.Book(p))
    case Add(p) => Some(S.Add(p))
    case AckAll(p) => Some(S.AckAll(p))
    case DeliverLocal(p) => Some(S.LocalCk(p, w.ports[p].msg))
    case DeliverGlobal(p) => Some(S.GlobalCk(p, CkOf(w.ports[p])))
    case _ => None
  }

  /** Distinct blocks of a file do not overlap, and an empty file has one block. */
  predicate Separate(enqueued: seq<Range>, s: Source) {
    forall k :: 0 <= k < |enqueued| && enqueued[k].seqId == s.meta.seqId ==>
                  && s.size > 0 && enqueued[k].from < enqueued[k].to
                  && (enqueued[k].to <= s.offset || s.offset + s.size <= enqueued[k].from)
  }

  predicate Live(p: Port) {
    p.link.Up? && p.reading
  }

  predicate Enabled(w: World, step: Step) {
    && |w.ports| == |w.s.threads|
    && (!step.Discover? ==> step.p < |w.ports|)
    && (SenderPart(w, step).Some? ==> S.Possible(w.s, SenderPart(w, step).value))
    && if step.Discover? then Separate(w.s.enqueued, step.s)
       else
         var p, th := w.ports[step.p], w.s.threads[step.p];
         match step
         case Pop(_, _) => p.link.Up?
         case SendHeader(_) => th.slot.Sending? && !p.started
         case SendData(_, k) =>
           th.slot.Sending? && p.started && Live(p) && p.pipe != []
           && p.pipe[|p.pipe| - 1].avail + k <= p.pipe[|p.pipe| - 1].blk.size
         case FinishSend(_, d) =>
           d.ok ==> p.started && (Live(p) && p.pipe != [] ==>
                                    p.pipe[|p.pipe| - 1].avail == p.pipe[|p.pipe| - 1].blk.size)
         case SenderBreaks(_) => th.slot.Idle? && (p.link.Up? || p.link.Awaiting?)
         case SenderEnds(_) => th.slot.Idle?
         case Reconnect(_) => th.slot.Idle? && p.link.Down? && !p.reading && !p.finished
         case DeliverLocal(_) => p.link.Awaiting?
         case DeliverGlobal(_) => p.finished
         case Receive(_) => p.reading && p.pipe != [] && p.pipe[0].avail == p.pipe[0].blk.size
         case VerifyTags(_) => w.tags
         case ReceiverBreaks(_, cut) =>
           p.reading && (!cut.BetweenBlocks? ==> p.pipe != [])
           && (cut.InData? ==> cut.k <= p.pipe[0].avail && cut.k < p.pipe[0].blk.size)
         case ReceiverFinishes(_) => !p.reading
         case _ => true
  }

  function PortAfter(w: World, step: Step): Port
    requires Enabled(w, step) && !step.Discover?
  {
    var p, th := w.ports[step.p], w.s.threads[step.p];
    match step
    case OpenOk(_) => p.(started := false)
    case SendHeader(_) =>
      p.(started := true, pipe := if Live(p) then p.pipe + [Item(BlkOf(th.slot.s), 0)] else p.pipe)
    case SendData(_, k) =>
      var last := |p.pipe| - 1;
      p.(pipe := p.pipe[last := p.pipe[last].(avail := p.pipe[last].avail + k)])
    case FinishSend(_, d) => if d.ok then p else p.(link := Down)
    case Add(_) => if th.hist.global then p.(link := Ended) else p
    case SenderBreaks(_) => p.(link := Down)
    case SenderEnds(_) => p.(link := Ended)
    case Reconnect(_) => p.(link := Awaiting, msg := CkOf(p), reading := true)
    case DeliverLocal(_) =>
      p.(link := if CheckpointStatus(th.hist, p.msg, false) == InvalidCheckpoint then Ended else Up)
    case Receive(_) =>
      var b := p.pipe[0].blk;
      if w.tags then p.(pipe := p.pipe[1..], partial := NOTHING, waiting := p.waiting + [b])
      else p.(pipe := p.pipe[1..], partial := NOTHING, verified := p.verified + [b])
    case VerifyTags(_) => p.(verified := p.verified + p.waiting, waiting := [])
    case ReceiverBreaks(_, cut) =>
      p.(reading := false, pipe := [], waiting := [],
         partial := match cut
           case BetweenBlocks => p.partial
           case InHeader => NOTHING
           case InData(k) => if w.tags || w.footers then NOTHING
                             else Partial(p.pipe[0].blk.seqId, p.pipe[0].blk.offset, k))
    case ReceiverFinishes(_) => p.(finished := true)
    case _ => p
  }

  function WrittenAfter(w: World, step: Step): set<(nat, int)>
    requires Enabled(w, step)
  {
    match step
    case Receive(i) =>
      var b := w.ports[i].pipe[0].blk;
      w.written + Positions(b.seqId, b.offset, b.offset + b.size)
    case ReceiverBreaks(i, InData(k)) =>
      var b := w.ports[i].pipe[0].blk;
      w.written + Positions(b.seqId, b.offset, b.offset + k)
    case _ => w.written
  }

  function Apply(w: World, step: Step): World
    requires Enabled(w, step)
  {
    var part := SenderPart(w, step);
    w.(s := if part.Some? then S.Apply(w.s, part.value) else w.s,
       ports := if step.Discover? then w.ports else w.ports[step.p := PortAfter(w, step)],
       written := WrittenAfter(w, step))
  }

  ghost predicate IsRun(run: seq<World>, steps: seq<Step>) {
    && |run| == |steps| + 1 && Init(run[0])
    && forall i :: 0 <= i < |steps| ==> Enabled(run[i], steps[i]) && run[i + 1] == Apply(run[i], steps[i])
  }

  lemma RunExtends(run: seq<World>, steps: seq<Step>, step: Step, w': World)
    requires IsRun(run, steps) && Enabled(run[|steps|], step) && w' == Apply(run[|steps|], step)
    ensures IsRun(run + [w'], steps + [step]) && (run + [w'])[|steps + [step]|] == w'
  {
    var run', steps' := run + [w'], steps + [step];
    forall i | 0 <= i < |steps'| ensures Enabled(run'[i], steps'[i]) && run'[i + 1] == Apply(run'[i], steps'[i]) {
      if i < |steps| {
        assert run'[i] == run[i] && run'[i + 1] == run[i + 1] && steps'[i] == steps[i];
      } else {
        assert run'[i] == run[|steps|] && run'[i + 1] == w' && steps'[i] == step;
      }
    }
  }

  // ---- the invariant of one port

  /** The block under way, once its header has been written. */
  function InFlight(th: S.Thread, p: Port): seq<Blk> {
    if p.started && (th.slot.Sending? || th.slot.Booked? || th.slot.Sent?) then [BlkOf(th.slot.s)] else []
  }

  /** Everything this port has sent and still answers for, in order. */
  function SentBlks(th: S.Thread, p: Port): seq<Blk> {
    Blks(th.hist.sources) + InFlight(th, p)
  }

  /** What the receiver has, and will read, in order. */
  function Reaching(p: Port): seq<Blk> {
    p.verified + p.waiting + PipeBlks(p.pipe)
  }

  /** The receiver's blocks are a prefix of the sender's, and all of them while the connection is up. */
  predicate Stream(th: S.Thread, p: Port) {
    && Reaching(p) <= SentBlks(th, p)
    && (Live(p) ==> Reaching(p) == SentBlks(th, p))
    && (!p.reading ==> p.waiting == [] && p.pipe == [])
    && (p.finished ==> !p.reading)
    && ((th.slot.Booked? || th.slot.Sent?) && !p.started ==> !p.link.Up?)
    && (p.link.Ended? ==> th.slot.Idle?)
    && (p.link.Awaiting? ==> th.slot.Idle? && p.pipe == [] && p.waiting == [] && p.msg == CkOf(p))
  }

  /** The partial record is about the first block not yet verified. */
  predicate Current(th: S.Thread, p: Port) {
    && |p.verified| < |SentBlks(th, p)|
    && var b := SentBlks(th, p)[|p.verified|];
       b.seqId == p.partial.seqId && b.offset == p.partial.offset && p.partial.bytes < b.size
  }

  predicate Credited(st: S.State, seqId: nat, offset: int) {
    Times(st.credited, seqId, offset) > 0
  }

  /** The partial record has been credited already, by the checkpoint on record. */
  predicate Stale(st: S.State, th: S.Thread, p: Port) {
    && Credited(st, p.partial.seqId, p.partial.offset)
    && (th.hist.last == Some(CkOf(p)) || p.link.Ended?)
  }

  predicate PartialOk(w: World, th: S.Thread, p: Port) {
    && (!w.tags ==> p.waiting == [])
    && (p.partial.bytes > 0 ==>
          && !w.tags && !w.footers && (Current(th, p) || Stale(w.s, th, p))
          && Positions(p.partial.seqId, p.partial.offset, p.partial.offset + p.partial.bytes) <= w.written)
  }

  /** The checkpoint on record is not ahead of the receiver, and agrees with it on a block both count. */
  predicate LastOk(w: World, th: S.Thread, p: Port) {
    th.hist.last.Some? ==>
      var last := th.hist.last.value;
      && last.numBlocks <= |p.verified| && last.hasSeqId
      && (last.bytes > 0 ==> !w.tags && !w.footers && (Credited(w.s, last.seqId, last.offset) || p.finished))
      && (last.numBlocks == |p.verified| && SameBlock(last, CkOf(p)) && last.bytes > 0 && p.partial.bytes > 0
          ==> last.bytes == p.partial.bytes)
  }

  predicate GlobalOk(th: S.Thread, p: Port) {
    th.hist.global ==>
      && p.finished && |th.hist.sources| == |p.verified|
      && (if th.hist.last.None? then p.link.Ended? && th.slot.Idle? else th.hist.last.value == CkOf(p))
  }

  predicate VerifiedWritten(w: World, p: Port) {
    && (forall k :: 0 <= k < |p.verified| ==>
                      Positions(p.verified[k].seqId, p.verified[k].offset, p.verified[k].offset + p.verified[k].size)
                      <= w.written)
    && (forall k :: 0 <= k < |p.waiting| ==>
                      Positions(p.waiting[k].seqId, p.waiting[k].offset, p.waiting[k].offset + p.waiting[k].size)
                      <= w.written)
  }

  predicate PortInv(w: World, i: nat)
    requires i < |w.ports| == |w.s.threads|
  {
    var th, p := w.s.threads[i], w.ports[i];
    Stream(th, p) && PartialOk(w, th, p) && LastOk(w, th, p) && GlobalOk(th, p) && VerifiedWritten(w, p)
  }

  // ---- the invariant of the whole system

  /** The enqueued log: blocks of one file are non-empty and disjoint, or there is only one. */
  predicate EnqueuedOk(enq: seq<Range>) {
    forall j, k :: 0 <= j < k < |enq| && enq[j].seqId == enq[k].seqId ==>
                     && enq[j].from < enq[j].to && enq[k].from < enq[k].to
                     && (enq[j].to <= enq[k].from || enq[k].to <= enq[j].from)
  }

  /** Only the block of an empty file is empty. */
  predicate EmptyOk(enq: seq<Range>, s: Source) {
    s.size == 0 ==> exists k :: 0 <= k < |enq| && enq[k].seqId == s.meta.seqId && enq[k].from == enq[k].to
  }

  predicate EmptiesOk(st: S.State) {
    && (forall i :: 0 <= i < |st.queue| ==> EmptyOk(st.enqueued, st.queue[i]))
    && (forall t :: 0 <= t < |st.threads| ==>
                      && (!st.threads[t].slot.Idle? ==> EmptyOk(st.enqueued, st.threads[t].slot.s))
                      && forall k :: 0 <= k < |st.threads[t].hist.sources| ==>
                                       EmptyOk(st.enqueued, st.threads[t].hist.sources[k]))
  }

  predicate CreditedWritten(w: World) {
    forall k :: 0 <= k < |w.s.credited| ==>
                  Positions(w.s.credited[k].seqId, w.s.credited[k].from, w.s.credited[k].to) <= w.written
  }

  ghost predicate Inv(w: World) {
    && |w.ports| == |w.s.threads|
    && S.Inv(w.s) && EnqueuedOk(w.s.enqueued) && EmptiesOk(w.s) && CreditedWritten(w)
    && forall i :: 0 <= i < |w.ports| ==> PortInv(w, i)
  }

  lemma {:induction false} TimesPositive(rs: seq<Range>, seqId: nat, pos: int)
    ensures Times(rs, seqId, pos) > 0 <==>
            exists k :: 0 <= k < |rs| && rs[k].seqId == seqId && rs[k].from <= pos < rs[k].to
  {
    if rs != [] {
      var n := |rs| - 1;
      TimesPositive(rs[..n], seqId, pos);
      assert forall k :: 0 <= k < n ==> rs[..n][k] == rs[k];
    }
  }

  lemma {:induction false} EnqueuedOnce(enq: seq<Range>, seqId: nat, pos: int)
    requires EnqueuedOk(enq)
    ensures Times(enq, seqId, pos) <= 1
  {
    if enq != [] {
      var n := |enq| - 1;
      assert forall k :: 0 <= k < n ==> enq[..n][k] == enq[k];
      EnqueuedOnce(enq[..n], seqId, pos);
      TimesPositive(enq[..n], seqId, pos);
    }
  }

  lemma {:induction false} TotalAtLeast(ths: seq<S.Thread>, t: nat, seqId: nat, pos: int)
    requires t < |ths|
    ensures S.Total(S.Holds(Owed(seqId, pos)), ths) >= S.ThreadValue(S.Holds(Owed(seqId, pos)), ths[t])
  {
    var n := |ths| - 1;
    SumOwed(ths[n].hist.sources, seqId, pos);
    if t == n {
      S.TotalOwed(ths[..n], seqId, pos);
    } else {
      TotalAtLeast(ths[..n], t, seqId, pos);
    }
  }

  /** `s` is held by thread `t`, as its current source or in its history. */
  predicate HeldBy(th: S.Thread, s: Source) {
    (!th.slot.Idle? && th.slot.s == s) || s in th.hist.sources
  }

  /** A credited position is no longer the start of any block a thread holds. */
  lemma NothingHeldAtCredited(w: World, t: nat, s: Source, seqId: nat, offset: int)
    requires Inv(w) && t < |w.s.threads| && HeldBy(w.s.threads[t], s)
    requires Credited(w.s, seqId, offset)
    ensures !(s.meta.seqId == seqId && s.offset == offset)
  {
    var th, m := w.s.threads[t], Owed(seqId, offset);
    if s.meta.seqId == seqId && s.offset == offset {
      assert S.Balanced(m, w.s);
      SumOwed(w.s.queue, seqId, offset);
      SumOwed(w.s.failed, seqId, offset);
      TotalAtLeast(w.s.threads, t, seqId, offset);
      SumOwed(th.hist.sources, seqId, offset);
      EnqueuedOnce(w.s.enqueued, seqId, offset);
      TimesPositive(w.s.enqueued, seqId, offset);
      assert false;
    }
  }

  /** What the receiver's checkpoint credits to a held block: nothing, or fewer bytes than the block has. */
  lemma CreditInside(w: World, i: nat, s: Source)
    requires Inv(w) && i < |w.ports| && HeldBy(w.s.threads[i], s)
    requires w.ports[i].partial.bytes > 0 && Current(w.s.threads[i], w.ports[i])
             ==> BlkOf(s) == SentBlks(w.s.threads[i], w.ports[i])[|w.ports[i].verified|]
    ensures var c := Credit(s, Some(CkOf(w.ports[i])));
            c == 0 || (c == w.ports[i].partial.bytes && c < s.size && Current(w.s.threads[i], w.ports[i]))
  {
    var p, th := w.ports[i], w.s.threads[i];
    assert PortInv(w, i);
    if p.partial.bytes > 0 && !Current(th, p) {
      NothingHeldAtCredited(w, i, s, p.partial.seqId, p.partial.offset);
    }
  }

  /** Every step of the protocol is a step of the sender system: credits never leave their block. */
  lemma StepInside(w: World, step: Step)
    requires Inv(w) && Enabled(w, step) && SenderPart(w, step).Some?
    ensures S.Enabled(w.s, SenderPart(w, step).value)
  {
    if !step.Discover? {
      var p, th := w.ports[step.p], w.s.threads[step.p];
      assert PortInv(w, step.p);
      var n := |p.verified|;
      if step.DeliverLocal? || step.DeliverGlobal? {
        if n < |th.hist.sources| {
          assert SentBlks(th, p)[n] == BlkOf(th.hist.sources[n]);
          assert S.Accounted(th.hist.sources[n]);
          CreditInside(w, step.p, th.hist.sources[n]);
        }
      } else if step.Add? && th.hist.global {
        assert n < |SentBlks(th, p)| ==> SentBlks(th, p)[n] == BlkOf(th.slot.s);
        assert S.SlotOk(th.slot);
        CreditInside(w, step.p, th.slot.s);
      }
    }
  }

  // ---- every step keeps the invariant

  lemma CreditedGrows(w: World, w': World, seqId: nat, offset: int)
    requires w.s.credited <= w'.s.credited
    ensures Credited(w.s, seqId, offset) ==> Credited(w'.s, seqId, offset)
  {
    TimesPositive(w.s.credited, seqId, offset);
    TimesPositive(w'.s.credited, seqId, offset);
    assert forall k :: 0 <= k < |w.s.credited| ==> w'.s.credited[k] == w.s.credited[k];
  }

  /** A port that does not take part keeps its invariant. */
  lemma OtherPortKeeps(w: World, w': World, i: nat)
    requires i < |w.ports| == |w.s.threads| && |w'.ports| == |w'.s.threads| == |w.ports|
    requires PortInv(w, i) && w'.ports[i] == w.ports[i] && w'.s.threads[i] == w.s.threads[i]
    requires w.s.credited <= w'.s.credited && w.written <= w'.written
    requires w'.tags == w.tags && w'.footers == w.footers
    ensures PortInv(w', i)
  {
    var p, last := w.ports[i], w.s.threads[i].hist.last;
    CreditedGrows(w, w', p.partial.seqId, p.partial.offset);
    if last.Some? {
      CreditedGrows(w, w', last.value.seqId, last.value.offset);
    }
  }

  /** A step that changes neither the blocks of the stream nor what the receiver knows. */
  lemma SameStreamKeeps(w: World, w': World, i: nat)
    requires i < |w.ports| == |w.s.threads| && |w'.ports| == |w'.s.threads| == |w.ports|
    requires w'.s.credited == w.s.credited && w'.written == w.written
    requires w'.tags == w.tags && w'.footers == w.footers
    requires PortInv(w, i)
    requires var p, p', th, th' := w.ports[i], w'.ports[i], w.s.threads[i], w'.s.threads[i];
             && p'.verified == p.verified && p'.waiting == p.waiting && p'.partial == p.partial
             && p'.finished == p.finished && (Live(p') ==> Live(p)) && (p.link.Ended? ==> p'.link.Ended?)
             && PipeBlks(p'.pipe) == PipeBlks(p.pipe)
             && th'.hist.sources == th.hist.sources && th'.hist.last == th.hist.last
             && th'.hist.global == th.hist.global && (p.link.Ended? ==> th'.slot.Idle?)
             && SentBlks(th', p') == SentBlks(th, p)
             && (!p'.reading ==> p'.waiting == [] && p'.pipe == []) && (p'.finished ==> !p'.reading)
             && ((th'.slot.Booked? || th'.slot.Sent?) && !p'.started ==> !p'.link.Up?)
             && (p'.link.Ended? ==> th'.slot.Idle?)
             && (p'.link.Awaiting? ==> th'.slot.Idle? && p'.pipe == [] && p'.waiting == [] && p'.msg == CkOf(p'))
    ensures PortInv(w', i)
  {
  }

  /** The thread moves its current source along; the port does not change. */
  lemma SlotStepKeepsPort(w: World, step: Step)
    requires step.Pop? || step.OpenFailed? || step.Book? || step.AckAll?
    requires Enabled(w, step) && PortInv(w, step.p)
    ensures PortInv(Apply(w, step), step.p)
  {
    var w' := Apply(w, step);
    assert SentBlks(w'.s.threads[step.p], w'.ports[step.p]) == SentBlks(w.s.threads[step.p], w.ports[step.p]);
    SameStreamKeeps(w, w', step.p);
  }

  lemma SendStepKeepsPort(w: World, step: Step)
    requires step.OpenOk? || step.FinishSend? || step.SendData?
    requires Enabled(w, step) && PortInv(w, step.p)
    ensures PortInv(Apply(w, step), step.p)
  {
    var w' := Apply(w, step);
    assert PipeBlks(w'.ports[step.p].pipe) == PipeBlks(w.ports[step.p].pipe);
    assert SentBlks(w'.s.threads[step.p], w'.ports[step.p]) == SentBlks(w.s.threads[step.p], w.ports[step.p]);
    SameStreamKeeps(w, w', step.p);
  }

  lemma LinkStepKeepsPort(w: World, step: Step)
    requires step.SenderBreaks? || step.SenderEnds? || step.Reconnect?
    requires Enabled(w, step) && PortInv(w, step.p)
    ensures PortInv(Apply(w, step), step.p)
  {
    var w' := Apply(w, step);
    assert SentBlks(w'.s.threads[step.p], w'.ports[step.p]) == SentBlks(w.s.threads[step.p], w.ports[step.p]);
    SameStreamKeeps(w, w', step.p);
  }

  lemma SendHeaderKeepsPort(w: World, i: nat)
    requires Enabled(w, SendHeader(i)) && PortInv(w, i)
    ensures PortInv(Apply(w, SendHeader(i)), i)
  {
    var w' := Apply(w, SendHeader(i));
    var p, p', th := w.ports[i], w'.ports[i], w.s.threads[i];
    var b := BlkOf(th.slot.s);
    assert SentBlks(th, p') == SentBlks(th, p) + [b];
    if Live(p) {
      assert PipeBlks(p'.pipe) == PipeBlks(p.pipe) + [b];
      assert Reaching(p') == Reaching(p) + [b];
    }
  }

  lemma AddKeepsPort(w: World, i: nat)
    requires Enabled(w, Add(i)) && PortInv(w, i) && !w.s.threads[i].hist.global
    ensures PortInv(Apply(w, Add(i)), i)
  {
    var w' := Apply(w, Add(i));
    var p, p', th, th' := w.ports[i], w'.ports[i], w.s.threads[i], w'.s.threads[i];
    assert Blks(th'.hist.sources) == Blks(th.hist.sources) + [BlkOf(th.slot.s)];
    assert p.started ==> SentBlks(th', p') == SentBlks(th, p);
    assert SentBlks(th, p) <= SentBlks(th', p');
  }

  /** The port has been given up: its last source goes back with what the final checkpoint credits. */
  lemma AddAfterGlobalKeepsPort(w: World, i: nat)
    requires Enabled(w, Add(i)) && PortInv(w, i) && w.s.threads[i].hist.global
    ensures PortInv(Apply(w, Add(i)), i)
  {
    var w' := Apply(w, Add(i));
    var p, p', th, th' := w.ports[i], w'.ports[i], w.s.threads[i], w'.s.threads[i];
    CreditedGrows(w, w', p.partial.seqId, p.partial.offset);
    assert SentBlks(th', p') == Blks(th.hist.sources);
    assert Reaching(p) == Reaching(p') == p.verified;
    assert p.verified == SentBlks(th, p)[..|th.hist.sources|] == Blks(th.hist.sources);
    if p.partial.bytes > 0 && Current(th, p) {
      S.TimesOne(w.s.credited, CreditedRange(th.slot.s, th.hist.last), p.partial.seqId, p.partial.offset);
    }
  }

  /** An accepted checkpoint leaves in the history exactly the blocks the receiver has verified. */
  lemma TruncationExact(w: World, i: nat, global: bool)
    requires Inv(w) && i < |w.ports|
    requires CheckpointStatus(w.s.threads[i].hist, CkOf(w.ports[i]), global) != InvalidCheckpoint
    ensures Blks(AfterCheckpoint(w.s.threads[i].hist, CkOf(w.ports[i]), global).sources) == w.ports[i].verified
  {
    var p, th := w.ports[i], w.s.threads[i];
    assert PortInv(w, i);
    assert p.verified <= Reaching(p);
    var kept := Blks(th.hist.sources[..|p.verified|]);
    forall k | 0 <= k < |p.verified| ensures kept[k] == p.verified[k] {
      assert p.verified[k] == SentBlks(th, p)[k];
    }
  }

  /** What happens to the partial record when the receiver's own checkpoint is applied. */
  lemma CkCreditsPartial(w: World, i: nat, global: bool)
    requires Inv(w) && i < |w.ports| && w.ports[i].partial.bytes > 0
    requires CheckpointStatus(w.s.threads[i].hist, CkOf(w.ports[i]), global) != InvalidCheckpoint
    requires w.s.threads[i].slot.Idle? || |w.ports[i].verified| < |w.s.threads[i].hist.sources|
    ensures Credited(S.ApplyCk(w.s, i, CkOf(w.ports[i]), global), w.ports[i].partial.seqId, w.ports[i].partial.offset)
  {
    var p, th := w.ports[i], w.s.threads[i];
    var n := |p.verified|;
    assert PortInv(w, i);
    TimesConcat(w.s.credited, CreditedBy(th.hist, CkOf(p), global), p.partial.seqId, p.partial.offset);
    if !Credited(w.s, p.partial.seqId, p.partial.offset) {
      assert Current(th, p) && n < |th.hist.sources|;
      assert SentBlks(th, p)[n] == BlkOf(th.hist.sources[n]);
      var r := CreditedRange(th.hist.sources[n], Some(CkOf(p)));
      assert [r][..0] == [];
    }
  }

  /** Applying the receiver's checkpoint, whether it comes over the port or by way of another one. */
  lemma CkKeepsPort(w: World, w': World, i: nat, global: bool)
    requires Inv(w) && i < |w.ports| && w'.s == S.ApplyCk(w.s, i, CkOf(w.ports[i]), global)
    requires w'.written == w.written && w'.tags == w.tags && w'.footers == w.footers && |w'.ports| == |w.ports|
    requires w'.ports[i] == w.ports[i].(link := w'.ports[i].link)
    requires if global then w'.ports[i].link == w.ports[i].link && w.ports[i].finished
             else w.ports[i].link.Awaiting? && w'.ports[i].link.Up?
    requires CheckpointStatus(w.s.threads[i].hist, CkOf(w.ports[i]), global) != InvalidCheckpoint
    ensures PortInv(w', i)
  {
    var p, p', th, th' := w.ports[i], w'.ports[i], w.s.threads[i], w'.s.threads[i];
    assert PortInv(w, i);
    TruncationExact(w, i, global);
    assert SentBlks(th', p') == p.verified + InFlight(th, p);
    assert Reaching(p) == Reaching(p') == p.verified;
    if p.partial.bytes > 0 {
      CreditedGrows(w, w', p.partial.seqId, p.partial.offset);
      if th.slot.Idle? || |p.verified| < |th.hist.sources| {
        CkCreditsPartial(w, i, global);
      } else {
        assert SentBlks(th', p') == SentBlks(th, p);
      }
    }
  }

  lemma DeliverKeepsPort(w: World, step: Step)
    requires Inv(w) && Enabled(w, step) && (step.DeliverLocal? || step.DeliverGlobal?)
    ensures PortInv(Apply(w, step), step.p)
  {
    var i, global := step.p, step.DeliverGlobal?;
    var w' := Apply(w, step);
    assert PortInv(w, i);
    assert w'.s == S.ApplyCk(w.s, i, CkOf(w.ports[i]), global);
    if CheckpointStatus(w.s.threads[i].hist, CkOf(w.ports[i]), global) != InvalidCheckpoint {
      CkKeepsPort(w, w', i, global);
    } else {
      RejectedKeepsPort(w, step);
    }
  }

  lemma RejectedKeepsPort(w: World, step: Step)
    requires Inv(w) && Enabled(w, step) && (step.DeliverLocal? || step.DeliverGlobal?)
    requires CheckpointStatus(w.s.threads[step.p].hist, CkOf(w.ports[step.p]), step.DeliverGlobal?) == InvalidCheckpoint
    ensures PortInv(Apply(w, step), step.p)
  {
    var i, w' := step.p, Apply(w, step);
    assert PortInv(w, i);
    assert w'.s.credited == w.s.credited + [] == w.s.credited;
    assert SentBlks(w'.s.threads[i], w'.ports[i]) == SentBlks(w.s.threads[i], w.ports[i]);
    SameStreamKeeps(w, w', i);
  }

  /** Reading the next block moves it from the pipe to the waiting or the verified blocks. */
  lemma ReachingSame(p: Port, p': Port, b: Blk, tags: bool)
    requires p.pipe != [] && b == p.pipe[0].blk && p'.pipe == p.pipe[1..] && (!tags ==> p.waiting == [])
    requires if tags then p'.verified == p.verified && p'.waiting == p.waiting + [b]
             else p'.verified == p.verified + [b] && p'.waiting == p.waiting
    ensures Reaching(p') == Reaching(p)
  {
    assert PipeBlks(p.pipe) == [b] + PipeBlks(p'.pipe);
  }

  lemma ReceiveKeepsPort(w: World, w': World, i: nat, b: Blk)
    requires i < |w.ports| == |w.s.threads| && |w'.ports| == |w.ports| && w'.s == w.s
    requires PortInv(w, i) && w.ports[i].reading && w.ports[i].pipe != [] && b == w.ports[i].pipe[0].blk
    requires w'.tags == w.tags && w'.footers == w.footers
    requires w'.written == w.written + Positions(b.seqId, b.offset, b.offset + b.size)
    requires var p := w.ports[i];
             w'.ports[i] == if w.tags then p.(pipe := p.pipe[1..], partial := NOTHING, waiting := p.waiting + [b])
                            else p.(pipe := p.pipe[1..], partial := NOTHING, verified := p.verified + [b])
    ensures PortInv(w', i)
  {
    var p, p', th := w.ports[i], w'.ports[i], w.s.threads[i];
    ReachingSame(p, p', b, w.tags);
    assert SentBlks(th, p') == SentBlks(th, p);
    assert VerifiedWritten(w', p');
  }

  lemma VerifyKeepsPort(w: World, i: nat)
    requires Enabled(w, VerifyTags(i)) && PortInv(w, i)
    ensures PortInv(Apply(w, VerifyTags(i)), i)
  {
    var w' := Apply(w, VerifyTags(i));
    var p, p', th := w.ports[i], w'.ports[i], w.s.threads[i];
    assert Reaching(p') == Reaching(p);
    assert InFlight(th, p') == InFlight(th, p);
  }

  lemma FinishKeepsPort(w: World, i: nat)
    requires Enabled(w, ReceiverFinishes(i)) && PortInv(w, i)
    ensures PortInv(Apply(w, ReceiverFinishes(i)), i)
  {
    var w' := Apply(w, ReceiverFinishes(i));
    var p, p', th := w.ports[i], w'.ports[i], w.s.threads[i];
    assert Reaching(p') == Reaching(p);
    assert InFlight(th, p') == InFlight(th, p);
  }

  lemma BreakKeepsPort(w: World, i: nat, cut: Cut)
    requires Inv(w) && Enabled(w, ReceiverBreaks(i, cut))
    ensures PortInv(Apply(w, ReceiverBreaks(i, cut)), i)
  {
    var w' := Apply(w, ReceiverBreaks(i, cut));
    var p, p', th := w.ports[i], w'.ports[i], w.s.threads[i];
    assert PortInv(w, i);
    assert Reaching(p') == p.verified <= Reaching(p);
    if p'.partial.bytes > 0 && cut.InData? {
      FirstUnverified(w, i);
    }
  }

  /** The block being read is the first one not verified, and has not been credited. */
  lemma FirstUnverified(w: World, i: nat)
    requires Inv(w) && i < |w.ports| && w.ports[i].pipe != [] && w.ports[i].waiting == []
    ensures var p, th := w.ports[i], w.s.threads[i];
            var n, b := |p.verified|, p.pipe[0].blk;
            && n < |SentBlks(th, p)| && SentBlks(th, p)[n] == b
            && (th.hist.last.Some? && Credited(w.s, th.hist.last.value.seqId, th.hist.last.value.offset) ==>
                  !(th.hist.last.value.seqId == b.seqId && th.hist.last.value.offset == b.offset))
  {
    var p, th := w.ports[i], w.s.threads[i];
    var n, b := |p.verified|, p.pipe[0].blk;
    assert PortInv(w, i);
    assert Reaching(p)[n] == b;
    assert SentBlks(th, p)[n] == b;
    var s := if n < |th.hist.sources| then th.hist.sources[n] else th.slot.s;
    assert BlkOf(s) == b;
    if th.hist.last.Some? && Credited(w.s, th.hist.last.value.seqId, th.hist.last.value.offset) {
      NothingHeldAtCredited(w, i, s, th.hist.last.value.seqId, th.hist.last.value.offset);
    }
  }

  lemma SenderPortKeeps(w: World, step: Step)
    requires !step.Discover? && !step.Receive? && !step.VerifyTags? && !step.ReceiverBreaks? && !step.ReceiverFinishes?
    requires !step.DeliverLocal? && !step.DeliverGlobal? && Enabled(w, step) && PortInv(w, step.p)
    ensures PortInv(Apply(w, step), step.p)
  {
    match step
    case SendHeader(i) => SendHeaderKeepsPort(w, i);
    case Add(i) =>
      if w.s.threads[i].hist.global {
        AddAfterGlobalKeepsPort(w, i);
      } else {
        AddKeepsPort(w, i);
      }
    case OpenOk(_) => SendStepKeepsPort(w, step);
    case FinishSend(_, _) => SendStepKeepsPort(w, step);
    case SendData(_, _) => SendStepKeepsPort(w, step);
    case SenderBreaks(_) => LinkStepKeepsPort(w, step);
    case SenderEnds(_) => LinkStepKeepsPort(w, step);
    case Reconnect(_) => LinkStepKeepsPort(w, step);
    case _ => SlotStepKeepsPort(w, step);
  }

  lemma ReceiverPortKeeps(w: World, step: Step)
    requires step.Receive? || step.VerifyTags? || step.ReceiverBreaks? || step.ReceiverFinishes?
    requires Inv(w) && Enabled(w, step)
    ensures PortInv(Apply(w, step), step.p)
  {
    assert PortInv(w, step.p);
    match step
    case Receive(i) => ReceiveKeepsPort(w, Apply(w, step), i, w.ports[i].pipe[0].blk);
    case VerifyTags(i) => VerifyKeepsPort(w, i);
    case ReceiverFinishes(i) => FinishKeepsPort(w, i);
    case ReceiverBreaks(i, cut) => BreakKeepsPort(w, i, cut);
  }

  /** A step touches one port and one thread, and only adds to the logs. */
  lemma StepFrame(w: World, step: Step)
    requires Enabled(w, step)
    ensures var w' := Apply(w, step);
            && |w'.ports| == |w.ports| == |w'.s.threads|
            && w.s.credited <= w'.s.credited && w.s.enqueued <= w'.s.enqueued && w.written <= w'.written
            && w'.tags == w.tags && w'.footers == w.footers
            && forall i :: 0 <= i < |w.ports| && (step.Discover? || i != step.p) ==>
                             w'.ports[i] == w.ports[i] && w'.s.threads[i] == w.s.threads[i]
  {
  }

  lemma StepKeepsPorts(w: World, step: Step)
    requires Inv(w) && Enabled(w, step)
    ensures var w' := Apply(w, step);
            |w'.ports| == |w'.s.threads| && forall i :: 0 <= i < |w'.ports| ==> PortInv(w', i)
  {
    StepFrame(w, step);
    var w' := Apply(w, step);
    forall i | 0 <= i < |w'.ports| ensures PortInv(w', i) {
      if !step.Discover? && i == step.p {
        if step.Receive? || step.VerifyTags? || step.ReceiverBreaks? || step.ReceiverFinishes? {
          ReceiverPortKeeps(w, step);
        } else if step.DeliverLocal? || step.DeliverGlobal? {
          DeliverKeepsPort(w, step);
        } else {
          assert PortInv(w, i);
          SenderPortKeeps(w, step);
        }
      } else {
        assert PortInv(w, i);
        OtherPortKeeps(w, w', i);
      }
    }
  }

  lemma EmptyGrows(enq: seq<Range>, enq': seq<Range>, s: Source)
    requires enq <= enq' && EmptyOk(enq, s)
    ensures EmptyOk(enq', s)
  {
    assert forall k :: 0 <= k < |enq| ==> enq'[k] == enq[k];
  }

  /** Crediting fewer bytes than a block has never empties it. */
  lemma FailTailEmpties(enq: seq<Range>, h: seq<Source>, n: nat, ck: Checkpoint)
    requires n <= |h| && forall k :: 0 <= k < |h| ==> EmptyOk(enq, h[k])
    requires n < |h| ==> Credit(h[n], Some(ck)) == 0 || Credit(h[n], Some(ck)) < h[n].size
    ensures forall k :: 0 <= k < |FailTail(h, n, ck)| ==> EmptyOk(enq, FailTail(h, n, ck)[k])
  {
    FailTailLength(h, n, ck);
    forall k | 0 <= k < |h| - n ensures EmptyOk(enq, FailTail(h, n, ck)[k]) {
      assert EmptyOk(enq, h[|h| - 1 - k]);
    }
  }

  lemma CkKeepsEmpties(st: S.State, t: nat, ck: Checkpoint, global: bool)
    requires EmptiesOk(st) && t < |st.threads|
    requires var h := st.threads[t].hist.sources;
             ck.numBlocks < |h| ==> var c := Credit(h[ck.numBlocks], Some(ck)); c == 0 || c < h[ck.numBlocks].size
    ensures EmptiesOk(S.ApplyCk(st, t, ck, global))
  {
    var st', h := S.ApplyCk(st, t, ck, global), st.threads[t].hist;
    if CheckpointStatus(h, ck, global) != InvalidCheckpoint {
      FailTailEmpties(st.enqueued, h.sources, ck.numBlocks, ck);
    }
    assert forall u :: 0 <= u < |st.threads| && u != t ==> st'.threads[u] == st.threads[u];
  }

  lemma SlotStepKeepsEmpties(st: S.State, step: S.Step)
    requires EmptiesOk(st) && S.Possible(st, step)
    requires step.Pop? || step.OpenOk? || step.OpenFailed? || step.FinishSend? || step.Book? || step.AckAll?
    ensures EmptiesOk(S.Apply(st, step))
  {
    var st' := S.Apply(st, step);
    assert forall u :: 0 <= u < |st.threads| && u != step.t ==> st'.threads[u] == st.threads[u];
  }

  lemma AddKeepsEmpties(st: S.State, t: nat)
    requires EmptiesOk(st) && S.Possible(st, S.Add(t))
    requires var th := st.threads[t];
             th.hist.global ==> Credit(th.slot.s, th.hist.last) == 0 || Credit(th.slot.s, th.hist.last) < th.slot.s.size
    ensures EmptiesOk(S.Apply(st, S.Add(t)))
  {
    var st' := S.Apply(st, S.Add(t));
    assert EmptyOk(st.enqueued, st.threads[t].slot.s);
    assert forall u :: 0 <= u < |st.threads| && u != t ==> st'.threads[u] == st.threads[u];
  }

  lemma DiscoverKeepsEmpties(st: S.State, s: Source)
    requires EmptiesOk(st) && S.Possible(st, S.Discover(s)) && Separate(st.enqueued, s) && EnqueuedOk(st.enqueued)
    ensures EmptiesOk(S.Apply(st, S.Discover(s))) && EnqueuedOk(S.Apply(st, S.Discover(s)).enqueued)
  {
    var st' := S.Apply(st, S.Discover(s));
    assert st.enqueued <= st'.enqueued;
    assert EmptyOk(st'.enqueued, s) by {
      assert st'.enqueued[|st.enqueued|].seqId == s.meta.seqId;
    }
    forall t, k | 0 <= t < |st.threads| && 0 <= k < |st.threads[t].hist.sources|
      ensures EmptyOk(st'.enqueued, st.threads[t].hist.sources[k])
    {
      EmptyGrows(st.enqueued, st'.enqueued, st.threads[t].hist.sources[k]);
    }
    forall t | 0 <= t < |st.threads| && !st.threads[t].slot.Idle?
      ensures EmptyOk(st'.enqueued, st.threads[t].slot.s)
    {
      EmptyGrows(st.enqueued, st'.enqueued, st.threads[t].slot.s);
    }
    forall i | 0 <= i < |st.queue| ensures EmptyOk(st'.enqueued, st.queue[i]) {
      EmptyGrows(st.enqueued, st'.enqueued, st.queue[i]);
    }
  }

  /** The range that the receiver's checkpoint credits to `s` is on disk. */
  lemma CreditWritten(w: World, i: nat, s: Source)
    requires Inv(w) && i < |w.ports|
    ensures var r := CreditedRange(s, Some(CkOf(w.ports[i])));
            Positions(r.seqId, r.from, r.to) <= w.written
  {
    assert PortInv(w, i);
  }

  predicate RangesWritten(rs: seq<Range>, written: set<(nat, int)>) {
    forall k :: 0 <= k < |rs| ==> Positions(rs[k].seqId, rs[k].from, rs[k].to) <= written
  }

  lemma CkKeepsLogs(w: World, i: nat, global: bool)
    requires Inv(w) && i < |w.ports|
    ensures EmptiesOk(S.ApplyCk(w.s, i, CkOf(w.ports[i]), global))
    ensures RangesWritten(CreditedBy(w.s.threads[i].hist, CkOf(w.ports[i]), global), w.written)
  {
    var p, th := w.ports[i], w.s.threads[i];
    var n := |p.verified|;
    if n < |th.hist.sources| {
      assert PortInv(w, i);
      assert SentBlks(th, p)[n] == BlkOf(th.hist.sources[n]);
      CreditInside(w, i, th.hist.sources[n]);
      CreditWritten(w, i, th.hist.sources[n]);
    }
    CkKeepsEmpties(w.s, i, CkOf(p), global);
  }

  lemma AddKeepsLogs(w: World, i: nat)
    requires Inv(w) && i < |w.ports| && w.s.threads[i].slot.Sent?
    ensures EmptiesOk(S.Apply(w.s, S.Add(i)))
    ensures var th := w.s.threads[i];
            th.hist.global ==> RangesWritten([CreditedRange(th.slot.s, th.hist.last)], w.written)
  {
    var p, th := w.ports[i], w.s.threads[i];
    var n := |p.verified|;
    if th.hist.global {
      assert PortInv(w, i);
      assert n < |SentBlks(th, p)| ==> SentBlks(th, p)[n] == BlkOf(th.slot.s);
      CreditInside(w, i, th.slot.s);
      CreditWritten(w, i, th.slot.s);
    }
    AddKeepsEmpties(w.s, i);
  }

  lemma StepKeepsEmpties(w: World, step: Step)
    requires Inv(w) && Enabled(w, step)
    ensures EnqueuedOk(Apply(w, step).s.enqueued) && EmptiesOk(Apply(w, step).s)
  {
    if SenderPart(w, step).Some? {
      PartKeepsEmpties(w, step, SenderPart(w, step).value);
    }
  }

  lemma PartKeepsEmpties(w: World, step: Step, part: S.Step)
    requires Inv(w) && Enabled(w, step) && SenderPart(w, step) == Some(part)
    ensures EnqueuedOk(S.Apply(w.s, part).enqueued) && EmptiesOk(S.Apply(w.s, part))
  {
    match part
    case Discover(s) => DiscoverKeepsEmpties(w.s, s);
    case LocalCk(i, _) =>
      assert PortInv(w, i);
      CkKeepsLogs(w, i, false);
    case GlobalCk(i, _) => CkKeepsLogs(w, i, true);
    case Add(i) => AddKeepsLogs(w, i);
    case _ => SlotStepKeepsEmpties(w.s, part);
  }

  lemma DeliverKeepsCredits(w: World, step: Step)
    requires Inv(w) && Enabled(w, step) && (step.DeliverLocal? || step.DeliverGlobal?)
    ensures CreditedWritten(Apply(w, step))
  {
    assert PortInv(w, step.p);
    CkKeepsLogs(w, step.p, step.DeliverGlobal?);
    assert RangesWritten(w.s.credited, w.written);
    assert Apply(w, step).s == S.ApplyCk(w.s, step.p, CkOf(w.ports[step.p]), step.DeliverGlobal?);
  }

  lemma AddKeepsCredits(w: World, i: nat)
    requires Inv(w) && Enabled(w, Add(i))
    ensures CreditedWritten(Apply(w, Add(i)))
  {
    AddKeepsLogs(w, i);
    assert RangesWritten(w.s.credited, w.written);
  }

  lemma StepKeepsCredits(w: World, step: Step)
    requires Inv(w) && Enabled(w, step)
    ensures CreditedWritten(Apply(w, step))
  {
    if step.DeliverLocal? || step.DeliverGlobal? {
      DeliverKeepsCredits(w, step);
    } else if step.Add? {
      AddKeepsCredits(w, step.p);
    } else {
      assert Apply(w, step).s.credited == w.s.credited && w.written <= Apply(w, step).written;
    }
  }

  lemma StepKeepsInv(w: World, step: Step)
    requires Inv(w) && Enabled(w, step)
    ensures Inv(Apply(w, step))
  {
    StepKeepsPorts(w, step);
    StepKeepsEmpties(w, step);
    StepKeepsCredits(w, step);
    if SenderPart(w, step).Some? {
      StepInside(w, step);
      S.StepKeepsInv(w.s, SenderPart(w, step).value);
    }
  }

  lemma InitInv(w: World)
    requires Init(w)
    ensures Inv(w)
  {
    S.RunKeepsInv([w.s], 0);
    forall i | 0 <= i < |w.ports| ensures PortInv(w, i) {
      assert w.ports[i].link.Up? && w.s.threads[i].slot.Idle?;
    }
  }

  lemma {:induction false} RunKeepsInv(run: seq<World>, steps: seq<Step>, i: nat)
    requires IsRun(run, steps) && i < |run|
    ensures Inv(run[i])
  {
    if i == 0 {
      InitInv(run[0]);
    } else {
      RunKeepsInv(run, steps, i - 1);
      StepKeepsInv(run[i - 1], steps[i - 1]);
    }
  }

  // ---- the results

  /** On every port of every run, the verified blocks are the first blocks that its sender still answers for. */
  lemma VerifiedIsPrefixOfSent(run: seq<World>, steps: seq<Step>, i: nat, p: nat)
    requires IsRun(run, steps) && i < |run| && p < |run[i].ports|
    ensures p < |run[i].s.threads| && run[i].ports[p].verified <= SentBlks(run[i].s.threads[p], run[i].ports[p])
  {
    RunKeepsInv(run, steps, i);
    assert PortInv(run[i], p);
    assert run[i].ports[p].verified <= Reaching(run[i].ports[p]);
  }

  /** An accepted checkpoint, local or global, drops from the history only blocks that are not verified. */
  lemma CheckpointExact(run: seq<World>, steps: seq<Step>, i: nat)
    requires IsRun(run, steps) && i < |steps| && (steps[i].DeliverLocal? || steps[i].DeliverGlobal?)
    requires var p := steps[i].p; p < |run[i].ports| && p < |run[i].s.threads| && p < |run[i + 1].s.threads|
    ensures var p := steps[i].p;
            CheckpointStatus(run[i].s.threads[p].hist, CkOf(run[i].ports[p]),
                             steps[i].DeliverGlobal?) != InvalidCheckpoint
            ==> Blks(run[i + 1].s.threads[p].hist.sources) == run[i + 1].ports[p].verified == run[i].ports[p].verified
  {
    var p, global := steps[i].p, steps[i].DeliverGlobal?;
    RunKeepsInv(run, steps, i);
    assert PortInv(run[i], p);
    if CheckpointStatus(run[i].s.threads[p].hist, CkOf(run[i].ports[p]), global) != InvalidCheckpoint {
      TruncationExact(run[i], p, global);
    }
  }

  /**
   A local checkpoint sent by the receiver is rejected exactly when the previous one named the same block with no
   bytes and this one has some, or the other way round; the sender thread then gives up with a protocol error.
   */
  lemma LocalRejectedIff(run: seq<World>, steps: seq<Step>, i: nat)
    requires IsRun(run, steps) && i < |steps| && steps[i].DeliverLocal?
    requires steps[i].p < |run[i].ports| && steps[i].p < |run[i].s.threads|
    ensures var p, h := run[i].ports[steps[i].p], run[i].s.threads[steps[i].p].hist;
            CheckpointStatus(h, p.msg, false) == InvalidCheckpoint
            <==> h.last.Some? && h.last.value.numBlocks == |p.verified| && SameBlock(h.last.value, CkOf(p))
                 && (h.last.value.bytes == 0) != (p.partial.bytes == 0)
  {
    RunKeepsInv(run, steps, i);
    var w, k := run[i], steps[i].p;
    assert PortInv(w, k);
    assert |w.ports[k].verified| <= |Reaching(w.ports[k])| <= |SentBlks(w.s.threads[k], w.ports[k])|;
  }

  /** A global one is also rejected when its last block is verified but not yet in the sender's history. */
  lemma GlobalRejectedIff(run: seq<World>, steps: seq<Step>, i: nat)
    requires IsRun(run, steps) && i < |steps| && steps[i].DeliverGlobal?
    requires steps[i].p < |run[i].ports| && steps[i].p < |run[i].s.threads|
    ensures var p, h := run[i].ports[steps[i].p], run[i].s.threads[steps[i].p].hist;
            CheckpointStatus(h, CkOf(p), true) == InvalidCheckpoint
            <==> |p.verified| == |h.sources| + 1
                 || (h.last.Some? && h.last.value.numBlocks == |p.verified| && SameBlock(h.last.value, CkOf(p))
                     && (h.last.value.bytes == 0) != (p.partial.bytes == 0))
  {
    RunKeepsInv(run, steps, i);
    var w, k := run[i], steps[i].p;
    assert PortInv(w, k);
    assert |w.ports[k].verified| <= |Reaching(w.ports[k])| <= |SentBlks(w.s.threads[k], w.ports[k])|;
  }

  /** Some source of the sequence still owes the position. */
  predicate OwedIn(ss: seq<Source>, seqId: nat, pos: int) {
    exists k :: 0 <= k < |ss| && SourceValue(Owed(seqId, pos), ss[k]) > 0
  }

  lemma {:induction false} SumPositive(ss: seq<Source>, seqId: nat, pos: int)
    requires Sum(Owed(seqId, pos), ss) > 0
    ensures OwedIn(ss, seqId, pos)
  {
    var n := |ss| - 1;
    if SourceValue(Owed(seqId, pos), ss[n]) <= 0 {
      SumPositive(ss[..n], seqId, pos);
      var k :| 0 <= k < n && SourceValue(Owed(seqId, pos), ss[..n][k]) > 0;
      assert ss[k] == ss[..n][k];
    }
  }

  lemma {:induction false} TotalPositive(ths: seq<S.Thread>, seqId: nat, pos: int)
    requires S.Total(S.Holds(Owed(seqId, pos)), ths) > 0
    ensures exists t :: 0 <= t < |ths| && S.ThreadValue(S.Holds(Owed(seqId, pos)), ths[t]) > 0
  {
    var n := |ths| - 1;
    if S.ThreadValue(S.Holds(Owed(seqId, pos)), ths[n]) <= 0 {
      TotalPositive(ths[..n], seqId, pos);
      var t :| 0 <= t < n && S.ThreadValue(S.Holds(Owed(seqId, pos)), ths[..n][t]) > 0;
      assert ths[t] == ths[..n][t];
    }
  }

  /** A position that is owed counts. */
  lemma {:induction false} OwedCounts(ss: seq<Source>, seqId: nat, pos: int)
    ensures Sum(Owed(seqId, pos), ss) >= if OwedIn(ss, seqId, pos) then 1 else 0
  {
    SumOwed(ss, seqId, pos);
    if ss != [] {
      var n := |ss| - 1;
      OwedCounts(ss[..n], seqId, pos);
      if k :| 0 <= k < n && SourceValue(Owed(seqId, pos), ss[k]) > 0 {
        assert ss[..n][k] == ss[k];
      }
    }
  }

  lemma {:induction false} TotalOfTwo(ths: seq<S.Thread>, t: nat, u: nat, seqId: nat, pos: int)
    requires t < |ths| && u < |ths| && t != u
    ensures var m := S.Holds(Owed(seqId, pos)); S.Total(m, ths) >= S.ThreadValue(m, ths[t]) + S.ThreadValue(m, ths[u])
  {
    var n := |ths| - 1;
    SumOwed(ths[n].hist.sources, seqId, pos);
    if t == n {
      TotalAtLeast(ths[..n], u, seqId, pos);
    } else if u == n {
      TotalAtLeast(ths[..n], t, seqId, pos);
    } else {
      TotalOfTwo(ths[..n], t, u, seqId, pos);
    }
  }

  /** Position still to be sent by port `t`: in its current source or in a block the receiver has not verified. */
  predicate OwedByPort(w: World, t: nat, seqId: nat, pos: int)
    requires t < |w.ports| == |w.s.threads|
  {
    var h, v := w.s.threads[t].hist.sources, |w.ports[t].verified|;
    S.SlotValue(Owed(seqId, pos), w.s.threads[t].slot) > 0 || (v <= |h| && OwedIn(h[v..], seqId, pos))
  }

  /** What a history owes in its verified part is on disk. */
  lemma VerifiedOnDisk(w: World, t: nat, seqId: nat, pos: int)
    requires Inv(w) && t < |w.ports| && OwedIn(w.s.threads[t].hist.sources, seqId, pos)
    ensures (seqId, pos) in w.written || OwedByPort(w, t, seqId, pos)
  {
    var h, p := w.s.threads[t].hist.sources, w.ports[t];
    assert PortInv(w, t);
    var k :| 0 <= k < |h| && SourceValue(Owed(seqId, pos), h[k]) > 0;
    assert p.verified <= Reaching(p);
    if k < |p.verified| {
      assert p.verified[k] == SentBlks(w.s.threads[t], p)[k] == BlkOf(h[k]);
      assert (seqId, pos) in Positions(seqId, h[k].offset, h[k].offset + h[k].size);
    } else {
      assert h[|p.verified|..][k - |p.verified|] == h[k];
    }
  }

  /** The position is on disk, or somebody still has to send it. */
  ghost predicate NotLost(w: World, seqId: nat, pos: int)
    requires |w.ports| == |w.s.threads|
  {
    || (seqId, pos) in w.written
    || OwedIn(w.s.queue, seqId, pos)
    || OwedIn(w.s.failed, seqId, pos)
    || exists t: nat :: t < |w.ports| && OwedByPort(w, t, seqId, pos)
  }

  lemma NothingIsLost(w: World, seqId: nat, pos: int)
    requires Inv(w) && Times(w.s.enqueued, seqId, pos) > 0
    ensures NotLost(w, seqId, pos)
  {
    var m := Owed(seqId, pos);
    assert S.Balanced(m, w.s);
    TimesPositive(w.s.credited, seqId, pos);
    if Times(w.s.credited, seqId, pos) > 0 {
      var k :| 0 <= k < |w.s.credited| && w.s.credited[k].seqId == seqId
               && w.s.credited[k].from <= pos < w.s.credited[k].to;
      assert (seqId, pos) in Positions(seqId, w.s.credited[k].from, w.s.credited[k].to);
    } else if Sum(m, w.s.queue) > 0 {
      SumPositive(w.s.queue, seqId, pos);
    } else if Sum(m, w.s.failed) > 0 {
      SumPositive(w.s.failed, seqId, pos);
    } else {
      TotalPositive(w.s.threads, seqId, pos);
      var t: nat :| t < |w.s.threads| && S.ThreadValue(S.Holds(m), w.s.threads[t]) > 0;
      if S.SlotValue(m, w.s.threads[t].slot) > 0 {
        assert OwedByPort(w, t, seqId, pos);
      } else {
        SumPositive(w.s.threads[t].hist.sources, seqId, pos);
        VerifiedOnDisk(w, t, seqId, pos);
      }
    }
  }

  /**
   No byte is lost: in every state of every run, each enqueued position is on disk or somebody still has to send it.
   */
  lemma NoByteLost(run: seq<World>, steps: seq<Step>, i: nat, seqId: nat, pos: int)
    requires IsRun(run, steps) && i < |run|
    requires Times(run[i].s.enqueued, seqId, pos) > 0
    ensures |run[i].ports| == |run[i].s.threads| && NotLost(run[i], seqId, pos)
  {
    RunKeepsInv(run, steps, i);
    NothingIsLost(run[i], seqId, pos);
  }

  /** Nothing queued, failed or under way, and every history verified to its end. */
  predicate Quiet(w: World) {
    && |w.ports| == |w.s.threads| && w.s.queue == [] && w.s.failed == []
    && forall t :: 0 <= t < |w.ports| ==>
                     w.s.threads[t].slot.Idle? && |w.ports[t].verified| == |w.s.threads[t].hist.sources|
  }

  /** When the transfer is quiet, every byte that was ever enqueued is on the receiver's disk. */
  lemma CompleteWhenQuiet(run: seq<World>, steps: seq<Step>, i: nat, seqId: nat, pos: int)
    requires IsRun(run, steps) && i < |run| && Quiet(run[i])
    requires Times(run[i].s.enqueued, seqId, pos) > 0
    ensures (seqId, pos) in run[i].written
  {
    NoByteLost(run, steps, i, seqId, pos);
  }
}
