/** Runs in which the checkpoint of a correctly working receiver is rejected, and runs that end, well or not. */
module CheckpointWitnesses {
  import opened Options
  import opened Sources
  import opened TransferHistory
  import opened CheckpointProtocol
  import opened Scenarios
  import S = SenderSystem
  import F = ReceiverFinish
  import E = TransferEnd

  /** A file of ten bytes. */
  const BLOCK := NewSource(MetaData([102], 10, 1, 0, NotExists), 10, 0)

  /** Everything is discovered: one file of ten bytes, and `n` new ports. */
  lemma Starts(n: nat) returns (ls: seq<Line>, g: Shared)
    ensures |ls| == n && (forall u :: 0 <= u < n ==> ls[u] == NEW_LINE) && Reached(ls, g)
    ensures g == NEW_SHARED.(queue := [BLOCK], enqueued := [Range(1, 0, 10)], listed := true)
  {
    ls, g := Begins(n);
    g := Discovers(ls, g, BLOCK);
    g := EndsListing(ls, g);
  }

  lemma TakesUp(ls: seq<Line>, g: Shared, u: nat) returns (ls': seq<Line>, g': Shared)
    requires Reached(ls, g) && u < |ls| && |g.queue| == 1
    requires ls[u].th.slot.Idle? && ls[u].p.link.Up? && ls[u].k.talk.Free?
    ensures ls' == ls[u := ls[u].(th := ls[u].th.(slot := S.Sending(g.queue[0].Opened())),
                                  p := ls[u].p.(started := false))]
    ensures g' == g.(queue := [], dequeued := g.dequeued + 1) && Reached(ls', g')
  {
    ls', g' := Pops(ls, g, u);
    ls', g' := Opens(ls', g', u);
  }

  /** The send ended with `d`, well or not, and the block goes into the history. */
  function Recorded(l: Line, d: Stats): Line
    requires l.th.slot.Sending?
  {
    var s, h := l.th.slot.s.(stats := l.th.slot.s.stats.Plus(d)), l.th.hist;
    l.(th := S.Thread(S.Idle, h.(sources := h.sources + [s]), l.th.stats.Plus(d)),
       p := if d.ok then l.p else l.p.(link := Down))
  }

  lemma Records(ls: seq<Line>, g: Shared, u: nat, d: Stats) returns (ls': seq<Line>, g': Shared)
    requires Reached(ls, g) && u < |ls| && ls[u].th.slot.Sending? && ls[u].th.slot.s.size > 0 && !ls[u].th.hist.global
    requires d == FAILED_SEND || (d == SentWell(ls[u].th.slot.s) && ls[u].p.started && ls[u].p.pipe == [])
    ensures ls' == ls[u := Recorded(ls[u], d)] && g' == g && Reached(ls', g')
  {
    ls', g' := FinishesSend(ls, g, u, d);
    ls', g' := Books(ls', g', u);
    ls', g' := Adds(ls', g', u);
  }

  /** The sender takes the only source of the queue, and the send fails. */
  lemma FailsToSend(ls: seq<Line>, g: Shared, u: nat) returns (ls': seq<Line>, g': Shared, l: Line)
    requires Reached(ls, g) && u < |ls| && |g.queue| == 1 && g.queue[0].size > 0
    requires ls[u].th.slot.Idle? && ls[u].p.link.Up? && ls[u].k.talk.Free? && !ls[u].th.hist.global
    ensures ls' == ls[u := l] && l.th.slot.Idle? && l.rt == ls[u].rt && l.k == ls[u].k && Reached(ls', g')
    ensures g' == g.(queue := [], dequeued := g'.dequeued)
  {
    ls', g' := TakesUp(ls, g, u);
    ls', g' := Records(ls', g', u, FAILED_SEND);
    l := ls'[u];
  }

  /** DONE is said and read, and the receiver thread waits for the others. */
  function Waiter(l: Line): Line {
    l.(rt := l.rt.(status := F.Waiting, phase := F.AwaitingOthers, index := l.rt.pending, doneFailed := false),
       k := l.k.(talk := E.Waits, done := false))
  }

  lemma Waits(ls: seq<Line>, g: Shared, u: nat) returns (ls': seq<Line>, g': Shared)
    requires Reached(ls, g) && u < |ls| && ls[u].th.slot.Idle? && ls[u].p.link.Up? && ls[u].p.reading
    requires ls[u].p.pipe == []
    requires ls[u].k.talk.Free? && ls[u].rt.phase == F.Reading && g.queue == [] && g.listed
    ensures ls' == ls[u := Waiter(ls[u])] && g' == g.(log := g.log + [F.Confirmed(u)]) && Reached(ls', g')
  {
    ls', g' := SaysDone(ls, g, u);
    ls', g' := ReadsDone(ls', g', u);
    ls', g' := StartsWaiting(ls', g', u);
  }

  lemma LostIfNowhere(ls: seq<Line>, g: Shared, seqId: nat, pos: int)
    requires g.queue == [] && (seqId, pos) !in g.written && forall u :: 0 <= u < |ls| ==> ls[u].th.slot.Idle?
    ensures E.Lost(WorldOf(ls, g), seqId, pos)
  {
  }

  lemma MayAnswer(ls: seq<Line>, g: Shared, u: nat)
    requires u < |ls| && ls[u].rt.phase == F.AwaitingOthers && ls[u].rt.index >= |g.checkpoints|
    requires forall x :: 0 <= x < |ls| && x != u ==> ls[x].rt.status != F.Running
    ensures F.Enabled(FinishOf(ls, g), F.FindQuiet(u))
  {
  }

  lemma IsEnqueued(g: Shared)
    requires g.enqueued == [Range(1, 0, 10)]
    ensures Times(g.enqueued, 1, 9) > 0
  {
    TimesPositive(g.enqueued, 1, 9);
    assert g.enqueued[0] == Range(1, 0, 10);
  }

  // ---- a run that ends well

  /** The block is sent, received and acknowledged by DONE. */
  lemma EndsWell() returns (ls: seq<Line>, g: Shared)
    ensures Reached(ls, g) && |ls| == 1 && F.Enabled(FinishOf(ls, g), F.FindQuiet(0))
    ensures !E.Exceptional(SystemOf(ls, g), 0) && Times(g.enqueued, 1, 9) > 0 && (1, 9) in g.written
  {
    ls, g := Starts(1);
    ls, g := TakesUp(ls, g, 0);
    ls, g := WritesHeader(ls, g, 0);
    ls, g := WritesBytes(ls, g, 0, 10);
    ls, g := Receives(ls, g, 0);
    ls, g := Records(ls, g, 0, SentWell(BLOCK));
    ls, g := Waits(ls, g, 0);
    MayAnswer(ls, g, 0);
    IsEnqueued(g);
  }

  // ---- a receiver thread that is aborted

  lemma Aborts(ls: seq<Line>, g: Shared, u: nat) returns (ls': seq<Line>, g': Shared)
    requires Reached(ls, g) && u < |ls| && ls[u].p.reading && ls[u].rt.phase == F.Reading
    ensures ls' == ls[u := ls[u].(p := ls[u].p.(reading := false, pipe := [], waiting := []),
                                  rt := ls[u].rt.(status := F.Finished, phase := F.Ended, doneFailed := false),
                                  k := ls[u].k.(done := false, stopped := true))]
    ensures g' == g && Reached(ls', g')
  {
    ls', g' := Breaks(ls, g, u, F.Stop(u), BetweenBlocks);
  }

  /**
   The sender fails to send the block to a receiver thread that was aborted; the other thread may end the transfer.
   */
  lemma AbortedBlockIsLost() returns (ls: seq<Line>, g: Shared)
    ensures Reached(ls, g) && |ls| == 2 && F.Enabled(FinishOf(ls, g), F.FindQuiet(1))
    ensures ls[0].k.stopped && !ls[0].rt.doneFailed && g.refused == {}
    ensures Times(g.enqueued, 1, 9) > 0 && E.Lost(WorldOf(ls, g), 1, 9)
  {
    ls, g := Starts(2);
    var l;
    ls, g := Aborts(ls, g, 0);
    ls, g, l := FailsToSend(ls, g, 0);
    ls, g := Waits(ls, g, 1);
    MayAnswer(ls, g, 1);
    IsEnqueued(g);
    LostIfNowhere(ls, g, 1, 9);
  }

  // ---- a receiver thread that gives up

  function GaveUp(l: Line, place: nat): Line {
    l.(p := l.p.(reading := false, finished := true, pipe := [], waiting := []),
       rt := l.rt.(status := F.Finished, phase := F.Ended, doneFailed := false, published := Some(place)),
       k := l.k.(done := false, stopped := false))
  }

  lemma GivesUp(ls: seq<Line>, g: Shared, u: nat) returns (ls': seq<Line>, g': Shared)
    requires Reached(ls, g) && u < |ls| && ls[u].p.reading && ls[u].rt.phase == F.Reading
    ensures ls' == ls[u := GaveUp(ls[u], |g.checkpoints|)] && g' == g.(checkpoints := g.checkpoints + [u])
    ensures Reached(ls', g')
  {
    ls', g' := Breaks(ls, g, u, F.GiveUp(u), BetweenBlocks);
    ls', g' := Publishes(ls', g', u);
  }

  /** The only checkpoint is found, and written to the sender. */
  function Told(l: Line): Line {
    l.(rt := l.rt.(status := F.Running, phase := F.Reading, pending := 1, toSend := 1), k := l.k.(talk := E.Told(0, 1)))
  }

  lemma TellsSender(ls: seq<Line>, g: Shared, u: nat) returns (ls': seq<Line>, g': Shared)
    requires Reached(ls, g) && u < |ls| && ls[u] == NEW_LINE && |g.checkpoints| == 1 && g.queue == [] && g.listed
    ensures ls' == ls[u := Told(Waiter(NEW_LINE))] && g' == g.(log := g'.log) && Reached(ls', g')
  {
    ls', g' := Waits(ls, g, u);
    ls', g' := FindsNew(ls', g', u);
    ls', g' := WritesGlobal(ls', g', u);
  }

  /** The sender handles it and goes on, and both ends come to the end again. */
  lemma HandlesAndWaits(ls: seq<Line>, g: Shared, u: nat, v: nat, th: S.Thread, refuses: bool)
    returns (ls': seq<Line>, g': Shared)
    requires Reached(ls, g) && NextIs(ls, g, u, v, th, refuses) && g.queue == [] && g.listed
    requires ls[u].k.talk == E.Told(0, 1) && ls[u].rt.phase == F.Reading
    requires ls[u].th.slot.Idle? && ls[u].p.link.Up? && ls[u].p.reading && ls[u].p.pipe == []
    ensures ls' == ls[v := ls[v].(th := th)][u := Waiter(ls[u])] && Reached(ls', g')
    ensures g' == SharedAfterHandling(g, 0, v, refuses).(log := g.log + [F.Confirmed(u)])
  {
    ls', g' := HandlesAndGoesOn(ls, g, u, v, th, refuses);
    ls', g' := Waits(ls', g', u);
  }

  lemma HandlesAndGoesOn(ls: seq<Line>, g: Shared, u: nat, v: nat, th: S.Thread, refuses: bool)
    returns (ls': seq<Line>, g': Shared)
    requires Reached(ls, g) && NextIs(ls, g, u, v, th, refuses) && ls[u].k.talk == E.Told(0, 1)
    ensures ls' == ls[v := ls[v].(th := th)][u := ls[u].(k := ls[u].k.(talk := E.Free))] && Reached(ls', g')
    ensures g' == SharedAfterHandling(g, 0, v, refuses)
  {
    ls', g' := HandlesGlobal(ls, g, u, v, th, refuses);
    ls', g' := GoesOn(ls', g', u);
  }

  /** A line whose receiver thread has read DONE a second time, after the only checkpoint. */
  function TwiceDone(l: Line): Line {
    Waiter(Told(Waiter(l)))
  }

  /** The second port to come to the end: its sender finds that nothing is in the history of the first. */
  lemma ClosesAndWaits(ls: seq<Line>, g: Shared, u: nat, v: nat) returns (ls': seq<Line>, g': Shared)
    requires Reached(ls, g) && u < |ls| && v < |ls| && u != v && g.checkpoints == [v] && g.queue == [] && g.listed
    requires ls[v].p.finished && ls[v].p.verified == [] && ls[v].th.hist.sources == []
    requires CheckpointStatus(ls[v].th.hist, CkOf(ls[v].p), true) != InvalidCheckpoint
    requires ls[u] == NEW_LINE
    ensures var th := ls[v].th.(hist := History([], true, 0, Some(CkOf(ls[v].p))));
            ls' == ls[v := ls[v].(th := th)][u := TwiceDone(NEW_LINE)]
    ensures g' == g.(handled := g.handled + {0}, log := g'.log) && Reached(ls', g')
  {
    ls', g' := TellsSender(ls, g, u);
    ClosedWorld(ls', g', v);
    ls', g' := HandlesAndWaits(ls', g', u, v, ls[v].th.(hist := History([], true, 0, Some(CkOf(ls[v].p)))), false);
  }

  // ---- a receiver thread whose DONE fails

  /** The history of a port with nothing in it, closed by its final checkpoint. */
  const CLOSED := History([], true, 0, Some(Checkpoint(0, 0, 0, 0, true)))

  /** The block is in the hands of the third sender, whose receiver has given up. */
  function Holder(h: History): Line {
    GaveUp(NEW_LINE.(th := NEW_LINE.th.(slot := S.Sending(BLOCK.Opened()), hist := h)), 0)
  }

  lemma ThirdGivesUp() returns (ls: seq<Line>, g: Shared)
    ensures Reached(ls, g) && ls == [NEW_LINE, NEW_LINE, Holder(EMPTY)]
    ensures g == NEW_SHARED.(dequeued := 1, enqueued := [Range(1, 0, 10)], listed := true, checkpoints := [2])
  {
    ls, g := Starts(3);
    ls, g := TakesUp(ls, g, 2);
    ls, g := GivesUp(ls, g, 2);
  }

  /** The other two come to the end, and both may answer DONE. */
  lemma OthersComeToTheEnd() returns (ls: seq<Line>, g: Shared)
    ensures Reached(ls, g) && ls == [TwiceDone(NEW_LINE), TwiceDone(NEW_LINE), Holder(CLOSED)]
    ensures g == NEW_SHARED.(dequeued := 1, enqueued := [Range(1, 0, 10)], listed := true, checkpoints := [2],
                             handled := {0}, log := g.log)
  {
    ls, g := ThirdGivesUp();
    ls, g := ClosesAndWaits(ls, g, 0, 2);
    assert ls == [TwiceDone(NEW_LINE), NEW_LINE, Holder(CLOSED)];
    ls, g := ClosesAndWaits(ls, g, 1, 2);
  }

  function DoneFails(l: Line): Line {
    l.(p := l.p.(reading := false, pipe := [], waiting := []),
       rt := l.rt.(status := F.Finished, phase := F.Accepting, doneFailed := true),
       k := l.k.(done := false, stopped := false))
  }

  lemma FailsDone(ls: seq<Line>, g: Shared, u: nat) returns (ls': seq<Line>, g': Shared)
    requires Reached(ls, g) && u < |ls| && F.Enabled(FinishOf(ls, g), F.FindQuiet(u)) && ls[u].p.reading
    ensures ls' == ls[u := DoneFails(ls[u])] && g' == g && Reached(ls', g')
  {
    ls', g' := FindsQuiet(ls, g, u);
    ls', g' := Breaks(ls', g', u, F.DoneFailed(u), BetweenBlocks);
  }

  /**
   After a global checkpoint, what could not be sent goes back to the queue, whole if the checkpoint does not name it.
   */
  lemma GivesBack(ls: seq<Line>, g: Shared, u: nat) returns (ls': seq<Line>, g': Shared, l: Line)
    requires Reached(ls, g) && u < |ls| && ls[u].th.slot.Sending? && ls[u].th.hist.global
    requires ls[u].th.slot.s.size > 0 && Credit(ls[u].th.slot.s, ls[u].th.hist.last) == 0
    ensures ls' == ls[u := l] && l.th.slot.Idle? && l.rt == ls[u].rt && Reached(ls', g')
    ensures g' == g.(queue := g'.queue, dequeued := g'.dequeued, credited := g'.credited)
    ensures |g'.queue| == |g.queue| + 1 && g'.queue[|g.queue|].size == ls[u].th.slot.s.size
  {
    ls', g' := FinishesSend(ls, g, u, FAILED_SEND);
    ls', g' := Books(ls', g', u);
    WholeBlock(ls[u].th.slot.s, ls'[u].th.slot.s, ls[u].th.hist.last);
    ls', g' := AddsAfterGlobal(ls', g', u);
    l := ls'[u];
  }

  lemma WholeBlock(s: Source, s': Source, ck: Option<Checkpoint>)
    requires s' == s.(stats := s'.stats) && Credit(s, ck) == 0
    ensures MarkFailed(s', ck).size == s.size
  {
  }

  /** The first sender notices the break and connects again. */
  lemma ConnectsAgain(ls: seq<Line>, g: Shared, u: nat) returns (ls': seq<Line>, g': Shared, l: Line)
    requires Reached(ls, g) && u < |ls| && ls[u] == DoneFails(TwiceDone(NEW_LINE))
    ensures ls' == ls[u := l] && Reached(ls', g') && g' == g.(log := g'.log)
    ensures l.th.slot.Idle? && l.p.link.Up? && l.k == E.Side(E.Free, false, false) && !l.th.hist.global
    ensures l.rt.status == F.Finished && l.rt.doneFailed
  {
    ls', g' := Leaves(ls, g, u);
    ls', g' := Accepts(ls', g', u);
    ls', g' := DeliversLocal(ls', g', u);
    l := ls'[u];
  }

  /** The DONE of the first receiver thread fails, and the block is back in the queue. */
  lemma DoneFailsAndBlockIsBack() returns (ls: seq<Line>, g: Shared, l: Line)
    ensures Reached(ls, g) && ls == [DoneFails(TwiceDone(NEW_LINE)), TwiceDone(NEW_LINE), l]
    ensures l.th.slot.Idle? && l.rt.status == F.Finished
    ensures |g.queue| == 1 && g.queue[0].size == 10 && g.enqueued == [Range(1, 0, 10)] && g.written == {}
    ensures g.checkpoints == [2] && g.refused == {}
  {
    ls, g := OthersComeToTheEnd();
    MayAnswer(ls, g, 0);
    ls, g := FailsDone(ls, g, 0);
    ls, g, l := GivesBack(ls, g, 2);
  }

  /**
   A receiver thread whose DONE has failed counts as finished.  Its sender takes the block that came back and the send
   fails; another thread may end the transfer, and nobody has the block.
   */
  lemma BlockIsLostBesideDone() returns (ls: seq<Line>, g: Shared)
    ensures Reached(ls, g) && |ls| == 3 && F.Enabled(FinishOf(ls, g), F.FindQuiet(1))
    ensures ls[0].rt.doneFailed && !ls[0].k.stopped && g.refused == {}
    ensures Times(g.enqueued, 1, 9) > 0 && E.Lost(WorldOf(ls, g), 1, 9)
  {
    var l;
    ls, g, l := DoneFailsAndBlockIsBack();
    ls, g, l := ConnectsAgain(ls, g, 0);
    ls, g, l := FailsToSend(ls, g, 0);
    MayAnswer(ls, g, 1);
    IsEnqueued(g);
    LostIfNowhere(ls, g, 1, 9);
  }

  // ---- checkpoints that are rejected

  function Carried(l: Line, b: Source, k: nat): Line {
    l.(th := l.th.(slot := S.Sending(b.Opened())), p := l.p.(started := true, pipe := [Item(BlkOf(b), k)]))
  }

  /** The header of the only queued block and `k` bytes of it are on the connection. */
  lemma Carries(ls: seq<Line>, g: Shared, u: nat, k: nat) returns (ls': seq<Line>, g': Shared)
    requires Reached(ls, g) && u < |ls| && |g.queue| == 1 && k <= g.queue[0].size
    requires ls[u].th.slot.Idle? && Live(ls[u].p) && ls[u].p.pipe == [] && ls[u].k.talk.Free?
    ensures ls' == ls[u := Carried(ls[u], g.queue[0], k)] && Reached(ls', g')
    ensures g' == g.(queue := [], dequeued := g.dequeued + 1)
  {
    ls', g' := TakesUp(ls, g, u);
    ls', g' := WritesHeader(ls', g', u);
    ls', g' := WritesBytes(ls', g', u, k);
  }

  lemma BreaksOff(ls: seq<Line>, g: Shared, u: nat, m: F.Step, k: nat) returns (ls': seq<Line>, g': Shared)
    requires Reached(ls, g) && u < |ls| && m.t == u && (m.Break? || m.GiveUp?) && ls[u].rt.phase == F.Reading
    requires ls[u].p.reading && CutOk(ls[u].p, InData(k))
    ensures ls' == ls[u := ls[u].(p := Broken(ls[u].p, InData(k)),
                                  rt := ls[u].rt.(phase := if m.Break? then F.Accepting else F.Failing),
                                  k := ls[u].k.(done := false, stopped := false))]
    ensures g' == g.(written := WrittenBy(g, ls[u].p, InData(k))) && Reached(ls', g')
  {
    ls', g' := Breaks(ls, g, u, m, InData(k));
  }

  /** Then the connection breaks on both sides. */
  lemma Attempt(ls: seq<Line>, g: Shared, u: nat, k: nat, m: F.Step)
    returns (ls': seq<Line>, g': Shared, sent: Source, t: Stats)
    requires Reached(ls, g) && u < |ls| && |g.queue| == 1 && k < g.queue[0].size && m.t == u && (m.Break? || m.GiveUp?)
    requires ls[u].th.slot.Idle? && Live(ls[u].p) && ls[u].p.pipe == [] && ls[u].k == NEW_LINE.k
    requires ls[u].rt.phase == F.Reading && !ls[u].th.hist.global
    ensures BlkOf(sent) == BlkOf(g.queue[0]) && sent.meta == g.queue[0].meta
    ensures ls' == ls[u := Torn(ls[u], sent, t, k, m)] && Reached(ls', g')
    ensures g' == g.(queue := [], dequeued := g.dequeued + 1,
                     written := g.written + Positions(sent.meta.seqId, sent.offset, sent.offset + k))
  {
    ls', g' := Carries(ls, g, u, k);
    ls', g' := BreaksOff(ls', g', u, m, k);
    ls', g' := Records(ls', g', u, FAILED_SEND);
    sent, t := ls'[u].th.hist.sources[|ls[u].th.hist.sources|], ls'[u].th.stats;
  }

  function Torn(l: Line, sent: Source, t: Stats, k: nat, m: F.Step): Line {
    l.(th := S.Thread(S.Idle, l.th.hist.(sources := l.th.hist.sources + [sent]), t),
       p := l.p.(link := Down, started := true, reading := false, waiting := [],
                 partial := Partial(sent.meta.seqId, sent.offset, k)),
       rt := l.rt.(phase := if m.Break? then F.Accepting else F.Failing))
  }

  const NO_BYTES := Checkpoint(0, 1, 0, 0, true)

  /** What a checkpoint with no bytes does to a history of one block. */
  lemma NoBytesReturns(s: Source)
    requires s.meta == BLOCK.meta && s.offset == 0
    ensures var h, b := History([s], false, 0, None), MarkFailed(s, Some(NO_BYTES));
            && CheckpointStatus(h, NO_BYTES, false) == Ok
            && AfterCheckpoint(h, NO_BYTES, false) == History([], false, 0, Some(NO_BYTES))
            && Returned(h, NO_BYTES, false) == [b] && BlkOf(b) == BlkOf(s) && b.meta == s.meta
  {
    var b := MarkFailed(s, Some(NO_BYTES));
    assert [s][..0] == [];
    assert FailTail([s], 0, NO_BYTES) == [b] + FailTail([s][..0], 0, NO_BYTES) == [b];
  }

  /** A port whose first connection broke behind a header. */
  function Restarted(t: Stats): Line {
    NEW_LINE.(th := S.Thread(S.Idle, History([], false, 0, Some(NO_BYTES)), t),
              p := NEW_LINE.p.(started := true, msg := NO_BYTES, partial := Partial(1, 0, 0)))
  }

  lemma BreaksBehindHeader() returns (ls: seq<Line>, g: Shared, sent: Source, t: Stats)
    ensures Reached(ls, g) && ls == [Torn(NEW_LINE, sent, t, 0, F.Break(0)), NEW_LINE]
    ensures sent.meta == BLOCK.meta && sent.offset == 0 && sent.size == 10
    ensures g == NEW_SHARED.(dequeued := 1, enqueued := [Range(1, 0, 10)], listed := true)
  {
    ls, g := Starts(2);
    ls, g, sent, t := Attempt(ls, g, 0, 0, F.Break(0));
    assert g.written == {};
  }

  /** The connection breaks right after a header, and the block is back in the queue. */
  lemma BreaksOnce() returns (ls: seq<Line>, g: Shared, t: Stats)
    ensures Reached(ls, g) && ls == [Restarted(t), NEW_LINE]
    ensures |g.queue| == 1 && BlkOf(g.queue[0]) == Blk(1, 0, 10) && g.queue[0].meta == BLOCK.meta
    ensures g == NEW_SHARED.(queue := g.queue, dequeued := 0, enqueued := [Range(1, 0, 10)], listed := true,
                             credited := g.credited, log := g.log)
  {
    var sent;
    ls, g, sent, t := BreaksBehindHeader();
    ls, g := Accepts(ls, g, 0);
    ls, g, t := TakesBack(ls, g, 0, sent);
  }

  lemma TakesBack(ls: seq<Line>, g: Shared, u: nat, s: Source) returns (ls': seq<Line>, g': Shared, t: Stats)
    requires Reached(ls, g) && u < |ls| && s.meta == BLOCK.meta && s.offset == 0 && g.queue == []
    requires ls[u].th.slot.Idle? && ls[u].th.hist == History([s], false, 0, None)
    requires ls[u].p.link.Awaiting? && ls[u].p.msg == NO_BYTES
    ensures ls' == ls[u := ls[u].(th := S.Thread(S.Idle, History([], false, 0, Some(NO_BYTES)), t),
                                  p := ls[u].p.(link := Up))]
    ensures |g'.queue| == 1 && BlkOf(g'.queue[0]) == BlkOf(s) && g'.queue[0].meta == s.meta && Reached(ls', g')
    ensures g' == g.(queue := g'.queue, dequeued := g.dequeued - 1, credited := g'.credited)
  {
    NoBytesReturns(s);
    ls', g' := DeliversLocal(ls, g, u);
    t := ls'[u].th.stats;
  }

  /** It breaks again, by `m`, after four bytes of the same block. */
  lemma BreaksTwice(m: F.Step) returns (ls: seq<Line>, g: Shared, sent: Source, t: Stats, t': Stats)
    requires m == F.Break(0) || m == F.GiveUp(0)
    ensures Reached(ls, g) && ls == [Torn(Restarted(t), sent, t', 4, m), NEW_LINE] && BlkOf(sent) == Blk(1, 0, 10)
    ensures g == NEW_SHARED.(dequeued := 1, enqueued := [Range(1, 0, 10)], listed := true, credited := g.credited,
                             log := g.log, written := Positions(1, 0, 4))
  {
    ls, g, t := BreaksOnce();
    ls, g, sent, t' := Attempt(ls, g, 0, 4, m);
    assert g.written == Positions(1, 0, 4);
  }

  ghost predicate OnRun(w: World) {
    exists run, steps :: IsRun(run, steps) && run[|steps|] == w
  }

  lemma ReachedIsOnRun(ls: seq<Line>, g: Shared)
    requires Reached(ls, g)
    ensures OnRun(WorldOf(ls, g))
  {
    var run, steps :| E.IsRun(run, steps) && run[|steps|] == SystemOf(ls, g);
    var worlds, moves := E.RetryRun(run, steps, |steps|);
  }

  /** After no bytes of a block, four bytes of it are a protocol error. */
  lemma RejectsProgress(l: Line, global: bool)
    requires l.th.hist.last == Some(NO_BYTES) && |l.p.verified| == 0 && l.p.partial == Partial(1, 0, 4)
    ensures CheckpointStatus(l.th.hist, CkOf(l.p), global) == InvalidCheckpoint
  {
  }

  /**
   The connection breaks right after a header, then again in the middle of the same block: the second checkpoint
   names the same block with more bytes, and the sender takes that for a protocol error.
   */
  lemma ProgressAfterNoBytesIsRejected() returns (ls: seq<Line>, g: Shared)
    ensures OnRun(WorldOf(ls, g)) && |ls| == 2 && ls[0].p.link.Awaiting? && ls[0].p.msg.bytes == 4
    ensures CheckpointStatus(ls[0].th.hist, ls[0].p.msg, false) == InvalidCheckpoint
  {
    var sent, t, t';
    ls, g, sent, t, t' := BreaksTwice(F.Break(0));
    ls, g := Accepts(ls, g, 0);
    RejectsProgress(ls[0], false);
    ReachedIsOnRun(ls, g);
  }

  /** The receiver has all of the block, then gives up, before the sender has put the block into its history. */
  lemma VerifiedBeforeAddedIsRejected() returns (ls: seq<Line>, g: Shared)
    ensures OnRun(WorldOf(ls, g)) && |ls| == 1 && ls[0].p.finished && ls[0].th.hist.last.None?
    ensures CheckpointStatus(ls[0].th.hist, CkOf(ls[0].p), true) == InvalidCheckpoint
  {
    ls, g := Starts(1);
    ls, g := Carries(ls, g, 0, 10);
    ls, g := Receives(ls, g, 0);
    ls, g := GivesUp(ls, g, 0);
    ReachedIsOnRun(ls, g);
  }

  /** The first receiver thread has given up after four bytes, and the second one comes to the end. */
  lemma GivesUpAfterBytes() returns (ls: seq<Line>, g: Shared, l: Line)
    ensures Reached(ls, g) && ls == [l, Told(Waiter(NEW_LINE))]
    ensures l.th.slot.Idle? && l.th.hist.last == Some(NO_BYTES) && !l.th.hist.global && l.rt.status == F.Finished
    ensures !l.k.stopped
    ensures l.p.finished && |l.p.verified| == 0 && l.p.partial == Partial(1, 0, 4) && !l.rt.doneFailed
    ensures g == NEW_SHARED.(dequeued := 1, enqueued := [Range(1, 0, 10)], listed := true, credited := g.credited,
                             log := g.log, written := Positions(1, 0, 4), checkpoints := [0])
  {
    var sent, t, t';
    ls, g, sent, t, t' := BreaksTwice(F.GiveUp(0));
    ls, g := Publishes(ls, g, 0);
    l := ls[0];
    ls, g := TellsSender(ls, g, 1);
  }

  /**
   A receiver thread gives up after four bytes, when the checkpoint before named the same block without bytes.  Its
   final checkpoint is refused, another thread may end the transfer, and nobody has the block.
   */
  lemma RefusedBlockIsLost() returns (ls: seq<Line>, g: Shared)
    ensures Reached(ls, g) && |ls| == 2 && F.Enabled(FinishOf(ls, g), F.FindQuiet(1))
    ensures !ls[0].k.stopped && !ls[0].rt.doneFailed && 0 in g.refused && !ls[0].th.hist.global
    ensures Times(g.enqueued, 1, 9) > 0 && E.Lost(WorldOf(ls, g), 1, 9)
  {
    var l;
    ls, g, l := GivesUpAfterBytes();
    RejectsProgress(l, true);
    RefusedWorld(ls, g, 0);
    assert ls[0 := ls[0].(th := ls[0].th)] == ls;
    ls, g := HandlesAndWaits(ls, g, 1, 0, ls[0].th, true);
    MayAnswer(ls, g, 1);
    IsEnqueued(g);
    LostIfNowhere(ls, g, 1, 9);
  }
}
