/** Building runs of TransferEnd step by step, for any number of ports: what each step makes of the ports it touches. */
module Scenarios {
  import opened Options
  import opened Sources
  import opened TransferHistory
  import opened CheckpointProtocol
  import S = SenderSystem
  import F = ReceiverFinish
  import E = TransferEnd

  /** One port with both its ends: sender thread, connection, receiver thread and conversation. */
  datatype Line = Line(th: S.Thread, p: Port, rt: F.Thread, k: E.Side)

  const NEW_LINE := Line(S.Thread(S.Idle, EMPTY, NO_STATS),
                         Port(Up, false, Checkpoint(0, 0, 0, 0, true), [], true, false, [], [], NOTHING),
                         F.Thread(F.Running, F.Reading, 0, 0, 0, false, None),
                         E.Side(E.Free, false, false))

  /** What the ports share; no source has failed to open, and there are no tags and no footers. */
  datatype Shared = Shared(queue: seq<Source>, dequeued: int, enqueued: seq<Range>, credited: seq<Range>,
                           written: set<(nat, int)>, checkpoints: seq<nat>, log: seq<F.Event>, listed: bool,
                           handled: set<nat>, refused: set<nat>)

  const NEW_SHARED := Shared([], 0, [], [], {}, [], [], false, {}, {})

  function Senders(ls: seq<Line>): seq<S.Thread> {
    seq(|ls|, i requires 0 <= i < |ls| => ls[i].th)
  }

  function Ports(ls: seq<Line>): seq<Port> {
    seq(|ls|, i requires 0 <= i < |ls| => ls[i].p)
  }

  function Readers(ls: seq<Line>): seq<F.Thread> {
    seq(|ls|, i requires 0 <= i < |ls| => ls[i].rt)
  }

  function Sides(ls: seq<Line>): seq<E.Side> {
    seq(|ls|, i requires 0 <= i < |ls| => ls[i].k)
  }

  function WorldOf(ls: seq<Line>, g: Shared): World {
    World(S.State(g.queue, g.dequeued, [], Senders(ls), g.enqueued, g.credited), Ports(ls), g.written, false, false)
  }

  function FinishOf(ls: seq<Line>, g: Shared): F.State {
    F.State(Readers(ls), g.checkpoints, g.log)
  }

  function SystemOf(ls: seq<Line>, g: Shared): E.System {
    E.System(WorldOf(ls, g), FinishOf(ls, g), Sides(ls), g.listed, g.handled, g.refused)
  }

  ghost predicate Reached(ls: seq<Line>, g: Shared) {
    exists run, steps :: E.IsRun(run, steps) && run[|steps|] == SystemOf(ls, g)
  }

  lemma Begins(n: nat) returns (ls: seq<Line>, g: Shared)
    ensures |ls| == n && (forall u :: 0 <= u < n ==> ls[u] == NEW_LINE) && g == NEW_SHARED && Reached(ls, g)
  {
    ls, g := seq(n, i => NEW_LINE), NEW_SHARED;
    var sys := SystemOf(ls, g);
    var run, steps: seq<E.Step> := [sys], [];
    assert E.Init(sys);
    assert E.IsRun(run, steps) && run[|steps|] == sys;
  }

  predicate Leads(ls: seq<Line>, g: Shared, step: E.Step, ls': seq<Line>, g': Shared) {
    E.Enabled(SystemOf(ls, g), step) && E.Apply(SystemOf(ls, g), step) == SystemOf(ls', g')
  }

  lemma Extend(ls: seq<Line>, g: Shared, step: E.Step, ls': seq<Line>, g': Shared)
    requires Reached(ls, g) && Leads(ls, g, step, ls', g')
    ensures Reached(ls', g')
  {
    var run, steps :| E.IsRun(run, steps) && run[|steps|] == SystemOf(ls, g);
    E.RunExtends(run, steps, step, SystemOf(ls', g'));
  }

  /** Changing one line changes each of the sequences at that place. */
  lemma Change(ls: seq<Line>, u: nat, l: Line)
    requires u < |ls|
    ensures Senders(ls[u := l]) == Senders(ls)[u := l.th] && Ports(ls[u := l]) == Ports(ls)[u := l.p]
    ensures Readers(ls[u := l]) == Readers(ls)[u := l.rt] && Sides(ls[u := l]) == Sides(ls)[u := l.k]
  {
  }

  /** A sender's own step on line `u`. */
  lemma Sends(ls: seq<Line>, g: Shared, s: Step, u: nat, th: S.Thread, p: Port, queue: seq<Source>, dequeued: int,
              credited: seq<Range>) returns (ls': seq<Line>, g': Shared)
    requires Reached(ls, g) && E.OwnStep(s) && !s.Discover? && s.p == u < |ls| && (s.Pop? ==> ls[u].k.talk.Free?)
    requires Enabled(WorldOf(ls, g), s)
    requires Apply(WorldOf(ls, g), s) ==
             WorldOf(ls[u := ls[u].(th := th, p := p)], g.(queue := queue, dequeued := dequeued, credited := credited))
    ensures ls' == ls[u := ls[u].(th := th, p := p)]
    ensures g' == g.(queue := queue, dequeued := dequeued, credited := credited)
    ensures Reached(ls', g')
  {
    ls', g' := ls[u := ls[u].(th := th, p := p)], g.(queue := queue, dequeued := dequeued, credited := credited);
    Change(ls, u, ls'[u]);
    Extend(ls, g, E.Sends(s), ls', g');
  }

  // ---- discovery

  lemma Discovers(ls: seq<Line>, g: Shared, b: Source) returns (g': Shared)
    requires Reached(ls, g) && !g.listed && g.enqueued == []
    requires b.size >= 0 && b.offset >= 0 && b == NewSource(b.meta, b.size, b.offset)
    requires b.meta.allocation != ToBeDeleted
    ensures Reached(ls, g')
    ensures g' == g.(queue := g.queue + [b], enqueued := [Range(b.meta.seqId, b.offset, b.offset + b.size)])
  {
    g' := g.(queue := g.queue + [b], enqueued := [Range(b.meta.seqId, b.offset, b.offset + b.size)]);
    var sys := SystemOf(ls, g);
    assert E.Enabled(sys, E.Sends(Discover(b)));
    assert E.Apply(sys, E.Sends(Discover(b))).sides == sys.sides;
    Extend(ls, g, E.Sends(Discover(b)), ls, g');
  }

  lemma EndsListing(ls: seq<Line>, g: Shared) returns (g': Shared)
    requires Reached(ls, g) && !g.listed
    ensures Reached(ls, g') && g' == g.(listed := true)
  {
    g' := g.(listed := true);
    var sys := SystemOf(ls, g);
    assert E.Apply(sys, E.EndsListing).sides == sys.sides;
    Extend(ls, g, E.EndsListing, ls, g');
  }

  // ---- the sender

  /** Takes the only source of the queue. */
  lemma Pops(ls: seq<Line>, g: Shared, u: nat) returns (ls': seq<Line>, g': Shared)
    requires Reached(ls, g) && u < |ls| && |g.queue| == 1
    requires ls[u].th.slot.Idle? && ls[u].p.link.Up? && ls[u].k.talk.Free?
    ensures ls' == ls[u := ls[u].(th := ls[u].th.(slot := S.Opening(g.queue[0])))] && g' == g.(queue := [])
    ensures Reached(ls', g')
  {
    var l := ls[u].(th := ls[u].th.(slot := S.Opening(g.queue[0])));
    Change(ls, u, l);
    assert g.queue[..0] + g.queue[1..] == [];
    ls', g' := Sends(ls, g, Pop(u, 0), u, l.th, l.p, [], g.dequeued, g.credited);
  }

  lemma Opens(ls: seq<Line>, g: Shared, u: nat) returns (ls': seq<Line>, g': Shared)
    requires Reached(ls, g) && u < |ls| && ls[u].th.slot.Opening?
    ensures ls' == ls[u := ls[u].(th := ls[u].th.(slot := S.Sending(ls[u].th.slot.s.Opened())),
                                  p := ls[u].p.(started := false))]
    ensures g' == g.(dequeued := g.dequeued + 1) && Reached(ls', g')
  {
    var l := ls[u].(th := ls[u].th.(slot := S.Sending(ls[u].th.slot.s.Opened())), p := ls[u].p.(started := false));
    Change(ls, u, l);
    ls', g' := Sends(ls, g, OpenOk(u), u, l.th, l.p, g.queue, g.dequeued + 1, g.credited);
  }

  lemma WritesHeader(ls: seq<Line>, g: Shared, u: nat) returns (ls': seq<Line>, g': Shared)
    requires Reached(ls, g) && u < |ls| && ls[u].th.slot.Sending? && !ls[u].p.started && Live(ls[u].p)
    ensures var p := ls[u].p;
            ls' == ls[u := ls[u].(p := p.(started := true, pipe := p.pipe + [Item(BlkOf(ls[u].th.slot.s), 0)]))]
    ensures g' == g && Reached(ls', g')
  {
    var l := ls[u].(p := ls[u].p.(started := true, pipe := ls[u].p.pipe + [Item(BlkOf(ls[u].th.slot.s), 0)]));
    Change(ls, u, l);
    assert Senders(ls)[u := l.th] == Senders(ls);
    ls', g' := Sends(ls, g, SendHeader(u), u, l.th, l.p, g.queue, g.dequeued, g.credited);
  }

  /** The first `k` bytes of the only block on the connection. */
  lemma WritesBytes(ls: seq<Line>, g: Shared, u: nat, k: nat) returns (ls': seq<Line>, g': Shared)
    requires Reached(ls, g) && u < |ls| && ls[u].th.slot.Sending? && ls[u].p.started && Live(ls[u].p)
    requires |ls[u].p.pipe| == 1 && ls[u].p.pipe[0].avail == 0 && k <= ls[u].p.pipe[0].blk.size
    ensures ls' == ls[u := ls[u].(p := ls[u].p.(pipe := [Item(ls[u].p.pipe[0].blk, k)]))] && g' == g && Reached(ls', g')
  {
    var l := ls[u].(p := ls[u].p.(pipe := [Item(ls[u].p.pipe[0].blk, k)]));
    Change(ls, u, l);
    assert Senders(ls)[u := l.th] == Senders(ls);
    assert PortAfter(WorldOf(ls, g), SendData(u, k)) == l.p;
    ls', g' := Sends(ls, g, SendData(u, k), u, l.th, l.p, g.queue, g.dequeued, g.credited);
  }

  const FAILED_SEND := Stats(0, 0, 0, 0, 1, false)

  function SentWell(b: Source): Stats {
    Stats(b.size, 0, b.size, 1, 0, true)
  }

  lemma FinishesSend(ls: seq<Line>, g: Shared, u: nat, d: Stats) returns (ls': seq<Line>, g': Shared)
    requires Reached(ls, g) && u < |ls| && ls[u].th.slot.Sending? && ls[u].th.slot.s.size > 0
    requires d == FAILED_SEND || (d == SentWell(ls[u].th.slot.s) && ls[u].p.started && ls[u].p.pipe == [])
    ensures var th := ls[u].th;
            ls' == ls[u := ls[u].(th := th.(slot := S.Booked(th.slot.s, d), stats := th.stats.Plus(d)),
                                  p := if d.ok then ls[u].p else ls[u].p.(link := Down))]
    ensures g' == g && Reached(ls', g')
  {
    var l := ls[u].(th := ls[u].th.(slot := S.Booked(ls[u].th.slot.s, d), stats := ls[u].th.stats.Plus(d)),
                    p := if d.ok then ls[u].p else ls[u].p.(link := Down));
    Change(ls, u, l);
    ls', g' := Sends(ls, g, FinishSend(u, d), u, l.th, l.p, g.queue, g.dequeued, g.credited);
  }

  lemma Books(ls: seq<Line>, g: Shared, u: nat) returns (ls': seq<Line>, g': Shared)
    requires Reached(ls, g) && u < |ls| && ls[u].th.slot.Booked?
    ensures var s := ls[u].th.slot.s.(stats := ls[u].th.slot.s.stats.Plus(ls[u].th.slot.d));
            ls' == ls[u := ls[u].(th := ls[u].th.(slot := S.Sent(s)))]
    ensures g' == g && Reached(ls', g')
  {
    var s := ls[u].th.slot.s.(stats := ls[u].th.slot.s.stats.Plus(ls[u].th.slot.d));
    var l := ls[u].(th := ls[u].th.(slot := S.Sent(s)));
    Change(ls, u, l);
    assert Ports(ls)[u := l.p] == Ports(ls);
    ls', g' := Sends(ls, g, Book(u), u, l.th, l.p, g.queue, g.dequeued, g.credited);
  }

  lemma Adds(ls: seq<Line>, g: Shared, u: nat) returns (ls': seq<Line>, g': Shared)
    requires Reached(ls, g) && u < |ls| && ls[u].th.slot.Sent? && !ls[u].th.hist.global
    ensures var h := ls[u].th.hist;
            ls' == ls[u := ls[u].(th := ls[u].th.(slot := S.Idle,
                                                  hist := h.(sources := h.sources + [ls[u].th.slot.s])))]
    ensures g' == g && Reached(ls', g')
  {
    var h := ls[u].th.hist;
    var l := ls[u].(th := ls[u].th.(slot := S.Idle, hist := h.(sources := h.sources + [ls[u].th.slot.s])));
    Change(ls, u, l);
    assert Ports(ls)[u := l.p] == Ports(ls);
    ls', g' := Sends(ls, g, Add(u), u, l.th, l.p, g.queue, g.dequeued, g.credited);
  }

  /** After a global checkpoint the source goes back to the queue. */
  lemma AddsAfterGlobal(ls: seq<Line>, g: Shared, u: nat) returns (ls': seq<Line>, g': Shared)
    requires Reached(ls, g) && u < |ls| && ls[u].th.slot.Sent? && ls[u].th.hist.global
    ensures var th, s := ls[u].th, ls[u].th.slot.s;
            && ls' == ls[u := ls[u].(th := S.Thread(S.Idle, th.hist.(last := None),
                                                    ThreadAfter(th.stats, s, th.hist.last)),
                                     p := ls[u].p.(link := Ended))]
            && g' == g.(queue := g.queue + [MarkFailed(s, th.hist.last)], dequeued := g.dequeued - 1,
                        credited := g.credited + [CreditedRange(s, th.hist.last)])
    ensures Reached(ls', g')
  {
    var th, s := ls[u].th, ls[u].th.slot.s;
    var l := ls[u].(th := S.Thread(S.Idle, th.hist.(last := None), ThreadAfter(th.stats, s, th.hist.last)),
                    p := ls[u].p.(link := Ended));
    Change(ls, u, l);
    ls', g' := Sends(ls, g, Add(u), u, l.th, l.p, g.queue + [MarkFailed(s, th.hist.last)], g.dequeued - 1,
                     g.credited + [CreditedRange(s, th.hist.last)]);
  }

  lemma DeliversLocal(ls: seq<Line>, g: Shared, u: nat) returns (ls': seq<Line>, g': Shared)
    requires Reached(ls, g) && u < |ls| && ls[u].p.link.Awaiting? && ls[u].th.slot.Idle?
    requires CheckpointStatus(ls[u].th.hist, ls[u].p.msg, false) != InvalidCheckpoint
    ensures var th, ck := ls[u].th, ls[u].p.msg;
            && ls' == ls[u := ls[u].(th := th.(hist := AfterCheckpoint(th.hist, ck, false),
                                               stats := StatsAfterCheckpoint(th.stats, th.hist, ck, false)),
                                     p := ls[u].p.(link := Up))]
            && g' == g.(queue := g.queue + Returned(th.hist, ck, false),
                        dequeued := g.dequeued - |Returned(th.hist, ck, false)|,
                        credited := g.credited + CreditedBy(th.hist, ck, false))
    ensures Reached(ls', g')
  {
    var th, ck := ls[u].th, ls[u].p.msg;
    var l := ls[u].(th := th.(hist := AfterCheckpoint(th.hist, ck, false),
                              stats := StatsAfterCheckpoint(th.stats, th.hist, ck, false)),
                    p := ls[u].p.(link := Up));
    Change(ls, u, l);
    ls', g' := Sends(ls, g, DeliverLocal(u), u, l.th, l.p, g.queue + Returned(th.hist, ck, false),
                     g.dequeued - |Returned(th.hist, ck, false)|, g.credited + CreditedBy(th.hist, ck, false));
  }

  function Left(l: Line): Line {
    l.(p := l.p.(link := Down), k := l.k.(talk := E.Free))
  }

  lemma LeavesLeads(ls: seq<Line>, g: Shared, u: nat)
    requires u < |ls| && ls[u].th.slot.Idle? && ls[u].p.link.Up?
    ensures Leads(ls, g, E.Leaves(u, false), ls[u := Left(ls[u])], g)
  {
    Change(ls, u, Left(ls[u]));
    assert Senders(ls)[u := ls[u].th] == Senders(ls) && Readers(ls)[u := ls[u].rt] == Readers(ls);
  }

  /** The sender gives up its connection. */
  lemma Leaves(ls: seq<Line>, g: Shared, u: nat) returns (ls': seq<Line>, g': Shared)
    requires Reached(ls, g) && u < |ls| && ls[u].th.slot.Idle? && ls[u].p.link.Up?
    ensures ls' == ls[u := Left(ls[u])] && g' == g && Reached(ls', g')
  {
    ls', g' := ls[u := Left(ls[u])], g;
    LeavesLeads(ls, g, u);
    Extend(ls, g, E.Leaves(u, false), ls', g');
  }

  // ---- the connection

  /** What a step of a receiver thread makes of the finish protocol. */
  lemma FinishAfter(ls: seq<Line>, g: Shared, u: nat, m: F.Step, l: Line, g': Shared)
    requires u < |ls| && m.t == u && F.Enabled(FinishOf(ls, g), m) && l.rt == F.ThreadAfter(FinishOf(ls, g), m)
    requires g'.log == F.LogAfter(FinishOf(ls, g), m)
    requires g'.checkpoints == if m.Publish? then g.checkpoints + [u] else g.checkpoints
    ensures F.Apply(FinishOf(ls, g), m) == FinishOf(ls[u := l], g')
  {
    Change(ls, u, l);
  }

  /** A step of both protocols on line `u`. */
  lemma BothLead(ls: seq<Line>, g: Shared, u: nat, step: E.Step, s: Step, m: F.Step, l: Line, g': Shared)
    requires u < |ls| && E.PortOf(step) == u && E.Enabled(SystemOf(ls, g), step)
    requires step.Accepts? || step.Breaks? || step.Receives? || step.Publishes?
    requires E.RetryPart(SystemOf(ls, g), step) == Some(s) && E.FinishPart(step) == Some(m)
    requires Apply(WorldOf(ls, g), s) == WorldOf(ls[u := l], g')
    requires F.Apply(FinishOf(ls, g), m) == FinishOf(ls[u := l], g')
    requires l.k == E.SideAfter(SystemOf(ls, g), step)
    requires g'.listed == g.listed && g'.handled == g.handled && g'.refused == g.refused
    ensures Leads(ls, g, step, ls[u := l], g')
  {
    Change(ls, u, l);
  }

  /** The receiver has accepted a new connection, and its checkpoint is on the way. */
  function Accepted(l: Line): Line {
    l.(p := l.p.(link := Awaiting, msg := CkOf(l.p), reading := true),
       rt := l.rt.(phase := F.Reading, pending := l.rt.index))
  }

  lemma AcceptsLeads(ls: seq<Line>, g: Shared, u: nat)
    requires u < |ls| && ls[u].th.slot.Idle? && ls[u].rt.phase == F.Accepting
    requires ls[u].p.link.Down? && !ls[u].p.reading && !ls[u].p.finished
    ensures Leads(ls, g, E.Accepts(u), ls[u := Accepted(ls[u])], g.(log := g.log + [F.Reconnected(u)]))
  {
    var l, g' := Accepted(ls[u]), g.(log := g.log + [F.Reconnected(u)]);
    Change(ls, u, l);
    assert Senders(ls)[u := ls[u].th] == Senders(ls);
    assert Apply(WorldOf(ls, g), Reconnect(u)) == WorldOf(ls[u := l], g');
    FinishAfter(ls, g, u, F.Accept(u), l, g');
    BothLead(ls, g, u, E.Accepts(u), Reconnect(u), F.Accept(u), l, g');
  }

  lemma Accepts(ls: seq<Line>, g: Shared, u: nat) returns (ls': seq<Line>, g': Shared)
    requires Reached(ls, g) && u < |ls| && ls[u].th.slot.Idle? && ls[u].rt.phase == F.Accepting
    requires ls[u].p.link.Down? && !ls[u].p.reading && !ls[u].p.finished
    ensures ls' == ls[u := Accepted(ls[u])] && g' == g.(log := g.log + [F.Reconnected(u)]) && Reached(ls', g')
  {
    ls', g' := ls[u := Accepted(ls[u])], g.(log := g.log + [F.Reconnected(u)]);
    AcceptsLeads(ls, g, u);
    Extend(ls, g, E.Accepts(u), ls', g');
  }

  /** The cut is between two blocks, or behind the bytes that are there of the only one. */
  predicate CutOk(p: Port, cut: Cut) {
    cut.BetweenBlocks? || (cut.InData? && |p.pipe| == 1 && cut.k == p.pipe[0].avail < p.pipe[0].blk.size)
  }

  function Broken(p: Port, cut: Cut): Port
    requires CutOk(p, cut)
  {
    p.(reading := false, pipe := [], waiting := [],
       partial := if cut.InData? then Partial(p.pipe[0].blk.seqId, p.pipe[0].blk.offset, cut.k) else p.partial)
  }

  function WrittenBy(g: Shared, p: Port, cut: Cut): set<(nat, int)>
    requires CutOk(p, cut)
  {
    if cut.InData? then g.written + Positions(p.pipe[0].blk.seqId, p.pipe[0].blk.offset, p.pipe[0].blk.offset + cut.k)
    else g.written
  }

  lemma BreaksWorld(ls: seq<Line>, g: Shared, u: nat, cut: Cut, l: Line, g': Shared)
    requires u < |ls| && ls[u].p.reading && CutOk(ls[u].p, cut) && l.th == ls[u].th && l.p == Broken(ls[u].p, cut)
    requires g' == g.(written := WrittenBy(g, ls[u].p, cut), log := g'.log, checkpoints := g'.checkpoints)
    ensures Enabled(WorldOf(ls, g), ReceiverBreaks(u, cut))
    ensures Apply(WorldOf(ls, g), ReceiverBreaks(u, cut)) == WorldOf(ls[u := l], g')
  {
    Change(ls, u, l);
    assert Senders(ls)[u := l.th] == Senders(ls);
  }

  lemma BreaksLeads(ls: seq<Line>, g: Shared, u: nat, m: F.Step, cut: Cut, l: Line, g': Shared)
    requires u < |ls| && m.t == u && F.Enabled(FinishOf(ls, g), m) && E.Drops(ls[u].rt, m)
    requires ls[u].p.reading && CutOk(ls[u].p, cut)
    requires l == ls[u].(p := Broken(ls[u].p, cut), rt := F.ThreadAfter(FinishOf(ls, g), m),
                         k := ls[u].k.(done := false, stopped := m.Stop?))
    requires g' == g.(written := WrittenBy(g, ls[u].p, cut))
    ensures Leads(ls, g, E.Breaks(m, cut), ls[u := l], g')
  {
    BreaksWorld(ls, g, u, cut, l, g');
    FinishAfter(ls, g, u, m, l, g');
    BothLead(ls, g, u, E.Breaks(m, cut), ReceiverBreaks(u, cut), m, l, g');
  }

  /** The receiver leaves its connection. */
  lemma Breaks(ls: seq<Line>, g: Shared, u: nat, m: F.Step, cut: Cut) returns (ls': seq<Line>, g': Shared)
    requires Reached(ls, g) && u < |ls| && m.t == u && F.Enabled(FinishOf(ls, g), m) && E.Drops(ls[u].rt, m)
    requires ls[u].p.reading && CutOk(ls[u].p, cut)
    ensures ls' == ls[u := ls[u].(p := Broken(ls[u].p, cut), rt := F.ThreadAfter(FinishOf(ls, g), m),
                                  k := ls[u].k.(done := false, stopped := m.Stop?))]
    ensures g' == g.(written := WrittenBy(g, ls[u].p, cut)) && Reached(ls', g')
  {
    var l := ls[u].(p := Broken(ls[u].p, cut), rt := F.ThreadAfter(FinishOf(ls, g), m),
                    k := ls[u].k.(done := false, stopped := m.Stop?));
    ls', g' := ls[u := l], g.(written := WrittenBy(g, ls[u].p, cut));
    BreaksLeads(ls, g, u, m, cut, l, g');
    Extend(ls, g, E.Breaks(m, cut), ls', g');
  }

  /** The only block on the connection has been read. */
  function Received(l: Line): Line
    requires |l.p.pipe| == 1
  {
    l.(p := l.p.(pipe := [], partial := NOTHING, verified := l.p.verified + [l.p.pipe[0].blk]),
       rt := l.rt.(index := l.rt.pending))
  }

  function SharedAfterBlock(g: Shared, u: nat, b: Blk): Shared {
    g.(log := g.log + [F.Confirmed(u)], written := g.written + Positions(b.seqId, b.offset, b.offset + b.size))
  }

  lemma ReceivesLeads(ls: seq<Line>, g: Shared, u: nat)
    requires u < |ls| && ls[u].p.reading && ls[u].rt.phase == F.Reading
    requires |ls[u].p.pipe| == 1 && ls[u].p.pipe[0].avail == ls[u].p.pipe[0].blk.size
    ensures Leads(ls, g, E.Receives(u), ls[u := Received(ls[u])], SharedAfterBlock(g, u, ls[u].p.pipe[0].blk))
  {
    var l, g' := Received(ls[u]), SharedAfterBlock(g, u, ls[u].p.pipe[0].blk);
    Change(ls, u, l);
    assert Senders(ls)[u := ls[u].th] == Senders(ls) && ls[u].p.pipe[1..] == [];
    assert Apply(WorldOf(ls, g), Receive(u)) == WorldOf(ls[u := l], g');
    FinishAfter(ls, g, u, F.ReadFile(u), l, g');
    BothLead(ls, g, u, E.Receives(u), Receive(u), F.ReadFile(u), l, g');
  }

  lemma Receives(ls: seq<Line>, g: Shared, u: nat) returns (ls': seq<Line>, g': Shared)
    requires Reached(ls, g) && u < |ls| && ls[u].p.reading && ls[u].rt.phase == F.Reading
    requires |ls[u].p.pipe| == 1 && ls[u].p.pipe[0].avail == ls[u].p.pipe[0].blk.size
    ensures ls' == ls[u := Received(ls[u])] && g' == SharedAfterBlock(g, u, ls[u].p.pipe[0].blk) && Reached(ls', g')
  {
    ls', g' := ls[u := Received(ls[u])], SharedAfterBlock(g, u, ls[u].p.pipe[0].blk);
    ReceivesLeads(ls, g, u);
    Extend(ls, g, E.Receives(u), ls', g');
  }

  /** The receiver thread has published its checkpoint and ended. */
  function Published(l: Line, place: nat): Line {
    l.(p := l.p.(finished := true),
       rt := l.rt.(status := F.Finished, phase := F.Ended, doneFailed := false, published := Some(place)))
  }

  lemma PublishesLeads(ls: seq<Line>, g: Shared, u: nat)
    requires u < |ls| && ls[u].rt.phase == F.Failing && !ls[u].p.reading
    ensures Leads(ls, g, E.Publishes(u), ls[u := Published(ls[u], |g.checkpoints|)],
                  g.(checkpoints := g.checkpoints + [u]))
  {
    var l, g' := Published(ls[u], |g.checkpoints|), g.(checkpoints := g.checkpoints + [u]);
    Change(ls, u, l);
    assert Senders(ls)[u := ls[u].th] == Senders(ls);
    assert Apply(WorldOf(ls, g), ReceiverFinishes(u)) == WorldOf(ls[u := l], g');
    FinishAfter(ls, g, u, F.Publish(u), l, g');
    BothLead(ls, g, u, E.Publishes(u), ReceiverFinishes(u), F.Publish(u), l, g');
  }

  lemma Publishes(ls: seq<Line>, g: Shared, u: nat) returns (ls': seq<Line>, g': Shared)
    requires Reached(ls, g) && u < |ls| && ls[u].rt.phase == F.Failing && !ls[u].p.reading
    ensures ls' == ls[u := Published(ls[u], |g.checkpoints|)] && g' == g.(checkpoints := g.checkpoints + [u])
    ensures Reached(ls', g')
  {
    ls', g' := ls[u := Published(ls[u], |g.checkpoints|)], g.(checkpoints := g.checkpoints + [u]);
    PublishesLeads(ls, g, u);
    Extend(ls, g, E.Publishes(u), ls', g');
  }

  // ---- the conversation

  lemma SaysDone(ls: seq<Line>, g: Shared, u: nat) returns (ls': seq<Line>, g': Shared)
    requires Reached(ls, g) && u < |ls| && ls[u].th.slot.Idle? && ls[u].p.link.Up? && ls[u].p.reading
    requires ls[u].k.talk.Free?
    requires g.queue == [] && g.listed
    ensures ls' == ls[u := ls[u].(k := ls[u].k.(talk := E.Waits, done := true))] && g' == g && Reached(ls', g')
  {
    ls', g' := ls[u := ls[u].(k := ls[u].k.(talk := E.Waits, done := true))], g;
    Change(ls, u, ls'[u]);
    assert Senders(ls)[u := ls[u].th] == Senders(ls) && Ports(ls)[u := ls[u].p] == Ports(ls);
    assert Readers(ls)[u := ls[u].rt] == Readers(ls);
    Extend(ls, g, E.SaysDone(u), ls', g');
  }

  /** A step of a receiver thread that leaves the connection as it is. */
  lemma Moves(ls: seq<Line>, g: Shared, u: nat, step: E.Step, rt: F.Thread, k: E.Side, log: seq<F.Event>)
    returns (ls': seq<Line>, g': Shared)
    requires Reached(ls, g) && u < |ls| && (step.ReadsDone? || step.WritesGlobal? || step.Moves?) && E.PortOf(step) == u
    requires E.Enabled(SystemOf(ls, g), step)
    requires var m := E.FinishPart(step).value;
             && rt == F.ThreadAfter(FinishOf(ls, g), m) && log == F.LogAfter(FinishOf(ls, g), m)
             && k == E.SideAfter(SystemOf(ls, g), step)
    ensures ls' == ls[u := ls[u].(rt := rt, k := k)] && g' == g.(log := log) && Reached(ls', g')
  {
    ls', g' := ls[u := ls[u].(rt := rt, k := k)], g.(log := log);
    Change(ls, u, ls'[u]);
    assert Senders(ls)[u := ls[u].th] == Senders(ls) && Ports(ls)[u := ls[u].p] == Ports(ls);
    Extend(ls, g, step, ls', g');
  }

  lemma ReadsDone(ls: seq<Line>, g: Shared, u: nat) returns (ls': seq<Line>, g': Shared)
    requires Reached(ls, g) && u < |ls| && ls[u].p.pipe == [] && ls[u].k.done && ls[u].rt.phase == F.Reading
    ensures ls' == ls[u := ls[u].(rt := ls[u].rt.(index := ls[u].rt.pending, phase := F.DoneRead),
                                  k := ls[u].k.(done := false))]
    ensures g' == g.(log := g.log + [F.Confirmed(u)]) && Reached(ls', g')
  {
    ls', g' := Moves(ls, g, u, E.ReadsDone(u), ls[u].rt.(index := ls[u].rt.pending, phase := F.DoneRead),
                     ls[u].k.(done := false), g.log + [F.Confirmed(u)]);
  }

  lemma StartsWaiting(ls: seq<Line>, g: Shared, u: nat) returns (ls': seq<Line>, g': Shared)
    requires Reached(ls, g) && u < |ls| && ls[u].rt.phase == F.DoneRead
    ensures ls' == ls[u := ls[u].(rt := ls[u].rt.(status := F.Waiting, phase := F.AwaitingOthers, doneFailed := false))]
    ensures g' == g && Reached(ls', g')
  {
    ls', g' := Moves(ls, g, u, E.Moves(F.StartWaiting(u)),
                     ls[u].rt.(status := F.Waiting, phase := F.AwaitingOthers, doneFailed := false), ls[u].k, g.log);
  }

  lemma FindsNew(ls: seq<Line>, g: Shared, u: nat) returns (ls': seq<Line>, g': Shared)
    requires Reached(ls, g) && u < |ls| && ls[u].rt.phase == F.AwaitingOthers && ls[u].rt.index < |g.checkpoints|
    ensures ls' == ls[u := ls[u].(rt := ls[u].rt.(status := F.Running, phase := F.SendingGlobal,
                                                  toSend := |g.checkpoints| - ls[u].rt.index))]
    ensures g' == g && Reached(ls', g')
  {
    ls', g' := Moves(ls, g, u, E.Moves(F.FindNew(u)),
                     ls[u].rt.(status := F.Running, phase := F.SendingGlobal,
                               toSend := |g.checkpoints| - ls[u].rt.index),
                     ls[u].k, g.log);
  }

  lemma FindsQuiet(ls: seq<Line>, g: Shared, u: nat) returns (ls': seq<Line>, g': Shared)
    requires Reached(ls, g) && u < |ls| && F.Enabled(FinishOf(ls, g), F.FindQuiet(u))
    ensures ls' == ls[u := ls[u].(rt := ls[u].rt.(status := F.Finished, phase := F.SendingDone))] && g' == g
    ensures Reached(ls', g')
  {
    ls', g' := Moves(ls, g, u, E.Moves(F.FindQuiet(u)), ls[u].rt.(status := F.Finished, phase := F.SendingDone),
                     ls[u].k, g.log);
  }

  lemma WriteIsEnabled(f: F.State, u: nat)
    requires u < |f.threads| && f.threads[u].phase == F.SendingGlobal
    ensures var rt := f.threads[u];
            && F.Enabled(f, F.WriteGlobal(u))
            && F.ThreadAfter(f, F.WriteGlobal(u)) == rt.(phase := F.Reading, pending := rt.index + rt.toSend)
            && F.LogAfter(f, F.WriteGlobal(u)) == f.log + [F.Wrote(u, rt.index, rt.index + rt.toSend)]
  {
  }

  lemma WriteTells(ls: seq<Line>, g: Shared, u: nat)
    requires u < |ls| && ls[u].rt.phase == F.SendingGlobal && ls[u].p.link.Up?
    ensures E.Enabled(SystemOf(ls, g), E.WritesGlobal(u))
    ensures E.SideAfter(SystemOf(ls, g), E.WritesGlobal(u)) ==
            ls[u].k.(talk := E.Told(ls[u].rt.index, ls[u].rt.index + ls[u].rt.toSend))
  {
  }

  /** The checkpoints the thread was about to send are written. */
  function Wrote(l: Line): Line {
    var to := l.rt.index + l.rt.toSend;
    l.(rt := l.rt.(phase := F.Reading, pending := to), k := l.k.(talk := E.Told(l.rt.index, to)))
  }

  function LoggedWrite(g: Shared, u: nat, rt: F.Thread): Shared {
    g.(log := g.log + [F.Wrote(u, rt.index, rt.index + rt.toSend)])
  }

  lemma WritesLeads(ls: seq<Line>, g: Shared, u: nat)
    requires u < |ls| && ls[u].rt.phase == F.SendingGlobal && ls[u].p.link.Up?
    ensures Leads(ls, g, E.WritesGlobal(u), ls[u := Wrote(ls[u])], LoggedWrite(g, u, ls[u].rt))
  {
    var l, g' := Wrote(ls[u]), LoggedWrite(g, u, ls[u].rt);
    Change(ls, u, l);
    assert Senders(ls)[u := ls[u].th] == Senders(ls) && Ports(ls)[u := ls[u].p] == Ports(ls);
    WriteIsEnabled(FinishOf(ls, g), u);
    WriteTells(ls, g, u);
    FinishAfter(ls, g, u, F.WriteGlobal(u), l, g');
  }

  lemma WritesGlobal(ls: seq<Line>, g: Shared, u: nat) returns (ls': seq<Line>, g': Shared)
    requires Reached(ls, g) && u < |ls| && ls[u].rt.phase == F.SendingGlobal && ls[u].p.link.Up?
    ensures ls' == ls[u := Wrote(ls[u])] && g' == LoggedWrite(g, u, ls[u].rt) && Reached(ls', g')
  {
    ls', g' := ls[u := Wrote(ls[u])], LoggedWrite(g, u, ls[u].rt);
    WritesLeads(ls, g, u);
    Extend(ls, g, E.WritesGlobal(u), ls', g');
  }

  function TellsNext(l: Line): Line
    requires l.k.talk.Told?
  {
    l.(k := l.k.(talk := E.Told(l.k.talk.next + 1, l.k.talk.to)))
  }

  function SharedAfterHandling(g: Shared, next: nat, v: nat, refuses: bool): Shared {
    g.(handled := g.handled + {next}, refused := if refuses then g.refused + {v} else g.refused)
  }

  /** The checkpoint of line `v` is the next one, and applying it makes `th` of the line's thread. */
  predicate NextIs(ls: seq<Line>, g: Shared, u: nat, v: nat, th: S.Thread, refuses: bool) {
    && u < |ls| && v < |ls| && u != v && Enabled(WorldOf(ls, g), DeliverGlobal(v))
    && Apply(WorldOf(ls, g), DeliverGlobal(v)) == WorldOf(ls[v := ls[v].(th := th)], g)
    && refuses == (CheckpointStatus(ls[v].th.hist, CkOf(ls[v].p), true) == InvalidCheckpoint)
    && ls[u].k.talk.Told? && ls[u].k.talk.next < ls[u].k.talk.to
    && ls[u].k.talk.next < |g.checkpoints| && g.checkpoints[ls[u].k.talk.next] == v
  }

  lemma HandlesLeads(ls: seq<Line>, g: Shared, u: nat, v: nat, th: S.Thread, refuses: bool)
    requires NextIs(ls, g, u, v, th, refuses)
    ensures Leads(ls, g, E.HandlesGlobal(u), ls[v := ls[v].(th := th)][u := TellsNext(ls[u])],
                  SharedAfterHandling(g, ls[u].k.talk.next, v, refuses))
  {
    SideOnly(ls, g, v, ls[v].(th := th), u, TellsNext(ls[u]), SharedAfterHandling(g, ls[u].k.talk.next, v, refuses));
    HandleIsEnabled(SystemOf(ls, g), u, v);
  }

  /** The sender of line `u` applies the checkpoint of line `v`. */
  lemma HandlesGlobal(ls: seq<Line>, g: Shared, u: nat, v: nat, th: S.Thread, refuses: bool)
    returns (ls': seq<Line>, g': Shared)
    requires Reached(ls, g) && NextIs(ls, g, u, v, th, refuses)
    ensures ls' == ls[v := ls[v].(th := th)][u := TellsNext(ls[u])]
    ensures g' == SharedAfterHandling(g, ls[u].k.talk.next, v, refuses) && Reached(ls', g')
  {
    ls' := ls[v := ls[v].(th := th)][u := TellsNext(ls[u])];
    g' := SharedAfterHandling(g, ls[u].k.talk.next, v, refuses);
    HandlesLeads(ls, g, u, v, th, refuses);
    Extend(ls, g, E.HandlesGlobal(u), ls', g');
  }

  /** A refused checkpoint changes nothing. */
  lemma RefusedWorld(ls: seq<Line>, g: Shared, v: nat)
    requires v < |ls| && ls[v].p.finished && CheckpointStatus(ls[v].th.hist, CkOf(ls[v].p), true) == InvalidCheckpoint
    ensures Enabled(WorldOf(ls, g), DeliverGlobal(v))
    ensures Apply(WorldOf(ls, g), DeliverGlobal(v)) == WorldOf(ls, g)
  {
    var w, ck := WorldOf(ls, g), CkOf(ls[v].p);
    assert S.ApplyCk(w.s, v, ck, true).threads == w.s.threads;
    assert Apply(w, DeliverGlobal(v)).ports == w.ports;
  }

  /** One for an empty history closes it, and that is all. */
  lemma ClosedWorld(ls: seq<Line>, g: Shared, v: nat)
    requires v < |ls| && ls[v].p.finished && ls[v].p.verified == [] && ls[v].th.hist.sources == []
    requires CheckpointStatus(ls[v].th.hist, CkOf(ls[v].p), true) != InvalidCheckpoint
    ensures Enabled(WorldOf(ls, g), DeliverGlobal(v))
    ensures var th := ls[v].th.(hist := History([], true, 0, Some(CkOf(ls[v].p))));
            Apply(WorldOf(ls, g), DeliverGlobal(v)) == WorldOf(ls[v := ls[v].(th := th)], g)
  {
    var w, ck, th := WorldOf(ls, g), CkOf(ls[v].p), ls[v].th.(hist := History([], true, 0, Some(CkOf(ls[v].p))));
    Change(ls, v, ls[v].(th := th));
    assert AfterCheckpoint(ls[v].th.hist, ck, true) == th.hist && Returned(ls[v].th.hist, ck, true) == [];
    assert StatsAfterCheckpoint(ls[v].th.stats, ls[v].th.hist, ck, true) == th.stats;
    assert Ports(ls)[v := ls[v].p] == Ports(ls);
    assert g.queue + [] == g.queue && g.credited + [] == g.credited;
  }

  lemma HandleIsEnabled(sys: E.System, u: nat, v: nat)
    requires |sys.w.ports| == |sys.w.s.threads| == |sys.f.threads| == |sys.sides| && u < |sys.sides| && v < |sys.sides|
    requires var talk := sys.sides[u].talk;
             talk.Told? && talk.next < talk.to && talk.next < |sys.f.checkpoints| && sys.f.checkpoints[talk.next] == v
    requires Enabled(sys.w, DeliverGlobal(v))
    ensures E.Enabled(sys, E.HandlesGlobal(u))
    ensures var talk := sys.sides[u].talk;
            E.Apply(sys, E.HandlesGlobal(u)) ==
            sys.(w := Apply(sys.w, DeliverGlobal(v)),
                 sides := sys.sides[u := sys.sides[u].(talk := E.Told(talk.next + 1, talk.to))],
                 handled := sys.handled + {talk.next},
                 refused := if E.Refuses(sys.w, v) then sys.refused + {v} else sys.refused)
  {
    assert E.RetryPart(sys, E.HandlesGlobal(u)) == Some(DeliverGlobal(v));
  }

  lemma SideOnly(ls: seq<Line>, g: Shared, v: nat, lv: Line, u: nat, lu: Line, g': Shared)
    requires u < |ls| && v < |ls| && u != v && lv == ls[v].(th := lv.th) && lu == ls[u].(k := lu.k)
    requires g'.checkpoints == g.checkpoints && g'.log == g.log && g'.listed == g.listed
    ensures SystemOf(ls[v := lv][u := lu], g') ==
            SystemOf(ls, g).(w := WorldOf(ls[v := lv], g'), sides := Sides(ls)[u := lu.k],
                             handled := g'.handled, refused := g'.refused)
  {
    var ls' := ls[v := lv][u := lu];
    assert Senders(ls') == Senders(ls[v := lv]) && Ports(ls') == Ports(ls[v := lv]);
    assert Readers(ls') == Readers(ls) && Sides(ls') == Sides(ls)[u := lu.k];
  }

  lemma GoesOn(ls: seq<Line>, g: Shared, u: nat) returns (ls': seq<Line>, g': Shared)
    requires Reached(ls, g) && u < |ls| && ls[u].k.talk.Told? && ls[u].k.talk.next == ls[u].k.talk.to
    ensures ls' == ls[u := ls[u].(k := ls[u].k.(talk := E.Free))] && g' == g && Reached(ls', g')
  {
    ls', g' := ls[u := ls[u].(k := ls[u].k.(talk := E.Free))], g;
    Change(ls, u, ls'[u]);
    assert Senders(ls)[u := ls[u].th] == Senders(ls) && Ports(ls)[u := ls[u].p] == Ports(ls);
    assert Readers(ls)[u := ls[u].rt] == Readers(ls);
    Extend(ls, g, E.GoesOn(u), ls', g');
  }
}
