/**
 Byte sources as the queue, the sender threads and the histories hand them around, and the additive
 quantities that the transfer conserves.  A source is owned by exactly one holder at a time (the program
 moves it from one owner to the next), so it is a value here.
 */
module Sources {
  import opened Wire

  /** Receiver-side state of the file a block belongs to. */
  datatype Allocation = NotExists | ExistsCorrectSize | ExistsTooLarge | ExistsTooSmall | ToBeDeleted

  /** What all blocks of one file share. */
  datatype MetaData = MetaData(relPath: Bytes, fileSize: nat, seqId: nat, prevSeqId: nat, allocation: Allocation)

  /** The counters of a transfer that take part in double-entry accounting; `ok` is "local error code is OK". */
  datatype Stats = Stats(data: int, effHeader: int, effData: int, blocks: int, failed: int, ok: bool) {

    function Plus(other: Stats): Stats {
      Stats(data + other.data, effHeader + other.effHeader, effData + other.effData,
            blocks + other.blocks, failed + other.failed, ok && other.ok)
    }
  }

  const NO_STATS := Stats(0, 0, 0, 0, 0, true)

  /** A block; `start` is the offset it was first enqueued with, so `[start, offset)` has been credited. */
  datatype Source = Source(meta: MetaData, start: int, offset: int, size: int, stats: Stats) {

    /** Opening clears the error code of everything but a deletion, which has no file to open. */
    function Opened(): Source {
      if meta.allocation == ToBeDeleted then this else this.(stats := stats.(ok := true))
    }

    function AdvanceOffset(numBytes: int): Source {
      this.(offset := offset + numBytes, size := size - numBytes)
    }
  }

  function NewSource(meta: MetaData, size: nat, offset: nat): Source {
    Source(meta, offset, offset, size, NO_STATS)
  }

  /** A byte range of a file. */
  datatype Range = Range(seqId: nat, from: int, to: int)

  /** The additive quantities: the four audited counters, and whether a given file position is still owed. */
  datatype Measure = DataBytes | EffectiveBytes | NumBlocks | FailedAttempts | Owed(seqId: nat, pos: int)

  predicate Audited(m: Measure) {
    !m.Owed?
  }

  function StatsValue(m: Measure, s: Stats): int
    requires Audited(m)
  {
    match m
    case DataBytes => s.data
    case EffectiveBytes => s.effData
    case NumBlocks => s.blocks
    case FailedAttempts => s.failed
  }

  function RangeValue(r: Range, seqId: nat, pos: int): int {
    if r.seqId == seqId && r.from <= pos < r.to then 1 else 0
  }

  function SourceValue(m: Measure, s: Source): int {
    match m
    case Owed(seqId, pos) => RangeValue(Range(s.meta.seqId, s.offset, s.offset + s.size), seqId, pos)
    case _ => StatsValue(m, s.stats)
  }

  function Sum(m: Measure, ss: seq<Source>): int {
    if ss == [] then 0 else Sum(m, ss[..|ss| - 1]) + SourceValue(m, ss[|ss| - 1])
  }

  /** How many of the ranges contain a position. */
  function Times(rs: seq<Range>, seqId: nat, pos: int): nat {
    if rs == [] then 0 else Times(rs[..|rs| - 1], seqId, pos) + RangeValue(rs[|rs| - 1], seqId, pos)
  }

  lemma {:induction false} SumConcat(m: Measure, a: seq<Source>, b: seq<Source>)
    ensures Sum(m, a + b) == Sum(m, a) + Sum(m, b)
  {
    if b == [] {
      assert a + b == a;
    } else {
      assert (a + b)[..|a + b| - 1] == a + b[..|b| - 1];
      SumConcat(m, a, b[..|b| - 1]);
    }
  }

  lemma SumOne(m: Measure, s: Source)
    ensures Sum(m, [s]) == SourceValue(m, s)
  {
    assert [s][..0] == [];
  }

  lemma SumSplit(m: Measure, ss: seq<Source>, i: nat)
    requires i < |ss|
    ensures Sum(m, ss) == Sum(m, ss[..i] + ss[i + 1..]) + SourceValue(m, ss[i])
  {
    assert ss == ss[..i] + ([ss[i]] + ss[i + 1..]);
    SumConcat(m, ss[..i], [ss[i]] + ss[i + 1..]);
    SumConcat(m, [ss[i]], ss[i + 1..]);
    SumConcat(m, ss[..i], ss[i + 1..]);
    SumOne(m, ss[i]);
  }

  lemma {:induction false} TimesConcat(a: seq<Range>, b: seq<Range>, seqId: nat, pos: int)
    ensures Times(a + b, seqId, pos) == Times(a, seqId, pos) + Times(b, seqId, pos)
  {
    if b == [] {
      assert a + b == a;
    } else {
      assert (a + b)[..|a + b| - 1] == a + b[..|b| - 1];
      TimesConcat(a, b[..|b| - 1], seqId, pos);
    }
  }

  /** A source in the sequence that owes the position counts in the sum, and no other sums to less than zero. */
  lemma {:induction false} SumOwed(ss: seq<Source>, seqId: nat, pos: int)
    ensures Sum(Owed(seqId, pos), ss) >= 0
    ensures forall i :: 0 <= i < |ss| ==> Sum(Owed(seqId, pos), ss) >= SourceValue(Owed(seqId, pos), ss[i])
  {
    if ss != [] {
      SumOwed(ss[..|ss| - 1], seqId, pos);
      assert forall i :: 0 <= i < |ss| - 1 ==> ss[..|ss| - 1][i] == ss[i];
    }
  }
}
