/** From the bytes of a receiver's log to the blocks in the sender's queue. */
module ResumptionEndToEnd {
  import opened Options
  import opened Wire
  import opened Intervals
  import opened Resumption
  import opened ResumptionLaws
  import LogReplay
  import LogLaws

  /** What replay lists is what the sender's queue expects of a list. */
  lemma ReplayedListOk(env: LogReplay.Env, now: Int64, ip: Bytes, s: Bytes)
    ensures var list := LogReplay.Repaired(env, now, ip, s).list; EntriesOk(list) && DistinctSeqIds(list)
  {
    var o := LogReplay.Outcome(LogReplay.Ok, LogReplay.NewParser(ip));
    var p := LogReplay.ParseLog(env, o, s).outcome.parser;
    if LogReplay.Repaired(env, now, ip, s).status == LogReplay.Ok {
      LogLaws.ParseKeepsOk(env, o, s);
      LogLaws.ListingOk(env, p);
    }
  }

  /**
   Whatever bytes the log holds: if it replays, then for every discovered file the logged chunks that are kept and
   the queued blocks contain each byte of the file exactly once, and ids and names of the blocks match.
   */
  lemma LoggedTransferResumesExactly(env: LogReplay.Env, now: Int64, ip: Bytes, s: Bytes,
                                     cfg: Config, fs: seq<File>, finished: bool, f: File, x: int)
    requires DistinctNames(fs) && f in fs
    ensures var list := LogReplay.Repaired(env, now, ip, s).list;
            && EntriesOk(list)
            && var st := Outcome(cfg, Some(list), fs, finished);
               && BlocksFit(cfg, st.queue.sources) && IdsMatchNames(st.queue.sources)
               && Count(Kept(st.prev, f), x) + Owing(st.queue.sources, f.relPath, x) == Inside(x, 0, f.size)
  {
    var list := LogReplay.Repaired(env, now, ip, s).list;
    ReplayedListOk(env, now, ip, s);
    SeqIdsMatchFiles(cfg, list, fs, finished);
    QueueTilesFiles(cfg, list, fs, finished, f, x);
  }
}
