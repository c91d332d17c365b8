/** The token count over any number of sessions: no guard on positions, flushes or where a
    rollback cuts; only truncate must be called when it is safe. */
module KvCounts {
  import opened Bytes
  import opened KvHeader
  import opened KvIndex
  import opened KvProtocol
  import opened KvReader
  import opened KvChains
  import opened KvTokens
  import opened KvLog
  import opened KvRefinement
  import opened KvIds

  /** What a call makes of the number of tokens. */
  function CountStep(cfg: KvCacheConfig, n: nat, ev: Event): nat {
    match ev
    case Append(frame) => if |frame| == cfg.Stride() then n + 1 else n
    case BeginTruncate(count) => if count <= n then count else n
    case _ => n
  }

  function CountAfter(cfg: KvCacheConfig, n: nat, evs: seq<Event>): nat {
    if evs == [] then n else CountStep(cfg, CountAfter(cfg, n, evs[..|evs| - 1]), evs[|evs| - 1])
  }

  /** The local count, with a truncate in progress already carried out. */
  function Local(w: World): nat {
    if w.truncation.None? then w.localCount else w.truncation.value
  }

  /** A truncate is one call: nothing but worker steps separates its halves. */
  ghost predicate WholeCalls(c: Codec, w: World, evs: seq<Event>)
    decreases |evs|
  {
    evs == [] ||
    var k := |evs| - 1;
    && WholeCalls(c, w, evs[..k])
    && (Run(c, w, evs[..k]).truncation.Some? ==> evs[k].WorkerMoves? || evs[k].EndTruncate?)
  }

  lemma StepCounts(c: Codec, w: World, ev: Event)
    requires Accounted(w) && Tags(w) && w.localCount + 1 < TWO_64
    requires w.truncation.Some? ==> ev.WorkerMoves? || ev.EndTruncate?
    ensures Local(Step(c, w, ev)) == CountStep(w.cfg, Local(w), ev)
  {
    match ev
    case WorkerMoves => StepWorks(c, w);
    case EndTruncate => if w.truncation.Some? { EndConserves(w); }
    case _ =>
  }

  lemma {:induction false} RunCounts(c: Codec, w: World, evs: seq<Event>)
    requires Accounted(w) && Tags(w) && EpochsOk(w) && TruncatesSafely(c, w, evs) && WholeCalls(c, w, evs)
    ensures Local(Run(c, w, evs)) == CountAfter(w.cfg, Local(w), evs)
    decreases |evs|
  {
    if evs != [] {
      var k := |evs| - 1;
      RunCounts(c, w, evs[..k]);
      RunConserves(c, w, evs[..k]);
      RunExtends(c, w, evs[..k]);
      StepCounts(c, Run(c, w, evs[..k]), evs[k]);
    }
  }

  /** A reopened writer accounts for every committed token, whatever its file holds for them. */
  lemma ReopenedAccounts(c: Codec, cfg: KvCacheConfig, f: seq<byte>)
    requires RisingFile(c, cfg, f) && |f| < TWO_64 && Resume(c, f).Ok?
    ensures var w := Resume(c, f).value;
      w.cfg == cfg && w.file == f && Accounted(w) && Tags(w) && EpochsOk(w) && PromisedMeansReset(w) && Local(w) == Valid(f)
  {
    OpenShape(c, cfg, f);
    OpenIds(c, cfg, f);
  }

  /** One session: what it publishes is what its calls make of the count. */
  lemma SessionCounts(c: Codec, cfg: KvCacheConfig, f: seq<byte>, evs: seq<Event>)
    requires RisingFile(c, cfg, f) && |f| < TWO_64 && Resume(c, f).Ok?
    requires var w := Resume(c, f).value;
      && TruncatesSafely(c, w, evs) && WholeCalls(c, w, evs)
      && Run(c, w, evs).truncation.None? && Run(c, w, evs).localCount < TWO_64
    ensures Valid(AfterSession(c, f, evs)) == CountAfter(cfg, Valid(f), evs)
  {
    var w := Resume(c, f).value;
    ReopenedAccounts(c, cfg, f);
    RunConserves(c, w, evs);
    RunCounts(c, w, evs);
    ClosePublishesAll(c, Run(c, w, evs));
  }

  ghost predicate SessionsSafe(c: Codec, f: seq<byte>, ss: seq<seq<Event>>) {
    ss == [] ||
    var k := |ss| - 1;
    var start := Resume(c, AfterSessions(c, f, ss[..k]));
    && SessionsSafe(c, f, ss[..k])
    && (start.Ok? ==>
          && TruncatesSafely(c, start.value, ss[k]) && WholeCalls(c, start.value, ss[k])
          && Run(c, start.value, ss[k]).truncation.None? && Run(c, start.value, ss[k]).localCount < TWO_64)
  }

  /** A file that no longer opens is left alone, and so is its count. */
  ghost function CountAfterSessions(c: Codec, cfg: KvCacheConfig, f: seq<byte>, ss: seq<seq<Event>>): nat
    requires |f| >= HEADER_SIZE
  {
    if ss == [] then Valid(f)
    else
      var k := |ss| - 1;
      var before := CountAfterSessions(c, cfg, f, ss[..k]);
      if Resume(c, AfterSessions(c, f, ss[..k])).Ok? then CountAfter(cfg, before, ss[k]) else before
  }

  /** Conservation over any number of sessions: the published count of the file they leave is
      what all their calls make of the count, under any schedule, wherever rollbacks cut. */
  lemma {:induction false} SessionsConserve(c: Codec, cfg: KvCacheConfig, f: seq<byte>, ss: seq<seq<Event>>)
    requires Lawful(c) && RisingFile(c, cfg, f) && SessionsRoom(c, f, ss) && SessionsSafe(c, f, ss)
    ensures var g := AfterSessions(c, f, ss); |g| >= HEADER_SIZE && Valid(g) == CountAfterSessions(c, cfg, f, ss)
  {
    SessionsKeepChains(c, cfg, f, ss);
    if ss != [] {
      var k := |ss| - 1;
      var before := AfterSessions(c, f, ss[..k]);
      SessionsConserve(c, cfg, f, ss[..k]);
      SessionsKeepChains(c, cfg, f, ss[..k]);
      if Resume(c, before).Ok? { SessionCounts(c, cfg, before, ss[k]); }
    }
  }
}
