/** The promises of the server, over every run of a connection fed by the node. */
module ConnectionTheorems {
  import opened Bytes
  import opened Targets
  import opened Transactions
  import opened NodeTemplate
  import opened Coinbase
  import opened Tables
  import opened Connection
  import opened ConnectionRuns
  import ConnectionServer

  // ── Runs of the system are runs of the server ─────────────────────────────

  /** What reaches the connection when `e` happens. */
  function Reaching(s: System, e: SysEvent): seq<Event> {
    match e
    case Other(e') => [e']
    case NewBlock(_, _, _) => if Fetched(s, e).Ok? then [Notified(Fetched(s, e).value)] else []
  }

  lemma {:induction false} StepReaches(env: Env, s: System, s': System, e: SysEvent, rest: seq<Event>)
    requires SysEnabled(s, e) && s' == SysStep(env, s, e) && ConnectionServer.AllowedEvents(env, s'.conn, rest)
    ensures ConnectionServer.AllowedEvents(env, s.conn, Reaching(s, e) + rest)
    ensures ConnectionServer.Run(env, s.conn, Reaching(s, e) + rest) == ConnectionServer.Run(env, s'.conn, rest)
  {
    var events := Reaching(s, e) + rest;
    if Reaching(s, e) == [] {
      assert events == rest;
    } else {
      assert events[0] == Reaching(s, e)[0] && events[1..] == rest;
    }
  }

  /** Each run below is one that `HandleConnection` computes, on these events. */
  lemma {:induction false} SystemRunIsServerRun(env: Env, s: System, es: seq<SysEvent>) returns (events: seq<Event>)
    requires SysAllowed(env, s, es)
    ensures ConnectionServer.AllowedEvents(env, s.conn, events)
    ensures ConnectionServer.Run(env, s.conn, events) == SysRun(env, s, es).conn
    decreases es
  {
    events := [];
    if es != [] {
      var s' := SysStep(env, s, es[0]);
      events := SystemRunIsServerRun(env, s', es[1..]);
      StepReaches(env, s, s', es[0], events);
      events := Reaching(s, es[0]) + events;
    }
  }

  // ── How channels change ───────────────────────────────────────────────────

  predicate NewerJob(s: Conn, j: Job) {
    j.jobId >= s.nextJob && j.nbits == s.latest.nbits && j.templateId == s.latest.templateId
  }

  /** A channel keeps its id, prefix, address and target; its job stays or is a new one of
      the latest template; a new channel's target is no harder than that template's. */
  predicate ChannelEvolves(s: Conn, s': Conn, c: u32) {
    && (c in s.channels ==>
          && c in s'.channels
          && s'.channels[c] == s.channels[c].(job := s'.channels[c].job)
          && (s'.channels[c].job == s.channels[c].job
              || (s'.channels[c].job.Some? && NewerJob(s, s'.channels[c].job.value))))
    && (c !in s.channels && c in s'.channels ==>
          && CompactValue(s.latest.nbits) <= Value(s'.channels[c].target)
          && (s'.channels[c].job.Some? ==> NewerJob(s, s'.channels[c].job.value)))
  }

  ghost predicate Evolves(s: Conn, s': Conn) {
    && s.nextJob <= s'.nextJob && s'.latest == s.latest && s'.seen == s.seen
    && s'.recording == s.recording && s'.poolAddress == s.poolAddress && (s'.unseen ==> s.unseen)
    && forall c: u32 :: ChannelEvolves(s, s', c)
  }

  /** The channels named by the SubmitSharesSuccess messages, in order. */
  function Successes(out: seq<Message>): seq<u32> {
    if out == [] then []
    else Successes(out[..|out| - 1]) + (if out[|out| - 1].SharesSuccess? then [out[|out| - 1].channelId] else [])
  }

  lemma {:induction false} OneMoreMessage(out: seq<Message>, m: Message)
    ensures Successes(out + [m]) == Successes(out) + (if m.SharesSuccess? then [m.channelId] else [])
  {
    assert (out + [m])[..|out|] == out;
  }

  /** No solution, no accepted share, no share in the database. */
  predicate QuietLogs(s: Conn, s': Conn) {
    && s'.solutions == s.solutions
    && SharesOf(s'.db) == SharesOf(s.db)
    && Successes(s'.out) == Successes(s.out)
  }

  lemma {:induction false} GivenQuiet(s: Conn, c: u32, budget: nat, built: Option<Job>)
    requires c in s.channels
    ensures built.Some? ==>
              Successes(Given(s, c, built.value, if budget >= 2 then 2 else budget).out) == Successes(s.out)
  {
    if built.Some? {
      var m1, m2 := JobMessage(c, built.value), PrevHashMessage(c, built.value);
      OneMoreMessage(s.out, m1);
      OneMoreMessage(s.out + [m1], m2);
      assert s.out + [] == s.out && s.out + [m1] + [m2] == s.out + [m1, m2];
    }
  }

  lemma {:induction false} SendOneEvolves(s0: Conn, s: Conn, s': Conn, c: u32, built: Option<Job>, budget: nat)
    requires Evolves(s0, s) && c in s.channels && (built.Some? ==> NewerJob(s0, built.value))
    requires s' == SendOne(s, c, built, budget).conn
    ensures Evolves(s0, s') && QuietLogs(s, s')
  {
    SendOneGives(s, c, built, budget);
    forall d: u32 ensures ChannelEvolves(s0, s', d) {
      assert ChannelEvolves(s0, s, d);
    }
    GivenQuiet(s, c, budget, built);
  }

  lemma {:induction false} SendJobsEvolve(s0: Conn, s: Conn, s': Conn, build: Builder, order: seq<u32>, budget: nat)
    requires Evolves(s0, s) && forall address: string :: build(address).Some? ==> NewerJob(s0, build(address).value)
    requires (forall c :: c in order ==> c in s.channels) && s' == SendJobs(build, s, order, budget)
    ensures Evolves(s0, s') && QuietLogs(s, s')
    decreases order
  {
    if order != [] {
      var built := build(s.channels[order[0]].address);
      var sent := SendOne(s, order[0], built, budget);
      SendOneEvolves(s0, s, sent.conn, order[0], built, budget);
      if sent.all {
        SendJobsEvolve(s0, sent.conn, s', build, order[1..], budget - 2);
      }
    }
  }

  lemma {:induction false} ChannelTargetEasyEnough(checked: bool, h: Hashrate, nbits: u32)
    requires ChannelTarget(checked, h, nbits).Some?
    ensures CompactValue(nbits) <= Value(ChannelTarget(checked, h, nbits).value)
  {
    CompactTargetValue(nbits);
  }

  lemma {:induction false} OneMoreEvent(db: seq<DbEvent>, e: DbEvent)
    ensures SharesOf(db + [e]) == SharesOf(db) + (if e.ShareEvent? then [e.share] else [])
  {
    assert (db + [e])[..|db|] == db;
  }

  lemma {:induction false} FirstJobEvolves(s0: Conn, s: Conn, s': Conn, ch: Channel, built: Option<Job>, budget: nat,
      clock: int)
    requires Evolves(s0, s) && s.nextJob == s0.nextJob && ch.channelId in s.channels && s.channels[ch.channelId] == ch
    requires ch.channelId !in s0.channels
    requires built.Some? ==> NewerJob(s0, built.value)
    requires s' == FirstJob(s, ch, built, budget, clock)
    ensures Evolves(s0, s') && QuietLogs(s, s')
  {
    var c := ch.channelId;
    if s.nextJob < U32_MAX && built.Some? {
      FirstJobGives(s, ch, built.value, budget, clock);
      GivenQuiet(s.(nextJob := s.nextJob + 1), c, budget, built);
      OneMoreEvent(s.db, MinerConnected(Miner(ch.address, clock)));
    }
    forall d: u32 ensures ChannelEvolves(s0, s', d) {
      assert ChannelEvolves(s0, s, d);
    }
  }

  lemma {:induction false} SameChannelsEvolve(s: Conn, s': Conn)
    requires s'.channels == s.channels && s'.latest == s.latest && s'.seen == s.seen && s.nextJob <= s'.nextJob
    requires s'.recording == s.recording && s'.poolAddress == s.poolAddress && (s'.unseen ==> s.unseen)
    ensures Evolves(s, s')
  {
  }

  lemma {:induction false} OpenForEvolves(s: Conn, s': Conn, requestId: u32, address: string, target: Option<Hash>,
      built: Option<Job>, budget: nat, clock: int)
    requires s.nextChannel !in s.channels
    requires target.Some? ==> CompactValue(s.latest.nbits) <= Value(target.value)
    requires built.Some? ==> NewerJob(s, built.value)
    requires s' == OpenFor(s, requestId, address, target, built, budget, clock)
    ensures Evolves(s, s') && QuietLogs(s, s')
  {
    if s.nextChannel == U32_MAX || target.None? {
      SameChannelsEvolve(s, s');
    } else {
      OpenWithEvolves(s, s', requestId,
                      Channel(s.nextChannel, ChannelPrefix(s.nextChannel), address, None, target.value),
                      built, budget, clock);
    }
  }

  lemma {:induction false} OpenEvolves(env: Env, s: Conn, s': Conn, requestId: u32, user: string, hashrate: Hashrate,
      budget: nat, clock: int)
    requires s.nextChannel !in s.channels
    requires s' == Open(env, s, requestId, user, hashrate, budget, clock)
    ensures Evolves(s, s') && QuietLogs(s, s')
  {
    var address, target := MinerAddress(env, user, s.poolAddress), ChannelTarget(env.checked, hashrate, s.latest.nbits);
    if target.Some? {
      ChannelTargetEasyEnough(env.checked, hashrate, s.latest.nbits);
    }
    OpenForEvolves(s, s', requestId, address, target, BuildJob(env, address, s.nextJob, s.latest), budget, clock);
  }

  lemma {:induction false} OpenWithEvolves(s: Conn, s': Conn, requestId: u32, ch: Channel, built: Option<Job>,
      budget: nat, clock: int)
    requires ch.channelId == s.nextChannel < U32_MAX && s.nextChannel !in s.channels && ch.job == None
    requires CompactValue(s.latest.nbits) <= Value(ch.target)
    requires built.Some? ==> NewerJob(s, built.value)
    requires s' == OpenWith(s.(nextChannel := s.nextChannel + 1), requestId, ch, built, budget, clock)
    ensures Evolves(s, s') && QuietLogs(s, s')
  {
    if budget == 0 {
      SameChannelsEvolve(s, s');
    } else {
      var m := OpenReply(requestId, ch);
      var s2 := s.(nextChannel := s.nextChannel + 1, out := s.out + [m], channels := s.channels[ch.channelId := ch]);
      OneMoreMessage(s.out, m);
      FirstJobEvolves(s, s2, s', ch, built, budget - 1, clock);
    }
  }

  lemma {:induction false} BroadcastEvolves(env: Env, s: Conn, s': Conn, order: seq<u32>, budget: nat)
    requires IsWalk(order, s.channels) && s' == Broadcast(env, s, order, budget)
    ensures Evolves(s, s') && QuietLogs(s, s')
  {
    if s.nextJob == U32_MAX {
      SameChannelsEvolve(s, s');
    } else {
      var s1 := s.(unseen := false, nextJob := s.nextJob + 1);
      SameChannelsEvolve(s, s1);
      SendJobsEvolve(s, s1, s', Jobs(env, s.nextJob, s.latest), order, budget);
    }
  }

  lemma {:induction false} SetupEvolves(s: Conn, s': Conn, f: Frame, budget: nat)
    requires s' == Setup(s, f, budget)
    ensures Evolves(s, s') && QuietLogs(s, s')
  {
    var r := SetupReply(f);
    assert r.Some? ==> !r.value.SharesSuccess?;
    assert s' == s.(phase := s'.phase, out := if r.None? || budget == 0 then s.out else s.out + [r.value]);
    SetupQuiet(s, s', r);
  }

  lemma {:induction false} SetupQuiet(s: Conn, s': Conn, r: Option<Message>)
    requires r.Some? ==> !r.value.SharesSuccess?
    requires s'.out == s.out || (r.Some? && s'.out == s.out + [r.value])
    requires s' == s.(phase := s'.phase, out := s'.out)
    ensures Evolves(s, s') && QuietLogs(s, s')
  {
    SameChannelsEvolve(s, s');
    if r.Some? {
      OneMoreMessage(s.out, r.value);
    }
  }

  lemma {:induction false} DecideEvolves(s: Conn, s': Conn, share: Submission, v: Verdict, budget: nat)
    requires s.phase == Running && s' == Decide(s, share, v, budget)
    ensures Evolves(s, s')
  {
    DecideShape(s, share, v, budget);
    SameChannelsEvolve(s, s');
  }

  lemma {:induction false} SubmitEvolves(env: Env, s: Conn, s': Conn, share: Submission, budget: nat)
    requires s.phase == Running && s' == Submit(env, s, share, budget)
    ensures Evolves(s, s')
  {
    DecideEvolves(s, s', share, Judge(env, s.channels, share), budget);
  }

  predicate IsShare(s: Conn, e: Event) {
    s.phase == Running && e.Arrived? && e.frame.SubmitShares?
  }

  lemma {:induction false} DispatchEvolves(env: Env, s: Conn, s': Conn, f: Frame, budget: nat, clock: int)
    requires s.phase == Running && s.nextChannel !in s.channels && s' == Dispatch(env, s, f, budget, clock)
    ensures Evolves(s, s')
    ensures !f.SubmitShares? ==> QuietLogs(s, s')
  {
    match f {
      case OpenChannel(requestId, user, hashrate) => OpenEvolves(env, s, s', requestId, user, hashrate, budget, clock);
      case SubmitShares(share) => SubmitEvolves(env, s, s', share, budget);
      case _ => SameChannelsEvolve(s, s');
    }
  }

  /** Anything but a share leaves the side logs quiet. */
  lemma {:induction false} StepEvolves(env: Env, s: Conn, s': Conn, e: Event)
    requires Good(Legal(env), s, false) && Enabled(s, e) && !e.Notified? && s' == Step(env, s, e)
    ensures Evolves(s, s')
    ensures !IsShare(s, e) ==> QuietLogs(s, s')
  {
    if e.Changed? {
      BroadcastEvolves(env, s, s', e.order, e.budget);
    } else if e.Arrived? && s.phase == AwaitingSetup {
      SetupEvolves(s, s', e.frame, e.budget);
    } else if e.Arrived? && s.phase == Running {
      assert ChannelGood(Legal(env), s, s.nextChannel, false);
      DispatchEvolves(env, s, s', e.frame, e.budget, e.clock);
    } else {
      SameChannelsEvolve(s, s');
    }
  }

  // ── The log ───────────────────────────────────────────────────────────────

  lemma {:induction false} InitialGood(env: Env, s: System, strict: bool)
    requires Initial(s)
    ensures SystemGood(env, s, strict)
  {
    forall c: u32 ensures ChannelGood(Legal(env), s.conn, c, strict) {
    }
    var i := s.node.issued[0];
    TemplateFromNode(i.template.templateId, i.header, i.coinbase, i.path, i.template);
    assert Carried(s.conn.latest);
    assert IssueGood(s, 0);
  }

  lemma {:induction false} StillLegal(env: Env, seen: seq<Template>, t: Template, address: string, j: Job)
    requires Legal(env)(seen, address, j)
    ensures Legal(env)(seen + [t], address, j)
  {
    var u: Template :| BuiltFor(env, seen, address, j, u);
    assert BuiltFor(env, seen + [t], address, j, u);
  }

  lemma {:induction false} NewTemplateKeepsGood(env: Env, s: Conn, s': Conn, t: Template, os: seq<TxOut>, strict: bool)
    requires Good(Legal(env), s, strict) && Carries(t, os) && s.latest.templateId <= t.templateId
    requires s' == s.(latest := t, seen := s.seen + [t], unseen := true)
    ensures Good(Legal(env), s', strict)
    ensures Settled(s) ==> Settled(s')
  {
    forall c: u32 ensures ChannelGood(Legal(env), s', c, strict) {
      assert ChannelGood(Legal(env), s, c, strict);
      if c in s.channels && s.channels[c].job.Some? {
        StillLegal(env, s.seen, t, s.channels[c].address, s.channels[c].job.value);
      }
    }
    assert Carried(t);
    if Settled(s) && s.phase == Running {
      SettledKeeps(s, s');
    }
  }

  /** The node issued one more template, and the connection saw it. */
  predicate Issues(s: System, s': System, i: Issue) {
    && Genuine(i) && i.template.templateId == s.node.nextId
    && s' == System(s.node.(nextId := s.node.nextId + 1, issued := s.node.issued + [i]),
                    s.conn.(latest := i.template, seen := s.conn.seen + [i.template], unseen := true))
  }

  lemma {:induction false} NewBlockIssues(env: Env, s: System, e: SysEvent) returns (i: Issue)
    requires SysEnabled(s, e) && e.NewBlock? && Fetched(s, e).Ok?
    ensures Issues(s, SysStep(env, s, e), i) && Carries(i.template, ZeroOutputs(i.coinbase.outputs))
  {
    i := Issue(Fetched(s, e).value, e.header, e.coinbase, e.path);
    TemplateFromNode(s.node.nextId, e.header, e.coinbase, e.path, i.template);
  }

  lemma {:induction false} IssueKeepsNode(s: System, s': System, i: Issue)
    requires NodeGood(s) && Issues(s, s', i)
    ensures NodeGood(s')
  {
    forall k | 0 <= k < |s'.node.issued| ensures IssueGood(s', k) {
      if k < |s.node.issued| {
        assert IssueGood(s, k);
      }
    }
    forall k, l | 0 <= k < l < |s'.node.issued|
      ensures s'.node.issued[k].template.templateId < s'.node.issued[l].template.templateId
    {
      assert IssueGood(s, k);
    }
  }

  lemma {:induction false} SameNode(s: System, s': System)
    requires NodeGood(s) && s'.node.issued == s.node.issued && s'.node.nextId == s.node.nextId
    requires s'.conn.seen == s.conn.seen && s'.conn.latest == s.conn.latest
    ensures NodeGood(s')
  {
    forall k | 0 <= k < |s'.node.issued| ensures IssueGood(s', k) {
      assert IssueGood(s, k);
    }
  }

  predicate SmoothEvent(e: SysEvent) {
    e.Other? ==> Smooth(e.event)
  }

  /** The strict grammar is the stronger one. */
  lemma {:induction false} StrictImpliesLenient(out: seq<Message>, c: u32)
    ensures TrackOf(out, c, true) != Broken ==> TrackOf(out, c, false) == TrackOf(out, c, true)
  {
    if out != [] {
      StrictImpliesLenient(out[..|out| - 1], c);
    }
  }

  lemma {:induction false} GoodIsLenient(env: Env, s: Conn, strict: bool)
    requires Good(Legal(env), s, strict)
    ensures Good(Legal(env), s, false)
  {
    forall c: u32 ensures ChannelGood(Legal(env), s, c, false) {
      assert ChannelGood(Legal(env), s, c, strict);
      StrictImpliesLenient(s.out, c);
    }
  }

  lemma {:induction false} LatestBelowNext(s: System)
    requires NodeGood(s)
    ensures s.conn.latest.templateId < s.node.nextId
  {
    assert IssueGood(s, |s.node.issued| - 1);
  }

  lemma {:induction false} IssueKeepsGood(env: Env, s: System, s': System, i: Issue, os: seq<TxOut>, strict: bool)
    requires SystemGood(env, s, strict) && Issues(s, s', i) && Carries(i.template, os)
    ensures SystemGood(env, s', strict)
  {
    LatestBelowNext(s);
    NewTemplateKeepsGood(env, s.conn, s'.conn, i.template, os, strict);
    IssueKeepsNode(s, s', i);
  }

  lemma {:induction false} OtherKeepsGood(env: Env, s: System, s': System, e: Event, strict: bool)
    requires SystemGood(env, s, strict) && SysEnabled(s, Other(e)) && (strict ==> Smooth(e))
    requires s' == s.(conn := Step(env, s.conn, e))
    ensures SystemGood(env, s', strict)
  {
    StepKeepsGood(env, s.conn, e, strict);
    GoodIsLenient(env, s.conn, strict);
    StepEvolves(env, s.conn, s'.conn, e);
    SameNode(s, s');
  }

  lemma {:induction false} SystemStepKeepsGood(env: Env, s: System, e: SysEvent, strict: bool)
    requires SystemGood(env, s, strict) && SysEnabled(s, e) && (strict ==> SmoothEvent(e))
    ensures SystemGood(env, SysStep(env, s, e), strict)
  {
    var s' := SysStep(env, s, e);
    if e.Other? {
      OtherKeepsGood(env, s, s', e.event, strict);
    } else if Fetched(s, e).Ok? {
      var i := NewBlockIssues(env, s, e);
      IssueKeepsGood(env, s, s', i, ZeroOutputs(i.coinbase.outputs), strict);
    } else {
      SameNode(s, s');
    }
  }

  lemma {:induction false} RunKeepsGood(env: Env, s: System, es: seq<SysEvent>, strict: bool)
    requires SystemGood(env, s, strict) && SysAllowed(env, s, es)
    requires strict ==> forall e :: e in es ==> SmoothEvent(e)
    ensures SystemGood(env, SysRun(env, s, es), strict)
    decreases es
  {
    if es != [] {
      assert es[0] in es;
      SystemStepKeepsGood(env, s, es[0], strict);
      RunKeepsGood(env, SysStep(env, s, es[0]), es[1..], strict);
    }
  }

  /** In every run, whatever writes fail: setup comes first and once, a setup error is the
      last word, and every channel's messages follow the grammar. */
  lemma {:induction false} TraceGrammar(env: Env, s: System, es: seq<SysEvent>, c: u32)
    requires Initial(s) && SysAllowed(env, s, es)
    ensures var out := SysRun(env, s, es).conn.out;
            && SetupFirst(SysRun(env, s, es).conn)
            && TrackOf(out, c, false) != Broken
            && (TrackOf(out, c, false) != Unopened <==> c in SysRun(env, s, es).conn.channels)
  {
    InitialGood(env, s, false);
    RunKeepsGood(env, s, es, false);
    assert ChannelGood(Legal(env), SysRun(env, s, es).conn, c, false);
  }

  /** If no write of a broadcast fails, each job sent is activated before the next, and
      between events every channel of a live connection has its last job active. */
  lemma {:induction false} PairedJobs(env: Env, s: System, es: seq<SysEvent>, c: u32)
    requires Initial(s) && SysAllowed(env, s, es) && forall e :: e in es ==> SmoothEvent(e)
    ensures var s' := SysRun(env, s, es).conn;
            && TrackOf(s'.out, c, true) != Broken
            && (s'.phase == Running && c in s'.channels ==> TrackOf(s'.out, c, true).Active?)
  {
    InitialGood(env, s, true);
    RunKeepsGood(env, s, es, true);
    var s' := SysRun(env, s, es).conn;
    assert ChannelGood(Legal(env), s', c, true);
    assert s'.phase == Running ==> SettledAt(s', c);
  }

  // ── Setup ─────────────────────────────────────────────────────────────────

  /** The first thing that happens to the connection itself. */
  function Greeting(es: seq<SysEvent>): Option<Event> {
    if es == [] then None else if es[0].Other? then Some(es[0].event) else Greeting(es[1..])
  }

  /** An acceptable SetupConnection, and its answer written. */
  predicate AcceptedSetup(e: Event) {
    e.Arrived? && e.budget > 0 && Acceptable(e.frame)
  }

  lemma {:induction false} FirstJobAppends(s: Conn, s': Conn, ch: Channel, built: Option<Job>, budget: nat, clock: int)
    requires s' == FirstJob(s, ch, built, budget, clock) && s.phase != AwaitingSetup
    ensures s.out <= s'.out && s'.phase != AwaitingSetup
  {
  }

  lemma {:induction false} OpenWithAppends(s: Conn, s': Conn, requestId: u32, ch: Channel, built: Option<Job>,
      budget: nat, clock: int)
    requires s' == OpenWith(s, requestId, ch, built, budget, clock) && s.phase != AwaitingSetup
    ensures s.out <= s'.out && s'.phase != AwaitingSetup
  {
    if budget > 0 {
      var s1 := s.(out := s.out + [OpenReply(requestId, ch)], channels := s.channels[ch.channelId := ch]);
      FirstJobAppends(s1, s', ch, built, budget - 1, clock);
    }
  }

  lemma {:induction false} OpenForAppends(s: Conn, s': Conn, requestId: u32, address: string, target: Option<Hash>,
      built: Option<Job>, budget: nat, clock: int)
    requires s' == OpenFor(s, requestId, address, target, built, budget, clock) && s.phase != AwaitingSetup
    ensures s.out <= s'.out && s'.phase != AwaitingSetup
  {
    if s.nextChannel < U32_MAX && target.Some? {
      var id := s.nextChannel;
      OpenWithAppends(s.(nextChannel := id + 1), s', requestId,
                      Channel(id, ChannelPrefix(id), address, None, target.value), built, budget, clock);
    }
  }

  lemma {:induction false} SendJobsAppend(build: Builder, s: Conn, order: seq<u32>, budget: nat)
    requires forall c :: c in order ==> c in s.channels
    ensures s.out <= SendJobs(build, s, order, budget).out
    ensures SendJobs(build, s, order, budget).phase == s.phase && SendJobs(build, s, order, budget).unseen == s.unseen
    decreases order
  {
    if order != [] {
      var sent := SendOne(s, order[0], build(s.channels[order[0]].address), budget);
      assert s.out <= sent.conn.out && sent.conn.phase == s.phase && sent.conn.unseen == s.unseen;
      if sent.all {
        SendJobsAppend(build, sent.conn, order[1..], budget - 2);
      }
    }
  }

  lemma {:induction false} DispatchAppends(env: Env, s: Conn, s': Conn, f: Frame, budget: nat, clock: int)
    requires s.phase == Running && s' == Dispatch(env, s, f, budget, clock)
    ensures s.out <= s'.out && s'.phase != AwaitingSetup
  {
    match f {
      case OpenChannel(requestId, user, hashrate) =>
        var address := MinerAddress(env, user, s.poolAddress);
        OpenForAppends(s, s', requestId, address, ChannelTarget(env.checked, hashrate, s.latest.nbits),
                       BuildJob(env, address, s.nextJob, s.latest), budget, clock);
      case SubmitShares(share) => DecideShape(s, share, Judge(env, s.channels, share), budget);
      case _ =>
    }
  }

  lemma {:induction false} BroadcastAppends(env: Env, s: Conn, s': Conn, order: seq<u32>, budget: nat)
    requires IsWalk(order, s.channels) && s' == Broadcast(env, s, order, budget) && s.phase == Running
    ensures s.out <= s'.out && s'.phase != AwaitingSetup
  {
    if s.nextJob < U32_MAX {
      SendJobsAppend(Jobs(env, s.nextJob, s.latest), s.(unseen := false, nextJob := s.nextJob + 1), order, budget);
    }
  }

  /** After setup the log only grows, and after the end not even that. */
  lemma {:induction false} StepAppends(env: Env, s: Conn, s': Conn, e: Event)
    requires s.phase != AwaitingSetup && Enabled(s, e) && s' == Step(env, s, e)
    ensures s.out <= s'.out && s'.phase != AwaitingSetup
    ensures s.phase != Running ==> s'.out == s.out && s'.phase == s.phase
  {
    if e.Changed? {
      BroadcastAppends(env, s, s', e.order, e.budget);
    } else if e.Arrived? && s.phase == Running {
      DispatchAppends(env, s, s', e.frame, e.budget, e.clock);
    } else {
      assert s'.out == s.out;
    }
  }

  lemma {:induction false} LogGrows(env: Env, s: System, es: seq<SysEvent>)
    requires s.conn.phase != AwaitingSetup && SysAllowed(env, s, es)
    ensures var s' := SysRun(env, s, es).conn;
            && s.conn.out <= s'.out && s'.phase != AwaitingSetup
            && (s.conn.phase != Running ==> s'.out == s.conn.out && s'.phase == s.conn.phase)
    decreases es
  {
    if es != [] {
      var s' := SysStep(env, s, es[0]);
      if es[0].Other? {
        StepAppends(env, s.conn, s'.conn, es[0].event);
      }
      LogGrows(env, s', es[1..]);
    }
  }

  /** The pool ever says SetupConnectionSuccess exactly when the first thing to happen on
      the connection is an acceptable SetupConnection; anything else first ends it. */
  lemma {:induction false} MiningNeedsSetup(env: Env, s: System, es: seq<SysEvent>)
    requires s.conn.phase == AwaitingSetup && s.conn.out == [] && SysAllowed(env, s, es)
    ensures var s' := SysRun(env, s, es).conn;
            && (s'.phase == AwaitingSetup <==> Greeting(es) == None)
            && (s'.out != [] && s'.out[0].SetupSuccess? <==> Greeting(es).Some? && AcceptedSetup(Greeting(es).value))
            && (s'.phase == Running ==> Greeting(es).Some? && AcceptedSetup(Greeting(es).value))
    decreases es
  {
    if es != [] {
      var s' := SysStep(env, s, es[0]);
      if es[0].Other? {
        FirstStep(env, s.conn, s'.conn, es[0].event);
        LogGrows(env, s', es[1..]);
      } else {
        MiningNeedsSetup(env, s', es[1..]);
      }
    }
  }

  lemma {:induction false} FirstStep(env: Env, s: Conn, s': Conn, e: Event)
    requires s.phase == AwaitingSetup && s.out == [] && Enabled(s, e) && !e.Notified? && s' == Step(env, s, e)
    ensures if AcceptedSetup(e) then s'.phase == Running && s'.out == [SetupSuccess(2, 2)]
            else s'.phase == Closed && (s'.out == [] || s'.out[0].SetupError?)
  {
  }

  // ── Jobs over time ────────────────────────────────────────────────────────

  /** A later job of the same channel has a larger id and a template at least as new. */
  predicate JobAdvances(s: Conn, s': Conn, c: u32) {
    c in s.channels ==>
      && c in s'.channels
      && s'.channels[c] == s.channels[c].(job := s'.channels[c].job)
      && (s.channels[c].job.Some? ==>
            && s'.channels[c].job.Some?
            && var j, j' := s.channels[c].job.value, s'.channels[c].job.value;
            j' == j || (j.jobId < j'.jobId && j.templateId <= j'.templateId))
  }

  lemma {:induction false} StepAdvancesJob(env: Env, s: System, e: SysEvent, s': System, c: u32)
    requires SystemGood(env, s, false) && SysEnabled(s, e) && s' == SysStep(env, s, e)
    ensures JobAdvances(s.conn, s'.conn, c)
  {
    if e.Other? {
      StepEvolves(env, s.conn, s'.conn, e.event);
      assert ChannelEvolves(s.conn, s'.conn, c) && ChannelGood(Legal(env), s.conn, c, false);
    }
  }

  /** Over any run a channel's id, prefix, address and target are fixed, and its jobs only
      advance. */
  lemma {:induction false} JobsOnlyAdvance(env: Env, s: System, es: seq<SysEvent>, c: u32)
    requires SystemGood(env, s, false) && SysAllowed(env, s, es)
    ensures JobAdvances(s.conn, SysRun(env, s, es).conn, c)
    decreases es
  {
    if es != [] {
      var s' := SysStep(env, s, es[0]);
      StepAdvancesJob(env, s, es[0], s', c);
      SystemStepKeepsGood(env, s, es[0], false);
      JobsOnlyAdvance(env, s', es[1..], c);
    }
  }

  /** What a job made of the node's block `i` is, for this address: the pool's job of that
      block's template, with the block's version, time, previous hash, bits and path, whose
      coinbase, whatever the extranonce, is the node's with all its value paid to the address
      and only its zero outputs kept. */
  ghost predicate MadeOf(env: Env, j: Job, address: string, i: Issue) {
    && Genuine(i) && BuildJob(env, address, j.jobId, i.template) == Some(j)
    && j.version == i.header.version && j.ntime == i.header.time
    && j.prevHash == i.header.prevHash && j.nbits == i.header.bits && j.merklePath == i.path
    && env.scriptOf(address).Some?
    && forall extranonce: Bytes :: |extranonce| == EXTRANONCE_TOTAL ==>
         Pays(j, extranonce, i.coinbase, env.scriptOf(address).value)
  }

  /** The coinbase of a job around `extranonce` is the node's `cb` with all value paid to `script`. */
  predicate Pays(j: Job, extranonce: Bytes, cb: Tx, script: Bytes) {
    && Deserialize(Assemble(j.parts, extranonce)).Some?
    && cb.inputs != [] && SumValues(cb.outputs) <= U64_MAX
    && var tx := Deserialize(Assemble(j.parts, extranonce)).value;
       && tx.outputs == [TxOut(SumValues(cb.outputs), script)] + ZeroOutputs(cb.outputs)
       && SumValues(tx.outputs) == SumValues(cb.outputs)
       && tx.inputs == [TxIn(Zeros(32), U32_MAX, cb.inputs[0].script + extranonce, cb.inputs[0].sequence)]
       && tx.version == cb.version && tx.locktime == cb.locktime
  }

  lemma {:induction false} JobPays(env: Env, j: Job, address: string, i: Issue)
    requires Genuine(i) && BuildJob(env, address, j.jobId, i.template) == Some(j)
    ensures MadeOf(env, j, address, i)
  {
    JobFields(env, address, j, i.template);
    TemplateFromNode(i.template.templateId, i.header, i.coinbase, i.path, i.template);
    var script := env.scriptOf(address).value;
    forall extranonce: Bytes | |extranonce| == EXTRANONCE_TOTAL ensures Pays(j, extranonce, i.coinbase, script) {
      PartsPay(j, i, script, extranonce);
    }
  }

  lemma {:induction false} JobFields(env: Env, address: string, j: Job, t: Template)
    requires BuildJob(env, address, j.jobId, t) == Some(j)
    ensures env.scriptOf(address).Some? && |env.scriptOf(address).value| <= 65535
    ensures j.parts == PoolParts(t, env.scriptOf(address).value)
    ensures j.templateId == t.templateId && j.nbits == t.nbits && j.prevHash == t.prevHash
    ensures j.merklePath == t.merklePath && j.version == t.version && j.ntime == t.timestamp
  {
  }

  lemma {:induction false} PartsPay(j: Job, i: Issue, script: Bytes, extranonce: Bytes)
    requires Genuine(i) && |script| <= 65535 && |extranonce| == EXTRANONCE_TOTAL
    requires j.parts == PoolParts(i.template, script)
    ensures Pays(j, extranonce, i.coinbase, script)
  {
    ValueConserved(i.template.templateId, i.header, i.coinbase, i.path, i.template, script, extranonce);
  }

  /** The invariant of the server's table in every reachable state: ids and prefixes, and
      each job made of a template the node issued, the only one with its id. */
  lemma {:induction false} ReachableChannel(env: Env, s: System, es: seq<SysEvent>, c: u32) returns (k: nat)
    requires Initial(s) && SysAllowed(env, s, es)
    requires c in SysRun(env, s, es).conn.channels
    ensures var s' := SysRun(env, s, es);
            var ch := s'.conn.channels[c];
            && ch.channelId == c < s'.conn.nextChannel
            && ch.prefix == LittleEndian(c, 4) + Zeros(28)
            && (ch.job.Some? ==>
                  && ch.job.value.jobId < s'.conn.nextJob
                  && k < |s'.node.issued| && MadeOf(env, ch.job.value, ch.address, s'.node.issued[k])
                  && forall l :: 0 <= l < |s'.node.issued| ==>
                       (s'.node.issued[l].template.templateId == ch.job.value.templateId <==> l == k))
  {
    InitialGood(env, s, false);
    RunKeepsGood(env, s, es, false);
    var s' := SysRun(env, s, es);
    assert ChannelGood(Legal(env), s'.conn, c, false);
    var ch := s'.conn.channels[c];
    k := 0;
    if ch.job.Some? {
      k := IssueOf(env, s', ch.address, ch.job.value);
    }
  }

  lemma {:induction false} IssueOf(env: Env, s: System, address: string, j: Job) returns (k: nat)
    requires NodeGood(s) && Legal(env)(s.conn.seen, address, j)
    ensures k < |s.node.issued| && MadeOf(env, j, address, s.node.issued[k])
    ensures forall l :: 0 <= l < |s.node.issued| ==> (s.node.issued[l].template.templateId == j.templateId <==> l == k)
  {
    var t: Template :| BuiltFor(env, s.conn.seen, address, j, t);
    k :| 0 <= k < |s.conn.seen| && s.conn.seen[k] == t;
    assert IssueGood(s, k);
    JobPays(env, j, address, s.node.issued[k]);
  }

  /** What the node issued in a run is what it had and the template of each new block. */
  lemma {:induction false} IssuedByBlocks(env: Env, s: System, es: seq<SysEvent>, k: nat)
    requires SysAllowed(env, s, es) && k < |SysRun(env, s, es).node.issued|
    ensures var i := SysRun(env, s, es).node.issued[k];
            (k < |s.node.issued| && i == s.node.issued[k])
            || (k >= |s.node.issued| && NewBlock(i.header, i.coinbase, i.path) in es)
    decreases es
  {
    if es != [] {
      var s' := SysStep(env, s, es[0]);
      IssuedByBlocks(env, s', es[1..], k);
      assert es == [es[0]] + es[1..];
    }
  }

  // ── A completed broadcast ─────────────────────────────────────────────────

  predicate HasJob(s: Conn, c: u32, jobId: u32, templateId: u64) {
    c in s.channels && s.channels[c].job.Some?
    && s.channels[c].job.value.jobId == jobId && s.channels[c].job.value.templateId == templateId
  }

  predicate Buildable(env: Env, s: Conn, c: u32, jobId: u32) {
    c in s.channels && BuildJob(env, s.channels[c].address, jobId, s.latest).Some?
  }

  /** All jobs built have this id and are of this template. */
  ghost predicate AllSame(build: Builder, jobId: u32, templateId: u64) {
    forall address: string :: build(address).Some? ==>
      build(address).value.jobId == jobId && build(address).value.templateId == templateId
  }

  predicate Builds(build: Builder, s: Conn, c: u32) {
    c in s.channels && build(s.channels[c].address).Some?
  }

  lemma {:induction false} SendOneServes(build: Builder, s: Conn, s': Conn, c: u32, jobId: u32, templateId: u64,
      budget: nat)
    requires Builds(build, s, c) && AllSame(build, jobId, templateId) && budget >= 2
    requires s' == SendOne(s, c, build(s.channels[c].address), budget).conn
    ensures SendOne(s, c, build(s.channels[c].address), budget).all
    ensures HasJob(s', c, jobId, templateId)
    ensures s'.channels.Keys == s.channels.Keys && |s'.out| == |s.out| + 2
    ensures forall d: u32 :: d != c && d in s.channels ==> s'.channels[d] == s.channels[d]
  {
  }

  /** Everything `order` names has the job, everything else is as it was. */
  predicate Served(s: Conn, s': Conn, order: seq<u32>, jobId: u32, templateId: u64) {
    && s'.channels.Keys == s.channels.Keys && |s'.out| == |s.out| + 2 * |order|
    && (forall c: u32 :: c in s.channels ==>
          if c in order then HasJob(s', c, jobId, templateId) else s'.channels[c] == s.channels[c])
  }

  lemma {:induction false} ServedFirst(s: Conn, s1: Conn, s': Conn, order: seq<u32>, jobId: u32, templateId: u64)
    requires order != [] && order[0] !in order[1..] && order[0] in s.channels
    requires HasJob(s1, order[0], jobId, templateId)
    requires s1.channels.Keys == s.channels.Keys && |s1.out| == |s.out| + 2
    requires forall d: u32 :: d != order[0] && d in s.channels ==> s1.channels[d] == s.channels[d]
    requires Served(s1, s', order[1..], jobId, templateId)
    ensures Served(s, s', order, jobId, templateId)
  {
    assert order == [order[0]] + order[1..];
    forall c: u32 | c in s.channels
      ensures if c in order then HasJob(s', c, jobId, templateId) else s'.channels[c] == s.channels[c]
    {
      assert c in order <==> c == order[0] || c in order[1..];
      assert c in s1.channels;
    }
  }

  lemma {:induction false} SendJobsServe(build: Builder, s: Conn, s': Conn, order: seq<u32>, jobId: u32,
      templateId: u64, budget: nat)
    requires budget >= 2 * |order| && AllSame(build, jobId, templateId)
    requires forall c :: c in order ==> c in s.channels && Builds(build, s, c)
    requires s' == SendJobs(build, s, order, budget)
    requires forall i, k :: 0 <= i < k < |order| ==> order[i] != order[k]
    ensures Served(s, s', order, jobId, templateId)
    decreases order
  {
    if order != [] {
      var c, rest := order[0], order[1..];
      var s1 := SendOne(s, c, build(s.channels[c].address), budget).conn;
      SendOneServes(build, s, s1, c, jobId, templateId, budget);
      forall d | d in rest ensures d in s1.channels && Builds(build, s1, d) {
        assert d in order && d != c;
        assert Builds(build, s, d);
      }
      SendJobsServe(build, s1, s', rest, jobId, templateId, budget - 2);
      ServedFirst(s, s1, s', order, jobId, templateId);
    }
  }

  /** When every job builds and no write fails, one broadcast gives every channel the same
      new job of the latest template and writes two messages to each. */
  lemma {:induction false} BroadcastCompletes(env: Env, s: Conn, order: seq<u32>, budget: nat)
    requires IsWalk(order, s.channels) && s.nextJob < U32_MAX && budget >= 2 * |order|
    requires forall c: u32 :: c in s.channels ==> Buildable(env, s, c, s.nextJob)
    ensures var s' := Broadcast(env, s, order, budget);
            && s'.channels.Keys == s.channels.Keys && |s'.out| == |s.out| + 2 * |order|
            && (forall c: u32 :: c in s'.channels ==> HasJob(s', c, s.nextJob, s.latest.templateId))
  {
    var s1 := s.(unseen := false, nextJob := s.nextJob + 1);
    var build := Jobs(env, s.nextJob, s.latest);
    forall c | c in order ensures c in s1.channels && Builds(build, s1, c) {
      assert Buildable(env, s, c, s.nextJob);
    }
    SendJobsServe(build, s1, Broadcast(env, s, order, budget), order, s.nextJob, s.latest.templateId, budget);
  }

  /** So after it every share for an earlier job gets a stale error. */
  lemma {:induction false} EarlierJobsAreStale(env: Env, s: Conn, order: seq<u32>, budget: nat, share: Submission,
      writes: nat)
    requires IsWalk(order, s.channels) && s.nextJob < U32_MAX && budget >= 2 * |order| && writes > 0
    requires forall c: u32 :: c in s.channels ==> Buildable(env, s, c, s.nextJob)
    requires share.channelId in s.channels && share.jobId != s.nextJob
    ensures var s' := Broadcast(env, s, order, budget);
            && Judge(env, s'.channels, share) == Stale
            && Submit(env, s', share, writes)
              == s'.(out := s'.out + [SharesError(share.channelId, share.sequence, StaleShare)])
  {
    BroadcastCompletes(env, s, order, budget);
    var s' := Broadcast(env, s, order, budget);
    assert HasJob(s', share.channelId, s.nextJob, s.latest.templateId);
    StaleAnswer(env, s', share, writes);
  }

  lemma {:induction false} StaleAnswer(env: Env, s: Conn, share: Submission, writes: nat)
    requires share.channelId in s.channels && s.channels[share.channelId].job.Some? && writes > 0
    requires s.channels[share.channelId].job.value.jobId != share.jobId
    ensures Judge(env, s.channels, share) == Stale
    ensures Submit(env, s, share, writes)
            == s.(out := s.out + [SharesError(share.channelId, share.sequence, StaleShare)])
  {
  }
}
