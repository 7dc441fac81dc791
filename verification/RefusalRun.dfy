/** A run in which a block is refused: the network's target grew after the channel opened. */
module RefusalRun {
  import opened Bytes
  import opened Targets
  import opened Transactions
  import opened NodeTemplate
  import opened Coinbase
  import opened Connection
  import opened ConnectionRuns
  import opened ConnectionTheorems
  import opened ShareTheorems
  import opened TargetTheorems

  // ── A small node ──────────────────────────────────────────────────────────

  const NULL_INPUT := TxIn(Zeros(32), U32_MAX, [], 0)
  const EMPTY_COINBASE := Tx(1, [NULL_INPUT], [], [[]], 0)

  function BlockHeader(nbits: u32): Header { Header(1, Zeros(32), 0, nbits) }

  function PlainTemplate(id: u64, nbits: u32): Template {
    Template(id, 1, 1, [], 0, 0, 0, [], 0, [], Zeros(32), 0, nbits)
  }

  function PlainIssue(id: u64, nbits: u32): Issue {
    Issue(PlainTemplate(id, nbits), BlockHeader(nbits), EMPTY_COINBASE, [])
  }

  lemma {:induction false} PlainIsGenuine(id: u64, nbits: u32)
    ensures Genuine(PlainIssue(id, nbits))
  {
    assert ZeroOutputs(EMPTY_COINBASE.outputs) == [] && SumValues(EMPTY_COINBASE.outputs) == 0;
    assert WriteAll(TXOUT, []) == [];
  }

  /** More than enough for any address, whose scripts have at most 42 bytes. */
  const SHORT := 60000

  predicate ShortScript(env: Env, address: string) {
    env.scriptOf(address).Some? && |env.scriptOf(address).value| <= SHORT
  }

  lemma {:induction false} PlainBuilds(env: Env, address: string, jobId: u32, t: Template)
    requires ShortScript(env, address) && t.scriptPrefix == [] && t.outputs == [] && t.merklePath == []
    ensures BuildJob(env, address, jobId, t).Some?
  {
    PrefixBytes(t, t.outputsCount > 0);
    ShortSuffix(t, env.scriptOf(address).value, t.outputsCount > 0);
  }

  lemma {:induction false} ShortSuffix(t: Template, script: Bytes, segwit: bool)
    requires t.outputs == []
    ensures |Suffix(t, script, segwit)| <= 100 + |script|
  {
    SuffixBytes(t, script, segwit);
    assert |WriteTxOut(TxOut(t.valueRemaining, script))| <= 17 + |script|;
  }

  // ── The run ───────────────────────────────────────────────────────────────

  const GREETING := Arrived(SetupConnection(true, 2, 2), 1, 0)

  function Asking(user: string, h: Hashrate): Event { Arrived(OpenChannel(0, user, h), 3, 0) }

  /** The only channel, with a job of this id. */
  predicate OneChannel(s: Conn, ch: Channel, address: string, jobId: u32) {
    && s.phase == Running && s.channels == map[0 := ch] && ch.channelId == 0 && ch.address == address
    && s.nextJob == jobId + 1 && ch.job.Some? && ch.job.value.jobId == jobId
  }

  lemma {:induction false} AfterGreeting(env: Env, s: Conn)
    requires s == NewConn(s.poolAddress, s.latest, s.unseen, s.recording)
    ensures Step(env, s, GREETING) == s.(phase := Running, out := [SetupSuccess(2, 2)])
  {
    assert [] + [SetupSuccess(2, 2)] == [SetupSuccess(2, 2)];
  }

  lemma {:induction false} AfterAsking(env: Env, s: Conn, s': Conn, user: string, address: string, h: Hashrate)
      returns (ch: Channel)
    requires s.phase == Running && s.nextChannel == 0 && s.nextJob == 1 && s.channels == map[]
    requires address == MinerAddress(env, user, s.poolAddress) && BuildJob(env, address, 1, s.latest).Some?
    requires ChannelTarget(env.checked, h, s.latest.nbits).Some?
    requires s' == Step(env, s, Asking(user, h))
    ensures OneChannel(s', ch, address, 1) && s'.latest == s.latest
    ensures ch.target == ChannelTarget(env.checked, h, s.latest.nbits).value
  {
    var target := ChannelTarget(env.checked, h, s.latest.nbits).value;
    var built := BuildJob(env, address, 1, s.latest);
    ch := Channel(0, ChannelPrefix(0), address, built, target);
    FirstChannel(s, s', address, target, built, ch);
  }

  lemma {:induction false} FirstChannel(s: Conn, s': Conn, address: string, target: Hash, built: Option<Job>,
      ch: Channel)
    requires s.phase == Running && s.nextChannel == 0 && s.nextJob == 1 && s.channels == map[]
    requires built.Some? && built.value.jobId == 1 && ch == Channel(0, ChannelPrefix(0), address, built, target)
    requires s' == OpenFor(s, 0, address, Some(target), built, 3, 0)
    ensures OneChannel(s', ch, address, 1) && s'.latest == s.latest
  {
    assert map[][0 := ch.(job := None)][0 := ch] == map[0 := ch];
  }

  lemma {:induction false} AfterBroadcast(env: Env, s: Conn, s': Conn, ch: Channel, address: string)
      returns (ch': Channel)
    requires OneChannel(s, ch, address, 1) && s.unseen && BuildJob(env, address, 2, s.latest).Some?
    requires IsWalk([0], s.channels) && s' == Broadcast(env, s, [0], 2)
    ensures OneChannel(s', ch', address, 2) && ch'.job.value.nbits == s.latest.nbits && ch'.target == ch.target
  {
    var build := Jobs(env, 2, s.latest);
    ch' := ch.(job := build(address));
    OneServed(build, s.(unseen := false, nextJob := 3), s', ch, ch');
  }

  lemma {:induction false} OneServed(build: Builder, s: Conn, s': Conn, ch: Channel, ch': Channel)
    requires s.phase == Running && s.channels == map[0 := ch] && s.nextJob == 3 && ch.channelId == 0
    requires build(ch.address).Some? && build(ch.address).value.jobId == 2 && ch' == ch.(job := build(ch.address))
    requires s' == SendJobs(build, s, [0], 2)
    ensures OneChannel(s', ch', ch.address, 2)
  {
    var order := [0];
    assert order[1..] == [] && map[0 := ch][0 := ch'] == map[0 := ch'];
  }

  lemma {:induction false} FourSteps(env: Env, s: System, s1: System, s2: System, s3: System, s4: System,
                                     e1: SysEvent, e2: SysEvent, e3: SysEvent, e4: SysEvent) returns (es: seq<SysEvent>)
    requires SysEnabled(s, e1) && s1 == SysStep(env, s, e1) && SysEnabled(s1, e2) && s2 == SysStep(env, s1, e2)
    requires SysEnabled(s2, e3) && s3 == SysStep(env, s2, e3) && SysEnabled(s3, e4) && s4 == SysStep(env, s3, e4)
    ensures SysAllowed(env, s, es) && SysRun(env, s, es) == s4
  {
    es := OneMore(env, s3, s4, e4, []);
    es := OneMore(env, s2, s3, e3, es);
    es := OneMore(env, s1, s2, e2, es);
    es := OneMore(env, s, s1, e1, es);
  }

  lemma {:induction false} OneMore(env: Env, s: System, s': System, e: SysEvent, es: seq<SysEvent>)
      returns (all: seq<SysEvent>)
    requires SysEnabled(s, e) && s' == SysStep(env, s, e) && SysAllowed(env, s', es)
    ensures SysAllowed(env, s, all) && SysRun(env, s, all) == SysRun(env, s', es)
  {
    all := [e] + es;
    assert all[0] == e && all[1..] == es;
  }

  function Start(pool: string, nbits: u32): System {
    System(Node(1, true, [PlainIssue(0, nbits)]), NewConn(pool, PlainTemplate(0, nbits), false, false))
  }

  lemma {:induction false} StartIsInitial(pool: string, nbits: u32)
    ensures Initial(Start(pool, nbits))
  {
    PlainIsGenuine(0, nbits);
  }

  /** Setup and opening under the first target. */
  lemma {:induction false} OpenFirst(env: Env, s: System, user: string, pool: string, h: Hashrate, first: u32)
      returns (s1: System, s2: System, ch: Channel)
    requires ShortScript(env, MinerAddress(env, user, pool)) && ChannelTarget(env.checked, h, first).Some?
    requires s == Start(pool, first)
    ensures SysEnabled(s, Other(GREETING)) && s1 == SysStep(env, s, Other(GREETING))
    ensures SysEnabled(s1, Other(Asking(user, h))) && s2 == SysStep(env, s1, Other(Asking(user, h)))
    ensures OneChannel(s2.conn, ch, MinerAddress(env, user, pool), 1) && s2.node == s.node
    ensures ch.target == ChannelTarget(env.checked, h, first).value
  {
    s1 := SysStep(env, s, Other(GREETING));
    AfterGreeting(env, s.conn);
    s2 := SysStep(env, s1, Other(Asking(user, h)));
    var address := MinerAddress(env, user, pool);
    PlainBuilds(env, address, 1, s1.conn.latest);
    ch := AfterAsking(env, s1.conn, s2.conn, user, address, h);
  }

  function LaterBlock(nbits: u32): SysEvent { NewBlock(BlockHeader(nbits), EMPTY_COINBASE, []) }

  /** A new block with the later target and its broadcast. */
  lemma {:induction false} BroadcastLater(env: Env, s: System, ch: Channel, address: string, later: u32)
      returns (s1: System, s2: System, ch': Channel)
    requires ShortScript(env, address) && OneChannel(s.conn, ch, address, 1) && s.node.alive && s.node.nextId == 1
    ensures SysEnabled(s, LaterBlock(later)) && s1 == SysStep(env, s, LaterBlock(later))
    ensures SysEnabled(s1, Other(Changed([0], 2))) && s2 == SysStep(env, s1, Other(Changed([0], 2)))
    ensures OneChannel(s2.conn, ch', address, 2) && ch'.job.value.nbits == later && ch'.target == ch.target
  {
    PlainIsGenuine(1, later);
    s1 := SysStep(env, s, LaterBlock(later));
    var t := PlainTemplate(1, later);
    assert s1.conn == s.conn.(latest := t, seen := s.conn.seen + [t], unseen := true);
    s2 := SysStep(env, s1, Other(Changed([0], 2)));
    PlainBuilds(env, address, 2, s1.conn.latest);
    ch' := AfterBroadcast(env, s1.conn, s2.conn, ch, address);
  }

  /** After a run the one channel, of `address` and held to `promise`, mines job `j` at the
      network target `later`, and of its shares exactly those win and are refused whose hash
      is above the promise and at most the target. */
  ghost predicate RefusesBetween(env: Env, s: Conn, ch: Channel, j: Job, address: string, promise: nat, later: u32) {
    && s.phase == Running && s.channels == map[0 := ch]
    && ch.address == address && Value(ch.target) == promise && ch.job == Some(j) && j.nbits == later
    && forall share: Submission :: Names(s, share, ch, j) ==>
         (RefusedWinner(env, s, AfterShare(env, s, share), share, ch, j)
          <==> promise < Value(WinningHash(env, share, ch, j)) <= CompactValue(later))
  }

  /** Whatever the hash function, for every miner, every hashrate with a target, and every
      two network targets of which the later is easier than what the channel was promised
      under the first: the pool reaches such a state. */
  lemma {:induction false} RefusalReachable(env: Env, user: string, pool: string, h: Hashrate, first: u32, later: u32)
    returns (s: System, es: seq<SysEvent>, ch: Channel, j: Job)
    requires ShortScript(env, MinerAddress(env, user, pool))
    requires ChannelTarget(env.checked, h, first).Some? && CompactValue(later) > EasierOf(h, first)
    ensures Initial(s) && s.conn.poolAddress == pool && s.conn.latest.nbits == first && SysAllowed(env, s, es)
    ensures RefusesBetween(env, SysRun(env, s, es).conn, ch, j, MinerAddress(env, user, pool), EasierOf(h, first),
                           later)
  {
    var address := MinerAddress(env, user, pool);
    s := Start(pool, first);
    StartIsInitial(pool, first);
    var s1, s2, ch1 := OpenFirst(env, s, user, pool, h, first);
    var s3, s4;
    s3, s4, ch := BroadcastLater(env, s2, ch1, address, later);
    es := FourSteps(env, s, s1, s2, s3, s4, Other(GREETING), Other(Asking(user, h)), LaterBlock(later),
                    Other(Changed([0], 2)));
    j := ch.job.value;
    ChannelTargetValue(env.checked, h, first);
    InitialGood(env, s, false);
    RunKeepsGood(env, s, es, false);
    ReachedRefusal(env, s4.conn, ch, j);
  }

  lemma {:induction false} ReachedRefusal(env: Env, s: Conn, ch: Channel, j: Job)
    requires Good(Legal(env), s, false) && s.phase == Running
    ensures forall share: Submission :: Names(s, share, ch, j) ==>
              (RefusedWinner(env, s, AfterShare(env, s, share), share, ch, j)
               <==> Value(ch.target) < Value(WinningHash(env, share, ch, j)) <= CompactValue(j.nbits))
  {
    forall share: Submission | Names(s, share, ch, j)
      ensures RefusedWinner(env, s, AfterShare(env, s, share), share, ch, j)
              <==> Value(ch.target) < Value(WinningHash(env, share, ch, j)) <= CompactValue(j.nbits)
    {
      AfterShareIs(env, s, share);
      RefusedWinnerIff(env, s, AfterShare(env, s, share), share, ch, j);
    }
  }

  /** And there are hash functions under which such shares exist. */
  lemma {:induction false} WinnersRefused(scriptOf: string -> Option<Bytes>, checked: bool, user: string, pool: string,
      h: Hashrate, first: u32, later: u32)
    returns (env: Env, s: System, es: seq<SysEvent>, share: Submission, ch: Channel, j: Job)
    requires ShortScript(AllHashTo(later, scriptOf, checked),
                         MinerAddress(AllHashTo(later, scriptOf, checked), user, pool))
    requires ChannelTarget(checked, h, first).Some? && CompactValue(later) > EasierOf(h, first)
    ensures env.scriptOf == scriptOf && env.checked == checked
    ensures Initial(s) && s.conn.poolAddress == pool && s.conn.latest.nbits == first && SysAllowed(env, s, es)
    ensures var s' := SysRun(env, s, es).conn;
            Names(s', share, ch, j) && RefusedWinner(env, s', AfterShare(env, s', share), share, ch, j)
  {
    env := AllHashTo(later, scriptOf, checked);
    s, es, ch, j := RefusalReachable(env, user, pool, h, first, later);
    share := Submission(0, 0, j.jobId, 0, 0, 0, []);
    InitialGood(env, s, false);
    RunKeepsGood(env, s, es, false);
    var s' := SysRun(env, s, es).conn;
    var tx := NeverUndecodable(env, s', share, ch, j);
    HashesToTarget(env, share, ch, j);
    CompactTargetValue(later);
  }

  // ── With numbers ──────────────────────────────────────────────────────────

  /** A miner of 1 GH/s opens its channel while the network target is that of 0x1700ffff and
      is given a job at difficulty 1. */
  lemma {:induction false} EasierNetworkRefusesBlocks(env: Env, user: string, pool: string)
    returns (s: System, es: seq<SysEvent>, ch: Channel, j: Job)
    requires ShortScript(env, MinerAddress(env, user, pool))
    ensures ValidF32(Finite(1000000000.0)) && Difficulty(Finite(1000000000.0)) == 6
    ensures CompactValue(0x1d00_ffff) == PDIFF1_VALUE
    ensures Initial(s) && s.conn.poolAddress == pool && s.conn.latest.nbits == 0x1700_ffff && SysAllowed(env, s, es)
    ensures RefusesBetween(env, SysRun(env, s, es).conn, ch, j, MinerAddress(env, user, pool), PDIFF1_VALUE / 6,
                           0x1d00_ffff)
  {
    var h := Finite(1000000000.0);
    assert Difficulty(h) == 6;
    HashrateTargetMeaning(env.checked, h);
    HardBits();
    EasyBits();
    var first: u32, later: u32 := 0x1700_ffff, 0x1d00_ffff;
    s, es, ch, j := RefusalReachable(env, user, pool, h, first, later);
  }

  lemma {:induction false} HardBits()
    ensures CompactValue(0x1700_ffff) < PDIFF1_VALUE / 6
  {
    Pow256Large();
    Pow256Add(14, 6);
    Pow256Add(4, 2);
    Pow256Constants();
    assert Shifted(0xffff, 20) == 0xffff * Pow256(20);
  }

  lemma {:induction false} EasyBits()
    ensures CompactValue(0x1d00_ffff) == PDIFF1_VALUE
  {
    Pow256Large();
    CompactParts(0x1d00_ffff, 29, 0xffff, 0x1_0000_0000_0000_0000_0000_0000_0000_0000_0000_0000_0000_0000_0000);
  }

  lemma {:induction false} CompactParts(bits: u32, exp: nat, mantissa: nat, p: nat)
    requires bits / 0x100_0000 == exp && bits % 0x80_0000 == mantissa && 3 <= exp <= 32 && Pow256(exp - 3) == p
    ensures CompactValue(bits) == mantissa * p
  {
  }
}
