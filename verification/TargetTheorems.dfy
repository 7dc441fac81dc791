/** What a channel promises its miner when it opens, over every run of a connection fed by
    the node. */
module TargetTheorems {
  import opened Bytes
  import opened Targets
  import opened Transactions
  import opened Coinbase
  import opened Tables
  import opened Connection
  import opened ConnectionRuns
  import opened ConnectionTheorems
  import opened ShareTheorems

  // ── The target of an opened channel ───────────────────────────────────────

  /** In state `s` event `e` opens channel `c` for the declared hashrate `h`. */
  predicate Opens(env: Env, s: System, e: SysEvent, c: u32, h: Hashrate) {
    && SysEnabled(s, e) && e.Other? && e.event.Arrived? && e.event.frame.OpenChannel? && e.event.frame.hashrate == h
    && s.conn.phase == Running && c == s.conn.nextChannel && c in SysStep(env, s, e).conn.channels
  }

  /** A run of the system in which `c` is opened after `before` and used in `after`. */
  predicate OpenedRun(env: Env, s: System, before: seq<SysEvent>, e: SysEvent, after: seq<SysEvent>, c: u32,
      h: Hashrate) {
    && Initial(s) && SysAllowed(env, s, before)
    && Opens(env, SysRun(env, s, before), e, c, h)
    && SysAllowed(env, SysStep(env, SysRun(env, s, before), e), after)
  }

  function Finally(env: Env, s: System, before: seq<SysEvent>, e: SysEvent, after: seq<SysEvent>, c: u32,
      h: Hashrate): Conn
    requires OpenedRun(env, s, before, e, after, c, h)
  {
    SysRun(env, SysStep(env, SysRun(env, s, before), e), after).conn
  }

  /** The easier of what the hashrate is worth and what the network asked. */
  function EasierOf(h: Hashrate, nbits: u32): nat {
    if CompactValue(nbits) > HashrateValue(h) then CompactValue(nbits) else HashrateValue(h)
  }

  /** The number a channel opened in this run is held to. */
  function Promised(env: Env, s: System, before: seq<SysEvent>, e: SysEvent, after: seq<SysEvent>, c: u32,
      h: Hashrate): nat
    requires OpenedRun(env, s, before, e, after, c, h)
  {
    EasierOf(h, SysRun(env, s, before).conn.latest.nbits)
  }

  lemma {:induction false} ChannelTargetValue(checked: bool, h: Hashrate, nbits: u32)
    requires ChannelTarget(checked, h, nbits).Some?
    ensures Value(ChannelTarget(checked, h, nbits).value) == EasierOf(h, nbits)
  {
    HashrateTargetMeaning(checked, h);
    CompactTargetValue(nbits);
  }

  lemma {:induction false} FirstJobSets(s: Conn, s': Conn, ch: Channel, built: Option<Job>, budget: nat, clock: int)
    requires s' == FirstJob(s, ch, built, budget, clock) && ch.channelId in s.channels && s.channels[ch.channelId] == ch
    requires ch.job == None
    ensures ch.channelId in s'.channels && s'.channels[ch.channelId].target == ch.target && s'.latest == s.latest
    ensures s'.channels[ch.channelId].address == ch.address
    ensures s'.channels[ch.channelId].job.Some? ==> s'.channels[ch.channelId].job == built
  {
  }

  lemma {:induction false} OpenForSets(s: Conn, s': Conn, requestId: u32, address: string, target: Option<Hash>,
      built: Option<Job>, budget: nat, clock: int)
    requires s' == OpenFor(s, requestId, address, target, built, budget, clock)
    requires s.nextChannel !in s.channels && s.nextChannel in s'.channels
    ensures target.Some? && s'.channels[s.nextChannel].target == target.value && s'.latest == s.latest
    ensures s'.channels[s.nextChannel].address == address
    ensures s'.channels[s.nextChannel].job.Some? ==> s'.channels[s.nextChannel].job == built
  {
    var id := s.nextChannel;
    if id < U32_MAX && target.Some? && budget > 0 {
      var ch := Channel(id, ChannelPrefix(id), address, None, target.value);
      FirstJobSets(s.(nextChannel := id + 1, out := s.out + [OpenReply(requestId, ch)],
                      channels := s.channels[id := ch]),
                   s', ch, built, budget - 1, clock);
    }
  }

  lemma {:induction false} OpeningTarget(env: Env, s: System, s': System, e: SysEvent, c: u32, h: Hashrate)
    requires SystemGood(env, s, false) && Opens(env, s, e, c, h) && s' == SysStep(env, s, e)
    ensures Value(s'.conn.channels[c].target) == EasierOf(h, s.conn.latest.nbits) && s'.conn.latest == s.conn.latest
    ensures s'.conn.channels[c].address == MinerAddress(env, e.event.frame.user, s.conn.poolAddress)
    ensures s'.conn.channels[c].job.Some? ==> s'.conn.channels[c].job.value.nbits == s.conn.latest.nbits
  {
    var o := e.event.frame;
    var address := MinerAddress(env, o.user, s.conn.poolAddress);
    assert ChannelGood(Legal(env), s.conn, c, false);
    OpenForSets(s.conn, s'.conn, o.requestId, address, ChannelTarget(env.checked, h, s.conn.latest.nbits),
                BuildJob(env, address, s.conn.nextJob, s.conn.latest), e.event.budget, e.event.clock);
    ChannelTargetValue(env.checked, h, s.conn.latest.nbits);
  }

  /** In every later state a channel is held to the easier of its declared hashrate's target
      and the network's when it opened. */
  lemma {:induction false} TargetIsPromised(env: Env, s: System, before: seq<SysEvent>, e: SysEvent,
      after: seq<SysEvent>, c: u32, h: Hashrate)
    requires OpenedRun(env, s, before, e, after, c, h)
    ensures c in Finally(env, s, before, e, after, c, h).channels
    ensures Value(Finally(env, s, before, e, after, c, h).channels[c].target)
            == Promised(env, s, before, e, after, c, h)
  {
    InitialGood(env, s, false);
    RunKeepsGood(env, s, before, false);
    var s1 := SysRun(env, s, before);
    OpeningTarget(env, s1, SysStep(env, s1, e), e, c, h);
    SystemStepKeepsGood(env, s1, e, false);
    JobsOnlyAdvance(env, SysStep(env, s1, e), after, c);
  }

  lemma {:induction false} FinallyGood(env: Env, s: System, before: seq<SysEvent>, e: SysEvent, after: seq<SysEvent>,
      c: u32, h: Hashrate)
    requires OpenedRun(env, s, before, e, after, c, h)
    ensures Good(Legal(env), Finally(env, s, before, e, after, c, h), false)
  {
    InitialGood(env, s, false);
    RunKeepsGood(env, s, before, false);
    SystemStepKeepsGood(env, SysRun(env, s, before), e, false);
    RunKeepsGood(env, SysStep(env, SysRun(env, s, before), e), after, false);
  }

  // ── Block-winning shares ──────────────────────────────────────────────────

  /** The share arrives and its reply can be written. */
  function AfterShare(env: Env, s: Conn, share: Submission): Conn {
    Step(env, s, Arrived(SubmitShares(share), 1, 0))
  }

  lemma {:induction false} AfterShareIs(env: Env, s: Conn, share: Submission)
    requires s.phase == Running
    ensures AfterShare(env, s, share) == Submit(env, s, share, 1)
  {
  }

  /** From `s` to `s'` the share became a solution and was answered with success. */
  predicate Forwards(s: Conn, s': Conn, share: Submission, ch: Channel, j: Job) {
    && s'.solutions == s.solutions + [SolutionOf(ch, j, share)]
    && s'.out == s.out + [SharesSuccess(share.channelId, share.sequence, 1, 1)]
  }

  /** Every share of the channel's current job that wins the block is accepted and forwarded,
      whatever the hash function. */
  ghost predicate LosesNoBlock(s: Conn, ch: Channel, j: Job) {
    forall env: Env, share: Submission :: Names(s, share, ch, j) && Wins(env, SolutionOf(ch, j, share), j) ==>
      Forwards(s, AfterShare(env, s, share), share, ch, j)
  }

  function WinningHash(env: Env, share: Submission, ch: Channel, j: Job): Hash {
    match Deserialize(ShareCoinbase(ch, j, share))
    case None => Zeros(32)
    case Some(tx) => ShareHash(env, j, share, tx)
  }

  lemma {:induction false} JudgeOfWinner(env: Env, s: Conn, share: Submission, ch: Channel, j: Job)
    requires Names(s, share, ch, j) && Wins(env, SolutionOf(ch, j, share), j)
    ensures Judge(env, s.channels, share) == Grade(WinningHash(env, share, ch, j), ch.target, j.nbits)
    ensures Value(WinningHash(env, share, ch, j)) <= CompactValue(j.nbits)
  {
  }

  lemma {:induction false} EasyTargetForwards(env: Env, s: Conn, s': Conn, share: Submission, ch: Channel, j: Job)
    requires s.phase == Running && Names(s, share, ch, j)
    requires Wins(env, SolutionOf(ch, j, share), j) && CompactValue(j.nbits) <= Value(ch.target)
    requires s' == Submit(env, s, share, 1)
    ensures Forwards(s, s', share, ch, j)
  {
    JudgeOfWinner(env, s, share, ch, j);
  }

  /** A hash function under which every share of the job hashes to its network target. */
  function AllHashTo(nbits: u32, scriptOf: string -> Option<Bytes>, checked: bool): Env {
    Env(_ => Reverse(CompactTarget(nbits)), scriptOf, checked)
  }

  lemma {:induction false} HashesToTarget(env: Env, share: Submission, ch: Channel, j: Job)
    requires env == AllHashTo(j.nbits, env.scriptOf, env.checked)
    requires Deserialize(ShareCoinbase(ch, j, share)).Some?
    ensures Wins(env, SolutionOf(ch, j, share), j) && WinningHash(env, share, ch, j) == CompactTarget(j.nbits)
  {
    ReverseInvolutive(CompactTarget(j.nbits));
    CompactTargetValue(j.nbits);
  }

  lemma {:induction false} HardTargetRefuses(env: Env, s: Conn, s': Conn, share: Submission, ch: Channel, j: Job)
    requires s.phase == Running && Names(s, share, ch, j) && CompactValue(j.nbits) > Value(ch.target)
    requires env == AllHashTo(j.nbits, env.scriptOf, env.checked) && Deserialize(ShareCoinbase(ch, j, share)).Some?
    requires s' == Submit(env, s, share, 1)
    ensures Wins(env, SolutionOf(ch, j, share), j) && Judge(env, s.channels, share) == TooLow
    ensures s' == s.(out := s.out + [SharesError(share.channelId, share.sequence, DifficultyTooLow)])
  {
    HashesToTarget(env, share, ch, j);
    JudgeOfWinner(env, s, share, ch, j);
    CompactTargetValue(j.nbits);
  }

  /** Exactly when no block is lost, in every run: while the connection is up a channel
      forwards all winning shares of its current job if and only if the job's network target is
      at most the easier of the hashrate's target and the network's when the channel opened. */
  lemma {:induction false} LosesNoBlockIff(env: Env, s: System, before: seq<SysEvent>, e: SysEvent,
      after: seq<SysEvent>, c: u32, h: Hashrate, j: Job)
    requires OpenedRun(env, s, before, e, after, c, h)
    requires var s' := Finally(env, s, before, e, after, c, h);
             s'.phase == Running && c in s'.channels && s'.channels[c].job == Some(j)
    ensures var s' := Finally(env, s, before, e, after, c, h);
            LosesNoBlock(s', s'.channels[c], j) <==> CompactValue(j.nbits) <= Promised(env, s, before, e, after, c, h)
  {
    var s' := Finally(env, s, before, e, after, c, h);
    TargetIsPromised(env, s, before, e, after, c, h);
    FinallyGood(env, s, before, e, after, c, h);
    LosesNoBlockAt(env, s', c, s'.channels[c], j);
  }

  lemma {:induction false} LosesNoBlockAt(env: Env, s: Conn, c: u32, ch: Channel, j: Job)
    requires Good(Legal(env), s, false) && s.phase == Running && c in s.channels && s.channels[c] == ch
    requires ch.job == Some(j)
    ensures LosesNoBlock(s, ch, j) <==> CompactValue(j.nbits) <= Value(ch.target)
  {
    if CompactValue(j.nbits) <= Value(ch.target) {
      forall env': Env, share: Submission | Names(s, share, ch, j) && Wins(env', SolutionOf(ch, j, share), j)
        ensures Forwards(s, AfterShare(env', s, share), share, ch, j)
      {
        AfterShareIs(env', s, share);
        EasyTargetForwards(env', s, AfterShare(env', s, share), share, ch, j);
      }
    } else {
      var share := Submission(c, 0, j.jobId, 0, 0, 0, []);
      var tx := NeverUndecodable(env, s, share, ch, j);
      var env' := AllHashTo(j.nbits, env.scriptOf, env.checked);
      AfterShareIs(env', s, share);
      HardTargetRefuses(env', s, AfterShare(env', s, share), share, ch, j);
      assert |s.solutions + [SolutionOf(ch, j, share)]| != |s.solutions|;
      assert !Forwards(s, AfterShare(env', s, share), share, ch, j);
    }
  }

  /** The share wins the block and is refused, with nothing else done about it. */
  predicate RefusedWinner(env: Env, s: Conn, s': Conn, share: Submission, ch: Channel, j: Job) {
    && Wins(env, SolutionOf(ch, j, share), j)
    && s' == s.(out := s.out + [SharesError(share.channelId, share.sequence, DifficultyTooLow)])
  }

  lemma {:induction false} RefusedWinnerIff(env: Env, s: Conn, s': Conn, share: Submission, ch: Channel, j: Job)
    requires Good(Legal(env), s, false) && s.phase == Running && Names(s, share, ch, j)
    requires s' == Submit(env, s, share, 1)
    ensures RefusedWinner(env, s, s', share, ch, j)
            <==> Value(ch.target) < Value(WinningHash(env, share, ch, j)) <= CompactValue(j.nbits)
  {
    var tx := NeverUndecodable(env, s, share, ch, j);
    var hash := ShareHash(env, j, share, tx);
    DecisionOfGrade(s, s', share, ch, j, hash, 1);
    assert Wins(env, SolutionOf(ch, j, share), j) <==> Value(hash) <= CompactValue(j.nbits);
    var m := SharesError(share.channelId, share.sequence, DifficultyTooLow);
    if Value(hash) > Value(ch.target) {
      assert s' == s.(out := s.out + [m]);
    } else {
      assert s'.out[|s.out|] != (s.out + [m])[|s.out|];
    }
  }

  /** The network's target stays at or below `n`. */
  predicate NetworkBelow(env: Env, s: System, es: seq<SysEvent>, n: nat)
    requires SysAllowed(env, s, es)
    decreases es
  {
    CompactValue(s.conn.latest.nbits) <= n && (es == [] || NetworkBelow(env, SysStep(env, s, es[0]), es[1..], n))
  }

  predicate JobBelow(s: Conn, c: u32, n: nat) {
    c in s.channels && (s.channels[c].job.Some? ==> CompactValue(s.channels[c].job.value.nbits) <= n)
  }

  lemma {:induction false} RunKeepsJobBelow(env: Env, s: System, es: seq<SysEvent>, c: u32, n: nat)
    requires SystemGood(env, s, false) && SysAllowed(env, s, es) && NetworkBelow(env, s, es, n)
    requires JobBelow(s.conn, c, n)
    ensures JobBelow(SysRun(env, s, es).conn, c, n)
    decreases es
  {
    if es != [] {
      var s' := SysStep(env, s, es[0]);
      if es[0].Other? {
        StepEvolves(env, s.conn, s'.conn, es[0].event);
        assert ChannelEvolves(s.conn, s'.conn, c);
      }
      SystemStepKeepsGood(env, s, es[0], false);
      RunKeepsJobBelow(env, s', es[1..], c, n);
    }
  }

  /** While the network's target stays at or below what the channel was promised, in any
      order of easier and harder, every share of the current job that wins the block is
      accepted, answered with success and forwarded as a solution. */
  lemma {:induction false} BlockWinningShareForwarded(env: Env, s: System, before: seq<SysEvent>, e: SysEvent,
      after: seq<SysEvent>, c: u32, h: Hashrate, share: Submission, ch: Channel, j: Job)
    requires OpenedRun(env, s, before, e, after, c, h)
    requires NetworkBelow(env, SysStep(env, SysRun(env, s, before), e), after, Promised(env, s, before, e, after, c, h))
    requires Finally(env, s, before, e, after, c, h).phase == Running
    requires share.channelId == c && Names(Finally(env, s, before, e, after, c, h), share, ch, j)
    ensures var s' := Finally(env, s, before, e, after, c, h);
            && Deserialize(ShareCoinbase(ch, j, share)).Some?
            && (Wins(env, SolutionOf(ch, j, share), j) <==>
                  AfterShare(env, s', share).solutions == s'.solutions + [SolutionOf(ch, j, share)])
            && (Wins(env, SolutionOf(ch, j, share), j) ==>
                  AfterShare(env, s', share).out == s'.out + [SharesSuccess(c, share.sequence, 1, 1)])
  {
    InitialGood(env, s, false);
    RunKeepsGood(env, s, before, false);
    var s1 := SysRun(env, s, before);
    var s2 := SysStep(env, s1, e);
    OpeningTarget(env, s1, s2, e, c, h);
    SystemStepKeepsGood(env, s1, e, false);
    RunKeepsJobBelow(env, s2, after, c, Promised(env, s, before, e, after, c, h));
    TargetIsPromised(env, s, before, e, after, c, h);
    FinallyGood(env, s, before, e, after, c, h);
    var s' := Finally(env, s, before, e, after, c, h);
    AfterShareIs(env, s', share);
    WinnerOutcome(env, s', AfterShare(env, s', share), share, ch, j);
  }

  lemma {:induction false} WinnerOutcome(env: Env, s: Conn, s': Conn, share: Submission, ch: Channel, j: Job)
    requires Good(Legal(env), s, false) && s.phase == Running
    requires Names(s, share, ch, j) && CompactValue(j.nbits) <= Value(ch.target) && s' == Submit(env, s, share, 1)
    ensures Deserialize(ShareCoinbase(ch, j, share)).Some?
    ensures Wins(env, SolutionOf(ch, j, share), j) <==> s'.solutions == s.solutions + [SolutionOf(ch, j, share)]
    ensures Wins(env, SolutionOf(ch, j, share), j) ==>
            s'.out == s.out + [SharesSuccess(share.channelId, share.sequence, 1, 1)]
  {
    var tx := NeverUndecodable(env, s, share, ch, j);
    var hash := ShareHash(env, j, share, tx);
    DecisionOfGrade(s, s', share, ch, j, hash, 1);
    assert Wins(env, SolutionOf(ch, j, share), j) <==> Value(hash) <= CompactValue(j.nbits);
    assert |s.solutions + [SolutionOf(ch, j, share)]| != |s.solutions|;
  }

  /** Where the declared hashrate decided the target, each stored share of the channel is
      credited at least the difficulty the hashrate was given. */
  lemma {:induction false} CreditCoversDifficulty(env: Env, s: System, before: seq<SysEvent>, e: SysEvent,
      after: seq<SysEvent>, c: u32, h: Hashrate, i: nat)
    requires OpenedRun(env, s, before, e, after, c, h) && h != PosInf
    requires CompactValue(SysRun(env, s, before).conn.latest.nbits) <= HashrateValue(h)
    requires i < |SharesOf(Finally(env, s, before, e, after, c, h).db)|
    requires i < |Successes(Finally(env, s, before, e, after, c, h).out)|
    requires Successes(Finally(env, s, before, e, after, c, h).out)[i] == c
    ensures SharesOf(Finally(env, s, before, e, after, c, h).db)[i].difficulty >= Difficulty(h) as real
  {
    InitialGood(env, s, false);
    RunKeepsGood(env, s, before, false);
    RunKeepsLogs(env, s, before);
    var s1 := SysRun(env, s, before);
    StepKeepsLogs(env, s1, SysStep(env, s1, e), e);
    SystemStepKeepsGood(env, s1, e, false);
    RunKeepsLogs(env, SysStep(env, s1, e), after);
    TargetIsPromised(env, s, before, e, after, c, h);
    var s' := Finally(env, s, before, e, after, c, h);
    assert StoredOk(s', SharesOf(s'.db)[i], Successes(s'.out)[i]);
    CreditAtLeastDifficulty(SharesOf(s'.db)[i].hash, Difficulty(h));
  }
}
