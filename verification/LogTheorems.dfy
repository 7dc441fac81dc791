/** What each message a connection writes says, in every run fed by the node. */
module LogTheorems {
  import opened Bytes
  import opened Transactions
  import opened NodeTemplate
  import opened Coinbase
  import opened Connection
  import opened ConnectionRuns
  import opened ConnectionTheorems
  import opened ShareTheorems
  import opened TargetTheorems

  // ── Every message was written by an event ─────────────────────────────────

  lemma {:induction false} StepOutGrows(env: Env, s: System, s': System, e: SysEvent)
    requires SystemGood(env, s, false) && SysEnabled(s, e) && s' == SysStep(env, s, e)
    ensures s.conn.out <= s'.conn.out && (e.NewBlock? ==> s'.conn.out == s.conn.out)
  {
    if e.Other? && s.conn.phase != AwaitingSetup {
      StepAppends(env, s.conn, s'.conn, e.event);
    }
  }

  lemma {:induction false} OutGrows(env: Env, s: System, es: seq<SysEvent>)
    requires SystemGood(env, s, false) && SysAllowed(env, s, es)
    ensures s.conn.out <= SysRun(env, s, es).conn.out
    decreases es
  {
    if es != [] {
      StepOutGrows(env, s, SysStep(env, s, es[0]), es[0]);
      SystemStepKeepsGood(env, s, es[0], false);
      OutGrows(env, SysStep(env, s, es[0]), es[1..]);
    }
  }

  lemma {:induction false} RunFromLater(env: Env, s: System, s': System, e0: SysEvent, before: seq<SysEvent>)
    requires SysEnabled(s, e0) && s' == SysStep(env, s, e0) && SysAllowed(env, s', before)
    ensures SysAllowed(env, s, [e0] + before) && SysRun(env, s, [e0] + before) == SysRun(env, s', before)
  {
    var all := [e0] + before;
    assert all[0] == e0 && all[1..] == before;
  }

  /** Message `i` of the run was written between `s1`, reached by `before`, and `s2`. */
  ghost predicate IsOrigin(env: Env, s: System, es: seq<SysEvent>, i: nat, before: seq<SysEvent>, e: SysEvent,
      after: seq<SysEvent>, s1: System, s2: System)
    requires SysAllowed(env, s, es) && i < |SysRun(env, s, es).conn.out|
  {
    && es == before + [e] + after && SysAllowed(env, s, before) && s1 == SysRun(env, s, before)
    && |s1.conn.out| <= i < |s2.conn.out| && s2.conn.out[i] == SysRun(env, s, es).conn.out[i]
  }

  lemma {:induction false} OneBefore(es: seq<SysEvent>, before: seq<SysEvent>, e: SysEvent, after: seq<SysEvent>)
    requires es != [] && es[1..] == before + [e] + after
    ensures es == [es[0]] + before + [e] + after
  {
    assert es == [es[0]] + es[1..];
  }

  lemma {:induction false} MessageOrigin(env: Env, s: System, es: seq<SysEvent>, i: nat)
    returns (before: seq<SysEvent>, e: SysEvent, after: seq<SysEvent>, s1: System, s2: System)
    requires SystemGood(env, s, false) && SysAllowed(env, s, es)
    requires |s.conn.out| <= i < |SysRun(env, s, es).conn.out|
    ensures IsOrigin(env, s, es, i, before, e, after, s1, s2)
    ensures SystemGood(env, s1, false) && SysEnabled(s1, e) && e.Other? && s2 == SysStep(env, s1, e)
    decreases es
  {
    var s' := SysStep(env, s, es[0]);
    SystemStepKeepsGood(env, s, es[0], false);
    if i < |s'.conn.out| {
      before, e, after, s1, s2 := [], es[0], es[1..], s, s';
      StepOutGrows(env, s, s', es[0]);
      OutGrows(env, s', es[1..]);
      assert es == [] + [e] + after;
    } else {
      before, e, after, s1, s2 := MessageOrigin(env, s', es[1..], i);
      RunFromLater(env, s, s', es[0], before);
      OneBefore(es, before, e, after);
      before := [es[0]] + before;
    }
  }

  // ── What an event writes ──────────────────────────────────────────────────

  /** Job and activation as built for the address of the channel they name. */
  predicate Announces(build: Builder, channels: map<u32, Channel>, m: Message) {
    (m.NewJob? || m.NewPrevHash?) &&
    m.channelId in channels &&
    var built := build(channels[m.channelId].address);
    built.Some? && m == (if m.NewJob? then JobMessage(m.channelId, built.value)
                         else PrevHashMessage(m.channelId, built.value))
  }

  /** From `s` to `s'` only such messages were written. */
  predicate AnnouncesOnly(build: Builder, s: Conn, s': Conn) {
    && s.out <= s'.out
    && forall i :: |s.out| <= i < |s'.out| ==> Announces(build, s'.channels, s'.out[i])
  }

  /** Channels stay, with their addresses. */
  predicate SameAddresses(s: Conn, s': Conn) {
    forall c: u32 :: c in s.channels ==> c in s'.channels && s'.channels[c].address == s.channels[c].address
  }

  lemma {:induction false} StillAnnounces(build: Builder, s: Conn, s': Conn, s'': Conn)
    requires AnnouncesOnly(build, s, s') && AnnouncesOnly(build, s', s'') && SameAddresses(s', s'')
    ensures AnnouncesOnly(build, s, s'')
  {
    forall i | |s.out| <= i < |s''.out| ensures Announces(build, s''.channels, s''.out[i]) {
      if i < |s'.out| {
        assert Announces(build, s'.channels, s'.out[i]) && s''.out[i] == s'.out[i];
      }
    }
  }

  lemma {:induction false} SendOneAnnounces(build: Builder, s: Conn, s': Conn, c: u32, budget: nat)
    requires c in s.channels && s' == SendOne(s, c, build(s.channels[c].address), budget).conn
    ensures AnnouncesOnly(build, s, s') && SameAddresses(s, s')
  {
  }

  lemma {:induction false} SendJobsAnnounce(build: Builder, s: Conn, s': Conn, order: seq<u32>, budget: nat)
    requires (forall c :: c in order ==> c in s.channels) && s' == SendJobs(build, s, order, budget)
    ensures AnnouncesOnly(build, s, s') && SameAddresses(s, s')
    decreases order
  {
    if order != [] {
      var sent := SendOne(s, order[0], build(s.channels[order[0]].address), budget);
      SendOneAnnounces(build, s, sent.conn, order[0], budget);
      if sent.all {
        SendJobsAnnounce(build, sent.conn, s', order[1..], budget - 2);
        StillAnnounces(build, s, sent.conn, s');
      }
    }
  }

  lemma {:induction false} BroadcastAnnounces(env: Env, s: Conn, s': Conn, order: seq<u32>, budget: nat)
    requires IsWalk(order, s.channels) && s' == Broadcast(env, s, order, budget)
    ensures AnnouncesOnly(Jobs(env, s.nextJob, s.latest), s, s')
  {
    if s.nextJob < U32_MAX {
      var s1 := s.(unseen := false, nextJob := s.nextJob + 1);
      SendJobsAnnounce(Jobs(env, s.nextJob, s.latest), s1, s', order, budget);
    }
  }

  predicate IsOfJob(m: Message, c: u32, j: Job) {
    m == JobMessage(c, j) || m == PrevHashMessage(c, j)
  }

  /** Opening writes the answer and then at most the first job and its activation. */
  predicate OpeningWrites(s: Conn, s': Conn, requestId: u32, address: string, target: Option<Hash>,
      built: Option<Job>) {
    && s.out <= s'.out
    && (|s'.out| > |s.out| ==>
          && target.Some? && s.nextChannel in s'.channels && s'.channels[s.nextChannel].address == address
          && var ch := Channel(s.nextChannel, ChannelPrefix(s.nextChannel), address, None, target.value);
             s'.out[|s.out|] == OpenReply(requestId, ch))
    && forall i :: |s.out| < i < |s'.out| ==>
         built.Some? && IsOfJob(s'.out[i], s.nextChannel, built.value)
  }

  lemma {:induction false} FirstJobWrites(s: Conn, s': Conn, ch: Channel, built: Option<Job>, budget: nat, clock: int)
    requires s' == FirstJob(s, ch, built, budget, clock) && ch.channelId in s.channels && s.channels[ch.channelId] == ch
    ensures s.out <= s'.out && ch.channelId in s'.channels && s'.channels[ch.channelId].address == ch.address
    ensures forall i :: |s.out| <= i < |s'.out| ==>
              built.Some? && IsOfJob(s'.out[i], ch.channelId, built.value)
  {
  }

  lemma {:induction false} OpenWithWrites(s: Conn, s': Conn, requestId: u32, ch: Channel, built: Option<Job>,
      budget: nat, clock: int)
    requires s' == OpenWith(s, requestId, ch, built, budget, clock)
    ensures s.out <= s'.out
    ensures |s'.out| > |s.out| ==>
              && s'.out[|s.out|] == OpenReply(requestId, ch)
              && ch.channelId in s'.channels && s'.channels[ch.channelId].address == ch.address
    ensures forall i :: |s.out| < i < |s'.out| ==> built.Some? && IsOfJob(s'.out[i], ch.channelId, built.value)
  {
    if budget > 0 {
      var s1 := s.(out := s.out + [OpenReply(requestId, ch)], channels := s.channels[ch.channelId := ch]);
      FirstJobWrites(s1, s', ch, built, budget - 1, clock);
    }
  }

  lemma {:induction false} OpenForWrites(s: Conn, s': Conn, requestId: u32, address: string, target: Option<Hash>,
      built: Option<Job>, budget: nat, clock: int)
    requires s' == OpenFor(s, requestId, address, target, built, budget, clock)
    ensures OpeningWrites(s, s', requestId, address, target, built)
  {
    if s.nextChannel < U32_MAX && target.Some? {
      var ch := Channel(s.nextChannel, ChannelPrefix(s.nextChannel), address, None, target.value);
      OpenWithWrites(s.(nextChannel := s.nextChannel + 1), s', requestId, ch, built, budget, clock);
      assert |s'.out| > |s.out| ==> s'.out[|s.out|] == OpenReply(requestId, ch);
    } else {
      assert s'.out == s.out;
    }
  }

  // ── What each message says ────────────────────────────────────────────────

  /** An announcement names the job id used next, and says of the block `i` what its miner
      must know: version, path and a coinbase that pays the channel's address, or previous
      hash, time and bits. */
  ghost predicate SaysOfBlock(env: Env, s: Conn, s': Conn, m: Message, i: Issue) {
    && (m.NewJob? || m.NewPrevHash?) && m.jobId == s.nextJob
    && m.channelId in s'.channels && env.scriptOf(s'.channels[m.channelId].address).Some?
    && (m.NewJob? ==>
          && m.version == i.header.version && m.merklePath == i.path
          && forall extranonce: Bytes :: |extranonce| == EXTRANONCE_TOTAL ==>
               Gives(env, m.coinb1 + extranonce + m.coinb2, i, s'.channels[m.channelId].address, extranonce))
    && (m.NewPrevHash? ==> m.prevHash == i.header.prevHash && m.minNtime == i.header.time && m.nbits == i.header.bits)
  }

  ghost predicate Gives(env: Env, coinbase: Bytes, i: Issue, address: string, extranonce: Bytes) {
    && env.scriptOf(address).Some? && Deserialize(coinbase).Some?
    && MinedFrom(Deserialize(coinbase).value, i, env.scriptOf(address).value, extranonce)
  }

  /** The answer to an opening: its request id, the next channel id, the target held to, read
      little-endian, four free bytes, and the channel's prefix. */
  predicate AnswersOpening(s: Conn, m: Message, f: Frame) {
    && m.OpenSuccess? && f.OpenChannel? && m.requestId == f.requestId && m.channelId == s.nextChannel
    && |m.target| == 32 && FromLittleEndian(m.target) == EasierOf(f.hashrate, s.latest.nbits)
    && m.extranonceSize == 4 && m.prefix == LittleEndian(m.channelId, 4) + Zeros(28)
  }

  /** The answer to a share of an open channel; for the channel's last job the verdict on the
      block hash. */
  ghost predicate AnswersShare(env: Env, s: Conn, m: Message, f: Frame) {
    && (m.SharesSuccess? || m.SharesError?) && f.SubmitShares?
    && m.channelId == f.share.channelId && m.channelId in s.channels
    && var ch := s.channels[m.channelId];
       if ch.job == None || ch.job.value.jobId != f.share.jobId then
         m == SharesError(m.channelId, f.share.sequence, StaleShare)
       else exists hash: Hash :: IsShareHash(env, ch, ch.job.value, f.share, hash) && m == AnswerTo(ch, f.share, hash)
  }

  function AnswerTo(ch: Channel, share: Submission, hash: Hash): Message {
    if Value(hash) <= Value(ch.target) then SharesSuccess(share.channelId, share.sequence, 1, 1)
    else SharesError(share.channelId, share.sequence, DifficultyTooLow)
  }

  /** The answer to the first frame. */
  predicate AnswersSetup(m: Message, f: Frame) {
    match f
    case HandShake => false
    case NoHeader => false
    case MalformedSetup => false
    case SetupConnection(mining, minVersion, maxVersion) =>
      m == if !mining then SetupError(UnsupportedProtocol)
           else if minVersion <= 2 <= maxVersion then SetupSuccess(2, 2)
           else SetupError(VersionMismatch)
    case _ => m == SetupError(UnsupportedMessage)
  }

  /** Why event `e` may write `m` in a state `s` that becomes `s'`. */
  ghost predicate Justified(env: Env, s: System, s': Conn, e: Event, m: Message) {
    if s.conn.phase == AwaitingSetup then e.Arrived? && AnswersSetup(m, e.frame)
    else
      && s.conn.phase == Running && s.node.issued != []
      && (m.OpenSuccess? ==> e.Arrived? && AnswersOpening(s.conn, m, e.frame))
      && (m.NewJob? || m.NewPrevHash? ==>
            && (e.Changed? || (e.Arrived? && e.frame.OpenChannel? && m.channelId == s.conn.nextChannel))
            && SaysOfBlock(env, s.conn, s', m, s.node.issued[|s.node.issued| - 1]))
      && (m.SharesSuccess? || m.SharesError? ==> e.Arrived? && AnswersShare(env, s.conn, m, e.frame))
      && !m.SetupError? && !m.SetupSuccess?
  }

  /** What a job says of block `i` to a miner paid at `address`. */
  ghost predicate JobSays(env: Env, j: Job, address: string, i: Issue) {
    && j.version == i.header.version && j.merklePath == i.path && j.prevHash == i.header.prevHash
    && j.ntime == i.header.time && j.nbits == i.header.bits && env.scriptOf(address).Some?
    && forall extranonce: Bytes :: |extranonce| == EXTRANONCE_TOTAL ==>
         Gives(env, j.parts.coinb1 + extranonce + j.parts.coinb2, i, address, extranonce)
  }

  lemma {:induction false} BuiltSays(env: Env, s: System, address: string, j: Job)
    requires SystemGood(env, s, false) && BuildJob(env, address, s.conn.nextJob, s.conn.latest) == Some(j)
    ensures j.jobId == s.conn.nextJob && JobSays(env, j, address, s.node.issued[|s.node.issued| - 1])
  {
    BuiltId(env, address, s.conn.nextJob, s.conn.latest, j);
    LastIssue(s);
    IssueSays(env, j, address, s.node.issued[|s.node.issued| - 1]);
  }

  lemma {:induction false} BuiltId(env: Env, address: string, jobId: u32, t: Template, j: Job)
    requires BuildJob(env, address, jobId, t) == Some(j)
    ensures j.jobId == jobId
  {
  }

  lemma {:induction false} LastIssue(s: System)
    requires NodeGood(s)
    ensures var i := s.node.issued[|s.node.issued| - 1];
            Genuine(i) && i.template == s.conn.latest
  {
    assert IssueGood(s, |s.node.issued| - 1);
  }

  lemma {:induction false} IssueSays(env: Env, j: Job, address: string, i: Issue)
    requires Genuine(i) && BuildJob(env, address, j.jobId, i.template) == Some(j)
    ensures JobSays(env, j, address, i)
  {
    JobPays(env, j, address, i);
    HalvesGive(env, j, address, i);
  }

  lemma {:induction false} AnnouncementSays(env: Env, s: Conn, s': Conn, m: Message, address: string, j: Job, i: Issue)
    requires j.jobId == s.nextJob && JobSays(env, j, address, i)
    requires (m.NewJob? && m == JobMessage(m.channelId, j)) || (m.NewPrevHash? && m == PrevHashMessage(m.channelId, j))
    requires m.channelId in s'.channels && s'.channels[m.channelId].address == address
    ensures SaysOfBlock(env, s, s', m, i)
  {
    if m.NewJob? {
      assert m.coinb1 == j.parts.coinb1 && m.coinb2 == j.parts.coinb2;
    }
  }

  lemma {:induction false} HalvesGive(env: Env, j: Job, address: string, i: Issue)
    requires MadeOf(env, j, address, i)
    ensures forall extranonce: Bytes :: |extranonce| == EXTRANONCE_TOTAL ==>
              Gives(env, j.parts.coinb1 + extranonce + j.parts.coinb2, i, address, extranonce)
  {
    ZerosAreKept(i.coinbase.outputs);
    forall extranonce: Bytes | |extranonce| == EXTRANONCE_TOTAL
      ensures Gives(env, j.parts.coinb1 + extranonce + j.parts.coinb2, i, address, extranonce)
    {
      assert Pays(j, extranonce, i.coinbase, env.scriptOf(address).value);
      PaysMines(j, extranonce, i, env.scriptOf(address).value);
    }
  }

  lemma {:induction false} PaysMines(j: Job, extranonce: Bytes, i: Issue, script: Bytes)
    requires Pays(j, extranonce, i.coinbase, script) && KeepsZeros(i.coinbase.outputs, ZeroOutputs(i.coinbase.outputs))
    ensures MinedFrom(Deserialize(Assemble(j.parts, extranonce)).value, i, script, extranonce)
  {
    var tx := Deserialize(Assemble(j.parts, extranonce)).value;
    assert tx.outputs[1..] == ZeroOutputs(i.coinbase.outputs);
  }

  lemma {:induction false} FirstJobSays(env: Env, s: System, s': Conn, m: Message, address: string, j: Job)
    requires SystemGood(env, s, false) && BuildJob(env, address, s.conn.nextJob, s.conn.latest) == Some(j)
    requires IsOfJob(m, s.conn.nextChannel, j)
    requires s.conn.nextChannel in s'.channels && s'.channels[s.conn.nextChannel].address == address
    ensures m.channelId == s.conn.nextChannel && SaysOfBlock(env, s.conn, s', m, s.node.issued[|s.node.issued| - 1])
  {
    BuiltSays(env, s, address, j);
    AnnouncementSays(env, s.conn, s', m, address, j, s.node.issued[|s.node.issued| - 1]);
  }

  lemma {:induction false} OpenReplyAnswers(env: Env, s: Conn, f: Frame, ch: Channel)
    requires f.OpenChannel? && ch.channelId == s.nextChannel && ch.prefix == ChannelPrefix(ch.channelId)
    requires ChannelTarget(env.checked, f.hashrate, s.latest.nbits) == Some(ch.target)
    ensures AnswersOpening(s, OpenReply(f.requestId, ch), f)
  {
    ChannelTargetValue(env.checked, f.hashrate, s.latest.nbits);
    ReverseValue(Reverse(ch.target));
    ReverseInvolutive(ch.target);
  }

  lemma {:induction false} OpeningJustified(env: Env, s: System, s': Conn, e: Event, i: nat)
    requires SystemGood(env, s, false) && s.conn.phase == Running && e.Arrived? && e.frame.OpenChannel?
    requires s' == Step(env, s.conn, e) && |s.conn.out| <= i < |s'.out|
    ensures Justified(env, s, s', e, s'.out[i])
  {
    var f, c := e.frame, s.conn;
    var address := MinerAddress(env, f.user, c.poolAddress);
    var target := ChannelTarget(env.checked, f.hashrate, c.latest.nbits);
    var built := BuildJob(env, address, c.nextJob, c.latest);
    OpenForWrites(c, s', f.requestId, address, target, built, e.budget, e.clock);
    if i == |c.out| {
      OpenReplyAnswers(env, c, f, Channel(c.nextChannel, ChannelPrefix(c.nextChannel), address, None, target.value));
    } else {
      FirstJobSays(env, s, s', s'.out[i], address, built.value);
    }
  }

  lemma {:induction false} BroadcastJustified(env: Env, s: System, s': Conn, e: Event, i: nat)
    requires SystemGood(env, s, false) && s.conn.phase == Running && e.Changed? && Enabled(s.conn, e)
    requires s' == Step(env, s.conn, e) && |s.conn.out| <= i < |s'.out|
    ensures Justified(env, s, s', e, s'.out[i])
  {
    var build := Jobs(env, s.conn.nextJob, s.conn.latest);
    BroadcastAnnounces(env, s.conn, s', e.order, e.budget);
    var m := s'.out[i];
    assert Announces(build, s'.channels, m);
    var address := s'.channels[m.channelId].address;
    BuiltSays(env, s, address, build(address).value);
    AnnouncementSays(env, s.conn, s', m, address, build(address).value, s.node.issued[|s.node.issued| - 1]);
  }

  lemma {:induction false} ShareJustified(env: Env, s: System, s': Conn, e: Event, i: nat)
    requires SystemGood(env, s, false) && s.conn.phase == Running && e.Arrived? && e.frame.SubmitShares?
    requires s' == Submit(env, s.conn, e.frame.share, e.budget) && |s.conn.out| <= i < |s'.out|
    ensures Justified(env, s, s', e, s'.out[i])
  {
    var share := e.frame.share;
    OtherShares(env, s.conn, share, e.budget);
    if share.channelId in s.conn.channels {
      var ch := s.conn.channels[share.channelId];
      if ch.job.Some? && ch.job.value.jobId == share.jobId {
        var hash := ShareDecision(env, s.conn, share, ch, ch.job.value, e.budget);
        assert IsShareHash(env, ch, ch.job.value, share, hash);
      }
    }
  }

  lemma {:induction false} SetupJustified(s: Conn, s': Conn, f: Frame, budget: nat, i: nat)
    requires s.out == [] && s' == Setup(s, f, budget) && i < |s'.out|
    ensures AnswersSetup(s'.out[i], f)
  {
  }

  lemma {:induction false} StepJustified(env: Env, s: System, s': Conn, e: Event, i: nat)
    requires SystemGood(env, s, false) && SysEnabled(s, Other(e))
    requires s' == Step(env, s.conn, e) && |s.conn.out| <= i < |s'.out|
    ensures Justified(env, s, s', e, s'.out[i])
  {
    if s.conn.phase == AwaitingSetup {
      SetupJustified(s.conn, s', e.frame, e.budget, i);
    } else if e.Changed? {
      BroadcastJustified(env, s, s', e, i);
    } else if e.frame.OpenChannel? {
      OpeningJustified(env, s, s', e, i);
    } else {
      ShareJustified(env, s, s', e, i);
    }
  }

  /** Every message in the log of every run was written by an event of the run that
      justifies it: setup answers say what is wrong, an opening is answered with its request
      id and target, a job and its activation carry version, path, coinbase, previous hash,
      time and bits of the block last issued, and a share is answered by the numbers. */
  lemma {:induction false} EveryMessageIsJustified(env: Env, s: System, es: seq<SysEvent>, i: nat)
    returns (before: seq<SysEvent>, e: SysEvent, after: seq<SysEvent>, s1: System, s2: System)
    requires Initial(s) && SysAllowed(env, s, es) && i < |SysRun(env, s, es).conn.out|
    ensures IsOrigin(env, s, es, i, before, e, after, s1, s2)
    ensures SysEnabled(s1, e) && e.Other? && s2 == SysStep(env, s1, e)
    ensures Justified(env, s1, s2.conn, e.event, SysRun(env, s, es).conn.out[i])
  {
    InitialGood(env, s, false);
    before, e, after, s1, s2 := MessageOrigin(env, s, es, i);
    StepJustified(env, s1, s2.conn, e.event, i);
  }
}
