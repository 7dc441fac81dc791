/** stratum_sv2.rs: the connection handler as it runs, each method proved to do what the
    step functions of `Connection` say. */
module ConnectionServer {
  import opened Bytes
  import opened BlockHeaders
  import opened Targets
  import opened Transactions
  import opened Merkle
  import opened NodeTemplate
  import opened Coinbase
  import opened Tables
  import opened Connection

  predicate AllowedEvents(env: Env, s: Conn, events: seq<Event>)
    decreases events
  {
    events == [] || (Enabled(s, events[0]) && AllowedEvents(env, Step(env, s, events[0]), events[1..]))
  }

  function Run(env: Env, s: Conn, events: seq<Event>): Conn
    requires AllowedEvents(env, s, events)
    decreases events
  {
    if events == [] then s else Run(env, Step(env, s, events[0]), events[1..])
  }

  lemma {:induction false} SendJobsFrom(build: Builder, s: Conn, s': Conn, all: bool, order: seq<u32>, budget: nat)
    requires order != [] && (forall c :: c in order ==> c in s.channels)
    requires Sent(s', all) == SendOne(s, order[0], build(s.channels[order[0]].address), budget)
    ensures forall c :: c in order[1..] ==> c in s'.channels
    ensures SendJobs(build, s, order, budget) == if all then SendJobs(build, s', order[1..], budget - 2) else s'
  {
  }

  /** What the rest of a walk over `order` comes to. */
  function Walked(env: Env, jobId: u32, s: Conn, order: seq<u32>, budget: nat): Conn
    requires forall c :: c in order ==> c in s.channels
  {
    SendJobs(Jobs(env, jobId, s.latest), s, order, budget)
  }

  class ConnectionHandler {
    const env: Env
    const poolAddress: string
    const recording: bool
    var phase: Phase
    var nextChannel: u32
    var nextJob: u32
    var channels: map<u32, Channel>
    var latest: Template
    ghost var seen: seq<Template>
    var unseen: bool
    var out: seq<Message>
    var solutions: seq<Solution>
    var db: seq<DbEvent>

    ghost function State(): Conn
      reads this
    {
      Conn(phase, nextChannel, nextJob, channels, poolAddress, latest, seen, unseen, recording, out, solutions, db)
    }

    constructor (env: Env, poolAddress: string, template: Template, unseen: bool, recording: bool)
      ensures this.env == env && State() == NewConn(poolAddress, template, unseen, recording)
    {
      this.env, this.poolAddress, this.recording := env, poolAddress, recording;
      phase, nextChannel, nextJob, channels := AwaitingSetup, 0, 1, map[];
      latest, this.unseen, seen := template, unseen, [template];
      out, solutions, db := [], [], [];
    }

    /** Write a message; on failure the handler returns and the connection ends. */
    method Send(m: Message, budget: nat) returns (ok: bool)
      modifies this`out, this`phase
      ensures State() == Reply(old(State()), m, budget)
      ensures ok <==> budget > 0
    {
      if budget == 0 {
        phase := Closed;
        return false;
      }
      out := out + [m];
      ok := true;
    }

    method HandleSetupConnection(f: Frame, budget: nat)
      modifies this
      ensures State() == Setup(old(State()), f, budget)
      ensures phase == if Acceptable(f) && budget > 0 then Running else Closed
      ensures f.SetupConnection? && !Acceptable(f) && budget > 0 ==>
              |out| == |old(out)| + 1 && out[|old(out)|].SetupError?
    {
      match f {
        case HandShake => phase := Closed;
        case NoHeader => phase := Closed;
        case MalformedSetup => phase := Closed;
        case SetupConnection(mining, minVersion, maxVersion) =>
          var ok;
          if !mining {
            ok := Send(SetupError(UnsupportedProtocol), budget);
            phase := Closed;
          } else if minVersion > 2 || maxVersion < 2 {
            ok := Send(SetupError(VersionMismatch), budget);
            phase := Closed;
          } else {
            ok := Send(SetupSuccess(2, 2), budget);
            phase := if ok then Running else Closed;
          }
        case _ =>
          var ok := Send(SetupError(UnsupportedMessage), budget);
          phase := Closed;
      }
    }

    /** The clamp compares byte arrays. */
    method PickTarget(h: Hashrate, nbits: u32) returns (target: Option<Hash>)
      ensures target == ChannelTarget(env.checked, h, nbits)
    {
      target := HashrateToTargetBe(env.checked, h);
      if target.Some? {
        var network := CompactToTargetBe(nbits);
        CompactTargetValue(nbits);
        LexIsNumeric(target.value, network);
        if LexLess(target.value, network) {
          target := Some(network);
        }
      }
    }

    method MakeJob(address: string, jobId: u32) returns (job: Option<Job>)
      ensures job == BuildJob(env, address, jobId, latest)
      ensures job.Some? ==>
                var j, t := job.value, latest;
                && j.jobId == jobId && j.templateId == t.templateId && j.version == t.version && j.ntime == t.timestamp
                && j.prevHash == t.prevHash && j.nbits == t.nbits && j.merklePath == t.merklePath
                && env.scriptOf(address).Some? && j.parts == PoolParts(t, env.scriptOf(address).value)
    {
      var script := env.scriptOf(address);
      if script.None? {
        return None;
      }
      var parts := BuildSv2CoinbaseFromTdp(latest, script.value, latest.outputsCount > 0);
      if |script.value| > 65535 || |parts.coinb1| > 65535 || |parts.coinb2| > 65535 || |latest.merklePath| > 255 {
        return None;
      }
      job := Some(Job(jobId, latest.templateId, parts, latest.merklePath, latest.prevHash, latest.nbits,
                      latest.timestamp, latest.version));
    }

    method HandleOpen(requestId: u32, user: string, hashrate: Hashrate, budget: nat, clock: int)
      modifies this`phase, this`nextChannel, this`nextJob, this`channels, this`out, this`db
      ensures State() == Open(env, old(State()), requestId, user, hashrate, budget, clock)
    {
      var address := MinerAddress(env, user, poolAddress);
      if nextChannel == U32_MAX {
        phase := Overflowed;
        return;
      }
      ghost var s := State();
      var id := nextChannel;
      nextChannel := nextChannel + 1;
      assert State() == s.(nextChannel := id + 1);
      OpenAllocated(id, requestId, address, hashrate, budget, clock);
    }

    method OpenAllocated(id: u32, requestId: u32, address: string, hashrate: Hashrate, budget: nat, clock: int)
      modifies this`phase, this`nextJob, this`channels, this`out, this`db
      ensures State() == OpenAt(old(State()), id, requestId, address,
                                ChannelTarget(env.checked, hashrate, latest.nbits),
                                BuildJob(env, address, old(nextJob), latest), budget, clock)
    {
      var target := PickTarget(hashrate, latest.nbits);
      if target.None? {
        phase := Overflowed;
        return;
      }
      OpenChannelWith(requestId, Channel(id, ChannelPrefix(id), address, None, target.value), budget, clock);
    }

    method OpenChannelWith(requestId: u32, ch: Channel, budget: nat, clock: int)
      modifies this`phase, this`nextJob, this`channels, this`out, this`db
      ensures State() == OpenWith(old(State()), requestId, ch,
                                  BuildJob(env, ch.address, old(nextJob), latest), budget, clock)
    {
      var ok := Send(OpenReply(requestId, ch), budget);
      if !ok {
        return;
      }
      channels := channels[ch.channelId := ch];
      SendFirstJob(ch, budget - 1, clock);
    }

    method SendFirstJob(ch: Channel, budget: nat, clock: int)
      modifies this`phase, this`nextJob, this`channels, this`out, this`db
      ensures State() == FirstJob(old(State()), ch, BuildJob(env, ch.address, old(nextJob), latest), budget, clock)
    {
      if nextJob == U32_MAX {
        phase := Overflowed;
        return;
      }
      var jobId := nextJob;
      nextJob := nextJob + 1;
      var job := MakeJob(ch.address, jobId);
      if job.None? {
        phase := Closed;
        return;
      }
      SendBuilt(ch, job.value, budget, clock);
    }

    method SendBuilt(ch: Channel, job: Job, budget: nat, clock: int)
      modifies this`phase, this`channels, this`out, this`db
      ensures State() == GiveFirst(old(State()), ch, job, budget, clock)
    {
      channels := channels[ch.channelId := ch.(job := Some(job))];
      var ok := Send(JobMessage(ch.channelId, job), budget);
      if !ok {
        return;
      }
      ok := Send(PrevHashMessage(ch.channelId, job), budget - 1);
      if ok && recording {
        db := db + [MinerConnected(Miner(ch.address, clock))];
      }
    }

    method SendOneJob(c: u32, jobId: u32, budget: nat) returns (all: bool)
      requires c in channels
      modifies this`channels, this`out
      ensures Sent(State(), all) == SendOne(old(State()), c, Jobs(env, jobId, latest)(old(channels)[c].address), budget)
    {
      var job := MakeJob(channels[c].address, jobId);
      if job.None? {
        return false;
      }
      channels := channels[c := channels[c].(job := job)];
      if budget == 0 {
        return false;
      }
      out := out + [JobMessage(c, job.value)];
      if budget == 1 {
        return false;
      }
      assert out + [PrevHashMessage(c, job.value)]
        == old(out) + [JobMessage(c, job.value), PrevHashMessage(c, job.value)];
      out := out + [PrevHashMessage(c, job.value)];
      all := true;
    }

    /** The next channel of the walk: what the walk comes to stays the same. */
    method SendNextJob(order: seq<u32>, jobId: u32, budget: nat) returns (all: bool)
      requires order != [] && forall c :: c in order ==> c in channels
      modifies this`channels, this`out
      ensures forall c :: c in order[1..] ==> c in channels
      ensures all ==> budget >= 2
      ensures Walked(env, jobId, old(State()), order, budget)
              == if all then Walked(env, jobId, State(), order[1..], budget - 2) else State()
    {
      ghost var s := State();
      all := SendOneJob(order[0], jobId, budget);
      SendJobsFrom(Jobs(env, jobId, latest), s, State(), all, order, budget);
    }

    /** `send_jobs_to_all_channels`: an error leaves the loop but not the connection. */
    method SendJobsToAllChannels(order: seq<u32>, jobId: u32, budget: nat)
      requires forall c :: c in order ==> c in channels
      modifies this`channels, this`out
      ensures State() == Walked(env, jobId, old(State()), order, budget)
    {
      var rest, left := order, budget;
      while rest != []
        invariant forall c :: c in rest ==> c in channels
        invariant Walked(env, jobId, State(), rest, left) == Walked(env, jobId, old(State()), order, budget)
      {
        var all := SendNextJob(rest, jobId, left);
        if !all {
          return;
        }
        rest, left := rest[1..], left - 2;
      }
    }

    /** The handler compares lowercase hex strings. */
    method GradeHash(hash: Hash, target: Hash, nbits: u32) returns (v: Verdict)
      ensures v == Grade(hash, target, nbits)
    {
      var blockHash := Hex(hash);
      var channelTarget := Hex(target);
      var networkTarget := CompactToTargetHex(nbits);
      HexIsNumeric(target, hash);
      HexIsNumeric(CompactTarget(nbits), hash);
      CompactTargetValue(nbits);
      if LexLess(channelTarget, blockHash) {
        return TooLow;
      }
      v := Accepted(hash, !LexLess(networkTarget, blockHash));
    }

    method JudgeShare(share: Submission) returns (v: Verdict)
      ensures v == Judge(env, channels, share)
      ensures v.Accepted? || v.TooLow? ==>
                && share.channelId in channels && channels[share.channelId].job.Some?
                && var ch := channels[share.channelId];
                   exists hash: Hash ::
                     IsShareHash(env, ch, ch.job.value, share, hash) && v == Grade(hash, ch.target, ch.job.value.nbits)
    {
      if share.channelId !in channels {
        return UnknownChannel;
      }
      var ch := channels[share.channelId];
      if ch.job.None? {
        return NoJob;
      }
      var j := ch.job.value;
      if j.jobId != share.jobId {
        return Stale;
      }
      var extranonce := BuildFullExtranonce(ch.prefix, share.extranonce);
      var coinbase := j.parts.coinb1 + extranonce + j.parts.coinb2;
      var tx := Deserialize(coinbase);
      if tx.None? {
        return Undecodable;
      }
      var root := ClimbBranch(env, Txid(env, tx.value), j.merklePath);
      var hash := Reverse(env.sha256d(HeaderBytes(share.version, j.prevHash, root, share.ntime, j.nbits, share.nonce)));
      v := GradeHash(hash, ch.target, j.nbits);
      ShareHashIs(env, ch, j, share, tx.value);
    }

    method HandleSubmitShares(share: Submission, budget: nat)
      modifies this
      ensures State() == Submit(env, old(State()), share, budget)
    {
      var v := JudgeShare(share);
      match v {
        case UnknownChannel =>
        case Undecodable =>
        case NoJob =>
          var _ := Send(SharesError(share.channelId, share.sequence, StaleShare), budget);
        case Stale =>
          var _ := Send(SharesError(share.channelId, share.sequence, StaleShare), budget);
        case TooLow =>
          var _ := Send(SharesError(share.channelId, share.sequence, DifficultyTooLow), budget);
        case Accepted(hash, solves) =>
          AcceptShare(share, hash, solves, budget);
      }
    }

    method AcceptShare(share: Submission, hash: Hash, solves: bool, budget: nat)
      requires share.channelId in channels && channels[share.channelId].job.Some?
      modifies this
      ensures State() == Accept(old(State()), share, hash, solves, budget)
    {
      var ch := channels[share.channelId];
      var j := ch.job.value;
      if solves {
        solutions := solutions
          + [Solution(j.templateId, share.version, share.ntime, share.nonce, ShareCoinbase(ch, j, share))];
      }
      var ok := Send(SharesSuccess(share.channelId, share.sequence, 1, 1), budget);
      if ok && recording {
        db := db + [ShareEvent(Share(ch.address, HashToDifficulty(hash), hash, share.ntime))];
      }
    }

    method DispatchMessage(f: Frame, budget: nat, clock: int)
      modifies this
      ensures State() == Dispatch(env, old(State()), f, budget, clock)
    {
      match f {
        case HandShake => phase := Closed;
        case NoHeader => phase := Closed;
        case MalformedOpen => phase := Closed;
        case MalformedSubmit => phase := Closed;
        case OpenChannel(requestId, user, hashrate) => HandleOpen(requestId, user, hashrate, budget, clock);
        case SubmitShares(share) => HandleSubmitShares(share, budget);
        case _ =>
      }
    }

    method HandleChanged(order: seq<u32>, budget: nat)
      requires IsWalk(order, channels)
      modifies this
      ensures State() == Broadcast(env, old(State()), order, budget)
    {
      unseen := false;
      if nextJob == U32_MAX {
        phase := Overflowed;
        return;
      }
      var jobId := nextJob;
      nextJob := nextJob + 1;
      SendJobsToAllChannels(order, jobId, budget);
    }

    method HandleEvent(e: Event)
      requires Enabled(State(), e)
      modifies this
      ensures State() == Step(env, old(State()), e)
    {
      match e {
        case Notified(t) =>
          latest, seen, unseen := t, seen + [t], true;
        case Changed(order, budget) =>
          HandleChanged(order, budget);
        case HungUp =>
          if phase.AwaitingSetup? || phase.Running? {
            phase := Closed;
          }
        case Arrived(f, budget, clock) =>
          if phase.AwaitingSetup? {
            HandleSetupConnection(f, budget);
          } else if phase.Running? {
            DispatchMessage(f, budget, clock);
          }
      }
    }

    /** `handle_connection`, over the events that reach it. */
    method HandleConnection(events: seq<Event>)
      requires AllowedEvents(env, State(), events)
      modifies this
      ensures State() == Run(env, old(State()), events)
    {
      for i := 0 to |events|
        invariant AllowedEvents(env, State(), events[i..])
        invariant Run(env, State(), events[i..]) == Run(env, old(State()), events)
      {
        assert events[i..][0] == events[i] && events[i..][1..] == events[i + 1..];
        HandleEvent(events[i]);
      }
    }
  }
}
