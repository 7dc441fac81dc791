/** stratum_sv2.rs: one connection, as a state and the effect of each event on it.

    An event carries a `budget`: how many socket writes succeed before one fails. Where
    Rust's arithmetic would overflow, the connection ends as `Overflowed`. */
module Connection {
  import opened Bytes
  import opened BlockHeaders
  import opened Targets
  import opened Transactions
  import opened Merkle
  import opened NodeTemplate
  import opened Coinbase
  import opened Tables

  // ── Messages ──────────────────────────────────────────────────────────────

  type Hashrate = h: F32 | ValidF32(h) witness NaN

  datatype Submission = Submission(channelId: u32, sequence: u32, jobId: u32, nonce: u32, ntime: u32, version: u32,
                                   extranonce: Bytes)

  datatype Frame =
    | HandShake | NoHeader | Unhandled
    | SetupConnection(mining: bool, minVersion: nat, maxVersion: nat) | MalformedSetup
    | OpenChannel(requestId: u32, user: string, hashrate: Hashrate) | MalformedOpen
    | SubmitShares(share: Submission) | MalformedSubmit

  /** On the wire: "unsupported-message", "unsupported-protocol", "protocol-version-mismatch",
      "stale-share-before-activation" and "difficulty-too-low". */
  datatype ErrorCode = UnsupportedMessage | UnsupportedProtocol | VersionMismatch | StaleShare | DifficultyTooLow

  datatype Message =
    | SetupError(code: ErrorCode)
    | SetupSuccess(usedVersion: nat, flags: nat)
    | OpenSuccess(requestId: u32, channelId: u32, target: Bytes, extranonceSize: nat, prefix: Bytes)
    | NewJob(channelId: u32, jobId: u32, version: u32, merklePath: seq<Hash>, coinb1: Bytes, coinb2: Bytes)
    | NewPrevHash(channelId: u32, jobId: u32, prevHash: Hash, minNtime: u32, nbits: u32)
    | SharesSuccess(channelId: u32, lastSequence: u32, accepted: nat, sum: nat)
    | SharesError(channelId: u32, sequence: u32, code: ErrorCode)

  datatype Solution = Solution(templateId: u64, version: u32, ntime: u32, nonce: u32, coinbase: Bytes)

  // ── State ─────────────────────────────────────────────────────────────────

  datatype Job = Job(jobId: u32, templateId: u64, parts: Parts, merklePath: seq<Hash>, prevHash: Hash, nbits: u32,
                     ntime: u32, version: u32)

  datatype Channel = Channel(channelId: u32, prefix: Hash, address: string, job: Option<Job>, target: Hash)

  datatype Phase = AwaitingSetup | Running | Closed | Overflowed

  /** `latest` and `unseen` are the watch receiver, `seen` is all that `latest` has been;
      `out`, `solutions` and `db` log what was sent. */
  datatype Conn = Conn(
    phase: Phase, nextChannel: u32, nextJob: u32, channels: map<u32, Channel>, poolAddress: string,
    latest: Template, seen: seq<Template>, unseen: bool, recording: bool,
    out: seq<Message>, solutions: seq<Solution>, db: seq<DbEvent>)

  function NewConn(poolAddress: string, latest: Template, unseen: bool, recording: bool): Conn {
    Conn(AwaitingSetup, 0, 1, map[], poolAddress, latest, [latest], unseen, recording, [], [], [])
  }

  /** Write one message; a failed write ends the connection. */
  function Reply(s: Conn, m: Message, budget: nat): Conn {
    if budget == 0 then s.(phase := Closed) else s.(out := s.out + [m])
  }

  // ── Setup ─────────────────────────────────────────────────────────────────

  /** A SetupConnection for mining with 2 in its version range. */
  predicate Acceptable(f: Frame) {
    f.SetupConnection? && f.mining && f.minVersion <= 2 <= f.maxVersion
  }

  function SetupReply(f: Frame): Option<Message> {
    match f
    case HandShake => None
    case NoHeader => None
    case MalformedSetup => None
    case SetupConnection(mining, minVersion, maxVersion) =>
      if !mining then Some(SetupError(UnsupportedProtocol))
      else if minVersion > 2 || maxVersion < 2 then Some(SetupError(VersionMismatch))
      else Some(SetupSuccess(2, 2))
    case _ => Some(SetupError(UnsupportedMessage))
  }

  function Setup(s: Conn, f: Frame, budget: nat): Conn {
    match SetupReply(f)
    case None => s.(phase := Closed)
    case Some(m) =>
      var s' := Reply(s, m, budget);
      s'.(phase := if m.SetupSuccess? && budget > 0 then Running else Closed)
  }

  // ── Jobs ──────────────────────────────────────────────────────────────────

  /** `build_job_messages`. The payout script is part of the suffix, so a script too long
      for B064K makes a suffix too long for it. */
  function BuildJob(env: Env, address: string, jobId: u32, t: Template): Option<Job> {
    match env.scriptOf(address)
    case None => None
    case Some(script) =>
      var parts := PoolParts(t, script);
      if |script| > 65535 || |parts.coinb1| > 65535 || |parts.coinb2| > 65535 || |t.merklePath| > 255 then None
      else Some(Job(jobId, t.templateId, parts, t.merklePath, t.prevHash, t.nbits, t.timestamp, t.version))
  }

  function JobMessage(channelId: u32, j: Job): Message {
    NewJob(channelId, j.jobId, j.version, j.merklePath, j.parts.coinb1, j.parts.coinb2)
  }

  function PrevHashMessage(channelId: u32, j: Job): Message {
    NewPrevHash(channelId, j.jobId, j.prevHash, j.ntime, j.nbits)
  }

  // ── Opening a channel ─────────────────────────────────────────────────────

  function BeforeDot(s: string): string {
    if s == [] || s[0] == '.' then [] else [s[0]] + BeforeDot(s[1..])
  }

  /** `parse_miner_address` */
  function MinerAddress(env: Env, user: string, poolAddress: string): string {
    if env.scriptOf(BeforeDot(user)).Some? then BeforeDot(user) else poolAddress
  }

  /** A worker's name after the dot is ignored; an identity that is no address mines for
      the pool. */
  lemma {:induction false} WorkerNameIgnored(env: Env, address: string, worker: string, poolAddress: string)
    requires '.' !in address
    ensures MinerAddress(env, address + ['.'] + worker, poolAddress) == MinerAddress(env, address, poolAddress)
            == if env.scriptOf(address).Some? then address else poolAddress
  {
    BeforeDotOf(address, []);
    BeforeDotOf(address, ['.'] + worker);
    assert address + [] == address && address + (['.'] + worker) == address + ['.'] + worker;
  }

  lemma {:induction false} BeforeDotOf(address: string, rest: string)
    requires '.' !in address && (rest == [] || rest[0] == '.')
    ensures BeforeDot(address + rest) == address
  {
    if address != [] {
      assert (address + rest)[1..] == address[1..] + rest;
      BeforeDotOf(address[1..], rest);
    } else {
      assert address + rest == rest;
    }
  }

  /** The easier of the miner's target and the network's. */
  function ChannelTarget(checked: bool, h: Hashrate, nbits: u32): Option<Hash> {
    match HashrateTarget(checked, h)
    case None => None
    case Some(t) => if CompactValue(nbits) > Value(t) then Some(CompactTarget(nbits)) else Some(t)
  }

  function OpenReply(requestId: u32, ch: Channel): Message {
    OpenSuccess(requestId, ch.channelId, Reverse(ch.target), EXTRANONCE2, ch.prefix)
  }

  /** The job is stored before it and its activation are written. */
  function GiveFirst(s: Conn, ch: Channel, j: Job, budget: nat, clock: int): Conn {
    var s2 := s.(channels := s.channels[ch.channelId := ch.(job := Some(j))]);
    if budget == 0 then s2.(phase := Closed)
    else
      var s3 := s2.(out := s2.out + [JobMessage(ch.channelId, j)]);
      if budget == 1 then s3.(phase := Closed)
      else
        s3.(out := s3.out + [PrevHashMessage(ch.channelId, j)],
            db := if s.recording then s.db + [MinerConnected(Miner(ch.address, clock))] else s.db)
  }

  /** `built` is what building the job with the next id gives; the id is used either way. */
  function FirstJob(s: Conn, ch: Channel, built: Option<Job>, budget: nat, clock: int): Conn {
    if s.nextJob == U32_MAX then s.(phase := Overflowed)
    else
      var s1 := s.(nextJob := s.nextJob + 1);
      match built
      case None => s1.(phase := Closed)
      case Some(j) => GiveFirst(s1, ch, j, budget, clock)
  }

  /** The channel `ch`, once its id is allocated and its target computed. */
  function OpenWith(s: Conn, requestId: u32, ch: Channel, built: Option<Job>, budget: nat, clock: int): Conn {
    if budget == 0 then s.(phase := Closed)
    else FirstJob(s.(out := s.out + [OpenReply(requestId, ch)], channels := s.channels[ch.channelId := ch]), ch, built,
                  budget - 1, clock)
  }

  /** Channel `id` is allocated; without a target the arithmetic has panicked. */
  function OpenAt(s: Conn, id: u32, requestId: u32, address: string, target: Option<Hash>, built: Option<Job>,
      budget: nat, clock: int): Conn
  {
    match target
    case None => s.(phase := Overflowed)
    case Some(t) => OpenWith(s, requestId, Channel(id, ChannelPrefix(id), address, None, t), built, budget, clock)
  }

  function OpenFor(s: Conn, requestId: u32, address: string, target: Option<Hash>, built: Option<Job>,
      budget: nat, clock: int): Conn
  {
    if s.nextChannel == U32_MAX then s.(phase := Overflowed)
    else OpenAt(s.(nextChannel := s.nextChannel + 1), s.nextChannel, requestId, address, target, built, budget, clock)
  }

  function Open(env: Env, s: Conn, requestId: u32, user: string, hashrate: Hashrate, budget: nat, clock: int): Conn {
    var address := MinerAddress(env, user, s.poolAddress);
    OpenFor(s, requestId, address, ChannelTarget(env.checked, hashrate, s.latest.nbits),
            BuildJob(env, address, s.nextJob, s.latest), budget, clock)
  }

  // ── Broadcast ─────────────────────────────────────────────────────────────

  datatype Sent = Sent(conn: Conn, all: bool)

  /** What building the same job for each address gives. */
  type Builder = string -> Option<Job>

  function Jobs(env: Env, jobId: u32, t: Template): Builder {
    address => BuildJob(env, address, jobId, t)
  }

  /** One channel's job and its activation. The job is stored before it is written. */
  function SendOne(s: Conn, c: u32, built: Option<Job>, budget: nat): Sent
    requires c in s.channels
  {
    match built
    case None => Sent(s, false)
    case Some(j) =>
      var s1 := s.(channels := s.channels[c := s.channels[c].(job := Some(j))]);
      if budget == 0 then Sent(s1, false)
      else if budget == 1 then Sent(s1.(out := s1.out + [JobMessage(c, j)]), false)
      else Sent(s1.(out := s1.out + [JobMessage(c, j), PrevHashMessage(c, j)]), true)
  }

  /** One job to each channel, in hash-map order; the first error stops the walk and is
      only logged. */
  function SendJobs(build: Builder, s: Conn, order: seq<u32>, budget: nat): Conn
    requires forall c :: c in order ==> c in s.channels
    decreases order
  {
    if order == [] then s
    else
      var sent := SendOne(s, order[0], build(s.channels[order[0]].address), budget);
      if sent.all then SendJobs(build, sent.conn, order[1..], budget - 2) else sent.conn
  }

  predicate IsWalk(order: seq<u32>, channels: map<u32, Channel>) {
    && (forall i, j :: 0 <= i < j < |order| ==> order[i] != order[j])
    && (forall c :: c in order ==> c in channels)
    && (forall c :: c in channels ==> c in order)
  }

  function Broadcast(env: Env, s: Conn, order: seq<u32>, budget: nat): Conn
    requires IsWalk(order, s.channels)
  {
    var s1 := s.(unseen := false);
    if s.nextJob == U32_MAX then s1.(phase := Overflowed)
    else SendJobs(Jobs(env, s.nextJob, s.latest), s1.(nextJob := s.nextJob + 1), order, budget)
  }

  // ── Shares ────────────────────────────────────────────────────────────────

  /** The coinbase of a share: the job's halves around the channel's prefix and the miner's bytes. */
  function ShareCoinbase(ch: Channel, j: Job, share: Submission): Bytes {
    Assemble(j.parts, FullExtranonce(ch.prefix, share.extranonce))
  }

  /** The block hash of a share, most significant byte first. */
  function ShareHash(env: Env, j: Job, share: Submission, coinbase: Tx): Hash {
    var root := Climb(env, Txid(env, coinbase), j.merklePath);
    Reverse(env.sha256d(HeaderBytes(share.version, j.prevHash, root, share.ntime, j.nbits, share.nonce)))
  }

  /** `hash` is the block hash of a share of job `j`: that of the header with the miner's
      version, time and nonce, the job's previous hash and bits, and the root climbed from the
      coinbase around the miner's bytes. */
  ghost predicate IsShareHash(env: Env, ch: Channel, j: Job, share: Submission, hash: Hash) {
    var coinbase := Deserialize(j.parts.coinb1 + FullExtranonce(ch.prefix, share.extranonce) + j.parts.coinb2);
    && coinbase.Some?
    && var root := Climb(env, Txid(env, coinbase.value), j.merklePath);
       HashesTo(env, BlockHeader(share.version, j.prevHash, root, share.ntime, j.nbits, share.nonce), hash)
  }

  lemma {:induction false} ShareHashIs(env: Env, ch: Channel, j: Job, share: Submission, tx: Tx)
    requires Deserialize(ShareCoinbase(ch, j, share)) == Some(tx)
    ensures IsShareHash(env, ch, j, share, ShareHash(env, j, share, tx))
  {
    var root := Climb(env, Txid(env, tx), j.merklePath);
    HashOfHeader(env, BlockHeader(share.version, j.prevHash, root, share.ntime, j.nbits, share.nonce),
                 ShareHash(env, j, share, tx));
  }

  datatype Verdict = UnknownChannel | NoJob | Stale | Undecodable | TooLow | Accepted(hash: Hash, solves: bool)

  /** What a hash is worth, as numbers. */
  function Grade(hash: Hash, target: Hash, nbits: u32): Verdict {
    if Value(hash) > Value(target) then TooLow else Accepted(hash, Value(hash) <= CompactValue(nbits))
  }

  function Judge(env: Env, channels: map<u32, Channel>, share: Submission): Verdict {
    if share.channelId !in channels then UnknownChannel
    else
      var ch := channels[share.channelId];
      match ch.job
      case None => NoJob
      case Some(j) =>
        if j.jobId != share.jobId then Stale
        else match Deserialize(ShareCoinbase(ch, j, share))
          case None => Undecodable
          case Some(tx) => Grade(ShareHash(env, j, share, tx), ch.target, j.nbits)
  }

  /** What is done about a verdict. */
  function Decide(s: Conn, share: Submission, v: Verdict, budget: nat): Conn {
    match v
    case UnknownChannel => s
    case Undecodable => s
    case NoJob => Reply(s, SharesError(share.channelId, share.sequence, StaleShare), budget)
    case Stale => Reply(s, SharesError(share.channelId, share.sequence, StaleShare), budget)
    case TooLow => Reply(s, SharesError(share.channelId, share.sequence, DifficultyTooLow), budget)
    case Accepted(hash, solves) => Accept(s, share, hash, solves, budget)
  }

  function Submit(env: Env, s: Conn, share: Submission, budget: nat): Conn {
    Decide(s, share, Judge(env, s.channels, share), budget)
  }

  /** A solution goes to the node before the reply, the database event after it. */
  function Accept(s: Conn, share: Submission, hash: Hash, solves: bool, budget: nat): Conn {
    if share.channelId !in s.channels || s.channels[share.channelId].job.None? then s
    else
      var ch := s.channels[share.channelId];
      var j := ch.job.value;
      var s1 := if solves then
                  s.(solutions := s.solutions
                     + [Solution(j.templateId, share.version, share.ntime, share.nonce, ShareCoinbase(ch, j, share))])
                else s;
      if budget == 0 then s1.(phase := Closed)
      else
        s1.(out := s1.out + [SharesSuccess(share.channelId, share.sequence, 1, 1)],
            db := if s.recording then s.db + [ShareEvent(Share(ch.address, HashToDifficulty(hash), hash, share.ntime))]
              else s.db)
  }

  // ── Events ────────────────────────────────────────────────────────────────

  datatype Event =
    | Arrived(frame: Frame, budget: nat, clock: int)
    | Notified(template: Template)
    | Changed(order: seq<u32>, budget: nat)
    | HungUp

  function Dispatch(env: Env, s: Conn, f: Frame, budget: nat, clock: int): Conn {
    match f
    case HandShake => s.(phase := Closed)
    case NoHeader => s.(phase := Closed)
    case MalformedOpen => s.(phase := Closed)
    case MalformedSubmit => s.(phase := Closed)
    case OpenChannel(requestId, user, hashrate) => Open(env, s, requestId, user, hashrate, budget, clock)
    case SubmitShares(share) => Submit(env, s, share, budget)
    case _ => s
  }

  predicate Enabled(s: Conn, e: Event) {
    e.Changed? ==> s.phase == Running && s.unseen && IsWalk(e.order, s.channels)
  }

  function Step(env: Env, s: Conn, e: Event): Conn
    requires Enabled(s, e)
  {
    match e
    case Notified(t) => s.(latest := t, seen := s.seen + [t], unseen := true)
    case Changed(order, budget) => Broadcast(env, s, order, budget)
    case HungUp => if s.phase.AwaitingSetup? || s.phase.Running? then s.(phase := Closed) else s
    case Arrived(f, budget, clock) =>
      match s.phase
      case AwaitingSetup => Setup(s, f, budget)
      case Running => Dispatch(env, s, f, budget, clock)
      case _ => s
  }
}
