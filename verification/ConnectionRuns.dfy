/** What a connection keeps in every run, with templates that come from the node. */
module ConnectionRuns {
  import opened Bytes
  import opened Transactions
  import opened NodeTemplate
  import opened Coinbase
  import opened Connection

  // ── Node and connection together ──────────────────────────────────────────

  /** A template with the block it was made from. */
  datatype Issue = Issue(template: Template, header: Header, coinbase: Tx, path: seq<Bytes>)

  /** `ipc_main`: the id of the next template and those issued while the connection was
      there to see them; an error ends the loop for good. */
  datatype Node = Node(nextId: nat, alive: bool, issued: seq<Issue>)

  datatype System = System(node: Node, conn: Conn)

  datatype SysEvent = NewBlock(header: Header, coinbase: Tx, path: seq<Bytes>) | Other(event: Event)

  /** The node's coinbase is one it deserialised; watch updates come from the node alone. */
  predicate SysEnabled(s: System, e: SysEvent) {
    match e
    case NewBlock(_, cb, _) => ValidTx(cb)
    case Other(e') => !e'.Notified? && Enabled(s.conn, e')
  }

  function Fetched(s: System, e: SysEvent): Result<Template, TemplateError>
    requires e.NewBlock?
  {
    if !s.node.alive || s.node.nextId >= U64_MAX then Err(ValueOverflow)
    else RawTemplate(s.node.nextId, e.header, e.coinbase, e.path)
  }

  function SysStep(env: Env, s: System, e: SysEvent): System
    requires SysEnabled(s, e)
  {
    match e
    case Other(e') => s.(conn := Step(env, s.conn, e'))
    case NewBlock(_, _, _) =>
      match Fetched(s, e)
      case Err(_) => s.(node := s.node.(alive := false))
      case Ok(t) =>
        System(s.node.(nextId := s.node.nextId + 1, issued := s.node.issued + [Issue(t, e.header, e.coinbase, e.path)]),
               Step(env, s.conn, Notified(t)))
  }

  predicate SysAllowed(env: Env, s: System, es: seq<SysEvent>)
    decreases es
  {
    es == [] || (SysEnabled(s, es[0]) && SysAllowed(env, SysStep(env, s, es[0]), es[1..]))
  }

  function SysRun(env: Env, s: System, es: seq<SysEvent>): System
    requires SysAllowed(env, s, es)
    decreases es
  {
    if es == [] then s else SysRun(env, SysStep(env, s, es[0]), es[1..])
  }

  /** The template is what the pool makes of the block. */
  predicate Genuine(i: Issue) {
    ValidTx(i.coinbase) && RawTemplate(i.template.templateId, i.header, i.coinbase, i.path) == Ok(i.template)
  }

  /** A connection just accepted while the node's last template is there to see. */
  predicate Initial(s: System) {
    && |s.node.issued| == 1 && Genuine(s.node.issued[0])
    && s.node.issued[0].template == s.conn.latest && s.conn.latest.templateId < s.node.nextId
    && s.conn == NewConn(s.conn.poolAddress, s.conn.latest, s.conn.unseen, s.conn.recording)
  }

  /** The connection saw what the node issued, in order, each a genuine template with an
      id of its own. */
  predicate NodeGood(s: System) {
    && s.node.issued != [] && |s.conn.seen| == |s.node.issued|
    && s.conn.latest == s.node.issued[|s.node.issued| - 1].template
    && (forall k :: 0 <= k < |s.node.issued| ==> IssueGood(s, k))
    && (forall k, l :: 0 <= k < l < |s.node.issued| ==>
          s.node.issued[k].template.templateId < s.node.issued[l].template.templateId)
  }

  predicate IssueGood(s: System, k: nat)
    requires k < |s.node.issued| == |s.conn.seen|
  {
    && Genuine(s.node.issued[k])
    && s.conn.seen[k] == s.node.issued[k].template
    && s.node.issued[k].template.templateId < s.node.nextId
  }

  // ── The log of one channel ────────────────────────────────────────────────

  /** `Offered(j)`: job j was sent, not yet its SetNewPrevHash; `Active(j)`: both were. */
  datatype Track = Unopened | Opened | Offered(job: u32) | Active(job: u32) | Broken

  /** The grammar of a channel's messages: opened once, then jobs with strictly rising ids,
      each activated by the SetNewPrevHash of the same id, and share replies only once
      opened. Under `strict` no job may stay without its activation when the next comes. */
  function Advance(tr: Track, m: Message, c: u32, strict: bool): Track {
    match m
    case OpenSuccess(_, c', _, _, _) => if c' != c then tr else if tr.Unopened? then Opened else Broken
    case NewJob(c', j, _, _, _, _) =>
      if c' != c then tr
      else if tr.Opened? || (tr.Active? && tr.job < j) || (tr.Offered? && tr.job < j && !strict) then Offered(j)
      else Broken
    case NewPrevHash(c', j, _, _, _) => if c' != c then tr else if tr == Offered(j) then Active(j) else Broken
    case SharesSuccess(c', _, _, _) => if c' == c && tr.Unopened? then Broken else tr
    case SharesError(c', _, _) => if c' == c && tr.Unopened? then Broken else tr
    case _ => tr
  }

  function TrackOf(out: seq<Message>, c: u32, strict: bool): Track {
    if out == [] then Unopened else Advance(TrackOf(out[..|out| - 1], c, strict), out[|out| - 1], c, strict)
  }

  lemma {:induction false} TrackOneMore(out: seq<Message>, m: Message, c: u32, strict: bool)
    ensures TrackOf(out + [m], c, strict) == Advance(TrackOf(out, c, strict), m, c, strict)
  {
    assert (out + [m])[..|out|] == out;
  }

  function Subject(m: Message): Option<u32> {
    match m
    case SetupError(_) => None
    case SetupSuccess(_, _) => None
    case OpenSuccess(_, c, _, _, _) => Some(c)
    case NewJob(c, _, _, _, _, _) => Some(c)
    case NewPrevHash(c, _, _, _, _) => Some(c)
    case SharesSuccess(c, _, _, _) => Some(c)
    case SharesError(c, _, _) => Some(c)
  }

  lemma {:induction false} TrackOfOther(out: seq<Message>, m: Message, c: u32, strict: bool)
    requires Subject(m) != Some(c)
    ensures TrackOf(out + [m], c, strict) == TrackOf(out, c, strict)
  {
    TrackOneMore(out, m, c, strict);
  }

  /** Setup first and once; an error is the last word. */
  predicate SetupFirst(s: Conn) {
    && (s.phase == AwaitingSetup ==> s.out == [] && s.channels == map[])
    && (s.phase == Running || s.phase == Overflowed ==> s.out != [] && s.out[0].SetupSuccess?)
    && (s.out != [] ==> s.out[0] == SetupSuccess(2, 2) || (s.out[0].SetupError? && |s.out| == 1))
    && (forall i :: 1 <= i < |s.out| ==> Subject(s.out[i]).Some?)
  }

  /** What the log says of a channel against what the state says. */
  predicate TrackMatches(s: Conn, c: u32, strict: bool) {
    var tr := TrackOf(s.out, c, strict);
    && tr != Broken
    && (c !in s.channels ==> tr == Unopened)
    && (c in s.channels ==> !tr.Unopened?)
    && (c in s.channels && s.channels[c].job.None? ==> tr == Opened)
    && (c in s.channels && (tr.Offered? || tr.Active?) ==>
          s.channels[c].job.Some? && tr.job <= s.channels[c].job.value.jobId)
  }

  /** Between events every channel's last job is activated. */
  ghost predicate Settled(s: Conn) {
    s.phase == Running ==> forall c: u32 :: SettledAt(s, c)
  }

  predicate SettledAt(s: Conn, c: u32) {
    c in s.channels ==> TrackOf(s.out, c, true).Active?
  }

  // ── The state ─────────────────────────────────────────────────────────────

  /** A job the pool builds for this address from a template it has seen. */
  ghost predicate BuiltFor(env: Env, seen: seq<Template>, address: string, j: Job, t: Template) {
    t in seen && BuildJob(env, address, j.jobId, t) == Some(j)
  }

  /** Which jobs an address may have, given the templates seen. */
  type Legality = (seq<Template>, string, Job) -> bool

  ghost function Legal(env: Env): Legality {
    (seen: seq<Template>, address: string, j: Job) => exists t: Template :: BuiltFor(env, seen, address, j, t)
  }

  ghost predicate JobOk(legal: Legality, s: Conn, address: string, j: Job) {
    j.jobId < s.nextJob && j.templateId <= s.latest.templateId && legal(s.seen, address, j)
  }

  ghost predicate ChannelOk(legal: Legality, s: Conn, c: u32) {
    c in s.channels ==>
      var ch := s.channels[c];
      && ch.channelId == c < s.nextChannel
      && ch.prefix == ChannelPrefix(c)
      && (ch.job.Some? ==> JobOk(legal, s, ch.address, ch.job.value))
  }

  ghost predicate ChannelGood(legal: Legality, s: Conn, c: u32, strict: bool) {
    ChannelOk(legal, s, c) && TrackMatches(s, c, strict)
  }

  ghost predicate Good(legal: Legality, s: Conn, strict: bool) {
    && SetupFirst(s)
    && s.latest in s.seen && (forall t :: t in s.seen ==> Carried(t))
    && (forall c: u32 :: ChannelGood(legal, s, c, strict))
  }

  ghost predicate Carried(t: Template) {
    exists os: seq<TxOut> :: Carries(t, os)
  }

  ghost predicate SystemGood(env: Env, s: System, strict: bool) {
    Good(Legal(env), s.conn, strict) && (strict ==> Settled(s.conn)) && NodeGood(s)
  }

  // ── Each step keeps it ────────────────────────────────────────────────────

  /** Nothing but counters, phase and side logs changed. */
  lemma {:induction false} QuietStep(legal: Legality, s: Conn, s': Conn, strict: bool)
    requires Good(legal, s, strict)
    requires s'.out == s.out && s'.channels == s.channels && s'.latest == s.latest && s'.seen == s.seen
    requires s.nextChannel <= s'.nextChannel && s.nextJob <= s'.nextJob
    requires s'.phase == s.phase || (s'.phase == Closed) || (s.phase == Running && s'.phase == Overflowed)
    ensures Good(legal, s', strict)
  {
    forall c: u32 ensures ChannelGood(legal, s', c, strict) {
      assert ChannelGood(legal, s, c, strict);
    }
  }

  lemma {:induction false} SetupStays(s: Conn, s': Conn, m: Message)
    requires SetupFirst(s) && s.phase == Running && Subject(m).Some?
    requires s'.out == s.out + [m] && s'.phase != AwaitingSetup
    ensures SetupFirst(s')
  {
  }

  lemma {:induction false} SettledKeeps(s: Conn, s': Conn)
    requires Settled(s) && s.phase == Running && s'.channels.Keys == s.channels.Keys
    requires forall c: u32 :: TrackOf(s'.out, c, true) == TrackOf(s.out, c, true)
    ensures Settled(s')
  {
    forall c: u32 ensures SettledAt(s', c) {
      assert SettledAt(s, c);
    }
  }

  /** A share reply on an opened channel. */
  lemma {:induction false} ReplyKeepsGood(legal: Legality, s: Conn, m: Message, strict: bool)
    requires Good(legal, s, strict) && s.phase == Running
    requires m.SharesError? || m.SharesSuccess?
    requires Subject(m).value in s.channels
    ensures Good(legal, s.(out := s.out + [m]), strict)
    ensures forall c: u32 :: TrackOf(s.out + [m], c, strict) == TrackOf(s.out, c, strict)
  {
    var s' := s.(out := s.out + [m]);
    SetupStays(s, s', m);
    forall c: u32 ensures ChannelGood(legal, s', c, strict) && TrackOf(s'.out, c, strict) == TrackOf(s.out, c, strict) {
      assert ChannelGood(legal, s, c, strict);
      TrackOneMore(s.out, m, c, strict);
    }
  }

  /** The OpenSuccess of a new channel, and its entry. */
  lemma {:induction false} RegisterKeepsGood(legal: Legality, s: Conn, requestId: u32, ch: Channel, strict: bool)
    requires Good(legal, s, strict) && s.phase == Running
    requires ch.channelId !in s.channels && ch.channelId < s.nextChannel
    requires ch.prefix == ChannelPrefix(ch.channelId) && ch.job == None
    ensures var s' := s.(out := s.out + [OpenReply(requestId, ch)], channels := s.channels[ch.channelId := ch]);
            Good(legal, s', strict)
            && (forall d: u32 :: d != ch.channelId ==> TrackOf(s'.out, d, strict) == TrackOf(s.out, d, strict))
  {
    var m := OpenReply(requestId, ch);
    var s' := s.(out := s.out + [m], channels := s.channels[ch.channelId := ch]);
    SetupStays(s, s', m);
    forall c: u32
      ensures ChannelGood(legal, s', c, strict)
      ensures c != ch.channelId ==> TrackOf(s'.out, c, strict) == TrackOf(s.out, c, strict)
    {
      assert ChannelGood(legal, s, c, strict);
      TrackOneMore(s.out, m, c, strict);
    }
  }

  /** Channel `c` gets job `j`, and the first `n` of its two messages are written. */
  function Given(s: Conn, c: u32, j: Job, n: nat): Conn
    requires c in s.channels
  {
    s.(channels := s.channels[c := s.channels[c].(job := Some(j))],
       out := s.out + (if n == 0 then [] else if n == 1 then [JobMessage(c, j)]
                       else [JobMessage(c, j), PrevHashMessage(c, j)]))
  }

  predicate Older(s: Conn, c: u32, jobId: u32) {
    c in s.channels && s.channels[c].job.Some? ==> s.channels[c].job.value.jobId < jobId
  }

  function TrackGiven(s: Conn, c: u32, j: Job, n: nat, d: u32, strict: bool): Track {
    if d != c || n == 0 then TrackOf(s.out, d, strict) else if n == 1 then Offered(j.jobId) else Active(j.jobId)
  }

  lemma {:induction false} GivenLog(out: seq<Message>, out': seq<Message>, c: u32, j: Job, n: nat, d: u32, strict: bool)
    requires out' == out + (if n == 0 then [] else if n == 1 then [JobMessage(c, j)]
                            else [JobMessage(c, j), PrevHashMessage(c, j)])
    requires d == c ==> Advance(TrackOf(out, c, strict), JobMessage(c, j), c, strict) == Offered(j.jobId)
    ensures TrackOf(out', d, strict)
            == if d != c || n == 0 then TrackOf(out, d, strict) else if n == 1 then Offered(j.jobId)
              else Active(j.jobId)
  {
    var m1, m2 := JobMessage(c, j), PrevHashMessage(c, j);
    if n == 0 {
      assert out' == out;
    } else {
      TrackOneMore(out, m1, d, strict);
      TrackOneMore(out + [m1], m2, d, strict);
      assert out + [m1] + [m2] == out + [m1, m2];
    }
  }

  lemma {:induction false} GivenTrack(s: Conn, c: u32, j: Job, n: nat, d: u32, strict: bool)
    requires c in s.channels && TrackMatches(s, c, strict) && TrackMatches(s, d, strict) && Older(s, c, j.jobId)
    requires strict ==> !TrackOf(s.out, c, strict).Offered?
    ensures TrackMatches(Given(s, c, j, n), d, strict)
    ensures TrackOf(Given(s, c, j, n).out, d, strict) == TrackGiven(s, c, j, n, d, strict)
  {
    assert Advance(TrackOf(s.out, c, strict), JobMessage(c, j), c, strict) == Offered(j.jobId);
    GivenLog(s.out, Given(s, c, j, n).out, c, j, n, d, strict);
  }

  lemma {:induction false} GivenKeepsGood(legal: Legality, s: Conn, c: u32, j: Job, n: nat, strict: bool)
    requires Good(legal, s, strict) && s.phase == Running && c in s.channels
    requires JobOk(legal, s, s.channels[c].address, j) && Older(s, c, j.jobId)
    requires strict ==> !TrackOf(s.out, c, strict).Offered?
    ensures Good(legal, Given(s, c, j, n), strict)
    ensures forall d: u32 :: TrackOf(Given(s, c, j, n).out, d, strict) == TrackGiven(s, c, j, n, d, strict)
  {
    var s' := Given(s, c, j, n);
    forall d: u32
      ensures ChannelGood(legal, s', d, strict)
      ensures TrackOf(s'.out, d, strict) == TrackGiven(s, c, j, n, d, strict)
    {
      assert ChannelGood(legal, s, d, strict) && ChannelGood(legal, s, c, strict);
      GivenTrack(s, c, j, n, d, strict);
    }
    assert SetupFirst(s');
  }

  /** Both messages written: the channel is settled if the others are. */
  lemma {:induction false} GivenSettles(s: Conn, s': Conn, c: u32, j: Job)
    requires c in s.channels && s'.out == Given(s, c, j, 2).out && s'.channels == Given(s, c, j, 2).channels
    requires forall d: u32 :: TrackOf(s'.out, d, true) == TrackGiven(s, c, j, 2, d, true)
    requires forall d: u32 :: d != c ==> SettledAt(s, d)
    ensures Settled(s')
  {
    forall d: u32 ensures SettledAt(s', d) {
      assert d != c ==> SettledAt(s, d);
    }
  }

  lemma {:induction false} FreshJobOk(env: Env, s: Conn, address: string, jobId: u32)
    requires s.latest in s.seen && jobId < s.nextJob
    requires BuildJob(env, address, jobId, s.latest).Some?
    ensures JobOk(Legal(env), s, address, BuildJob(env, address, jobId, s.latest).value)
    ensures BuildJob(env, address, jobId, s.latest).value.jobId == jobId
  {
    var j := BuildJob(env, address, jobId, s.latest).value;
    assert BuiltFor(env, s.seen, address, j, s.latest);
    assert Legal(env)(s.seen, address, j);
  }

  lemma {:induction false} FirstJobGives(s: Conn, ch: Channel, j: Job, budget: nat, clock: int)
    requires s.nextJob < U32_MAX && ch.channelId in s.channels && s.channels[ch.channelId] == ch
    ensures var s2 := Given(s.(nextJob := s.nextJob + 1), ch.channelId, j, if budget >= 2 then 2 else budget);
            var s' := FirstJob(s, ch, Some(j), budget, clock);
            s' == s2.(phase := if budget >= 2 then s.phase else Closed, db := s'.db)
  {
    var m1, m2 := JobMessage(ch.channelId, j), PrevHashMessage(ch.channelId, j);
    assert s.out + [m1] + [m2] == s.out + [m1, m2];
    assert s.out + [] == s.out;
  }

  /** What BuildJob may answer for the next job of this address. */
  ghost predicate FreshJob(legal: Legality, s: Conn, address: string, built: Option<Job>) {
    built.Some? ==>
      && built.value.jobId == s.nextJob
      && (s.nextJob < U32_MAX ==> JobOk(legal, s.(nextJob := s.nextJob + 1), address, built.value))
  }

  lemma {:induction false} FirstJobKeepsGood(legal: Legality, s: Conn, ch: Channel, built: Option<Job>, budget: nat,
      clock: int, strict: bool)
    requires Good(legal, s, strict) && s.phase == Running && FreshJob(legal, s, ch.address, built)
    requires ch.channelId in s.channels && s.channels[ch.channelId] == ch && ch.job == None
    requires strict ==> forall d: u32 :: d != ch.channelId ==> SettledAt(s, d)
    ensures Good(legal, FirstJob(s, ch, built, budget, clock), strict)
    ensures strict ==> Settled(FirstJob(s, ch, built, budget, clock))
  {
    var s' := FirstJob(s, ch, built, budget, clock);
    var c := ch.channelId;
    if s.nextJob == U32_MAX {
      QuietStep(legal, s, s', strict);
    } else {
      var s1 := s.(nextJob := s.nextJob + 1);
      QuietStep(legal, s, s1, strict);
      if built.None? {
        QuietStep(legal, s1, s', strict);
      } else {
        FirstJobGives(s, ch, built.value, budget, clock);
        forall d: u32 | strict && d != c ensures SettledAt(s1, d) {
          assert SettledAt(s, d);
        }
        FirstGivenKeepsGood(legal, s1, s', c, built.value, if budget >= 2 then 2 else budget, strict);
      }
    }
  }

  lemma {:induction false} FirstGivenKeepsGood(legal: Legality, s: Conn, s': Conn, c: u32, j: Job, n: nat, strict: bool)
    requires Good(legal, s, strict) && s.phase == Running
    requires c in s.channels && s.channels[c].job == None && JobOk(legal, s, s.channels[c].address, j)
    requires s' == Given(s, c, j, n).(phase := if n == 2 then s.phase else Closed, db := s'.db)
    requires strict ==> forall d: u32 :: d != c ==> SettledAt(s, d)
    ensures Good(legal, s', strict) && (strict ==> Settled(s'))
  {
    assert ChannelGood(legal, s, c, strict);
    GivenKeepsGood(legal, s, c, j, n, strict);
    QuietStep(legal, Given(s, c, j, n), s', strict);
    if strict && n == 2 {
      GivenSettles(s, s', c, j);
    }
  }

  lemma {:induction false} OpenWithKeepsGood(legal: Legality, s: Conn, s': Conn, requestId: u32, ch: Channel,
      built: Option<Job>, budget: nat, clock: int, strict: bool)
    requires Good(legal, s, strict) && s.phase == Running && (strict ==> Settled(s))
    requires FreshJob(legal, s, ch.address, built)
    requires ch.channelId !in s.channels && ch.channelId < s.nextChannel
    requires ch.prefix == ChannelPrefix(ch.channelId) && ch.job == None
    requires s' == OpenWith(s, requestId, ch, built, budget, clock)
    ensures Good(legal, s', strict) && (strict ==> Settled(s'))
  {
    if budget == 0 {
      QuietStep(legal, s, s', strict);
    } else {
      RegisterKeepsGood(legal, s, requestId, ch, strict);
      var s2 := s.(out := s.out + [OpenReply(requestId, ch)], channels := s.channels[ch.channelId := ch]);
      forall d: u32 | strict && d != ch.channelId ensures SettledAt(s2, d) {
        assert SettledAt(s, d);
      }
      FirstJobKeepsGood(legal, s2, ch, built, budget - 1, clock, strict);
    }
  }

  lemma {:induction false} BuiltFresh(env: Env, s: Conn, address: string)
    requires s.latest in s.seen
    ensures FreshJob(Legal(env), s, address, BuildJob(env, address, s.nextJob, s.latest))
  {
    if s.nextJob < U32_MAX && BuildJob(env, address, s.nextJob, s.latest).Some? {
      FreshJobOk(env, s.(nextJob := s.nextJob + 1), address, s.nextJob);
    }
  }

  lemma {:induction false} OpenForKeepsGood(legal: Legality, s: Conn, s': Conn, requestId: u32, address: string,
      target: Option<Hash>, built: Option<Job>, budget: nat, clock: int, strict: bool)
    requires Good(legal, s, strict) && s.phase == Running && (strict ==> Settled(s))
    requires FreshJob(legal, s, address, built)
    requires s' == OpenFor(s, requestId, address, target, built, budget, clock)
    ensures Good(legal, s', strict) && (strict ==> Settled(s'))
  {
    if s.nextChannel == U32_MAX || target.None? {
      QuietStep(legal, s, s', strict);
    } else {
      var id := s.nextChannel;
      var s1 := s.(nextChannel := id + 1);
      QuietStep(legal, s, s1, strict);
      if strict {
        SettledKeeps(s, s1);
      }
      assert id !in s.channels by { assert ChannelGood(legal, s, id, strict); }
      OpenWithKeepsGood(legal, s1, s', requestId, Channel(id, ChannelPrefix(id), address, None, target.value), built,
                        budget, clock, strict);
    }
  }

  lemma {:induction false} OpenKeepsGood(env: Env, s: Conn, requestId: u32, user: string, hashrate: Hashrate,
      budget: nat, clock: int, strict: bool)
    requires Good(Legal(env), s, strict) && s.phase == Running && (strict ==> Settled(s))
    ensures Good(Legal(env), Open(env, s, requestId, user, hashrate, budget, clock), strict)
    ensures strict ==> Settled(Open(env, s, requestId, user, hashrate, budget, clock))
  {
    var address := MinerAddress(env, user, s.poolAddress);
    BuiltFresh(env, s, address);
    OpenForKeepsGood(Legal(env), s, Open(env, s, requestId, user, hashrate, budget, clock), requestId, address,
                     ChannelTarget(env.checked, hashrate, s.latest.nbits),
                     BuildJob(env, address, s.nextJob, s.latest), budget, clock, strict);
  }

  // ── Broadcast ─────────────────────────────────────────────────────────────

  lemma {:induction false} SendOneGives(s: Conn, c: u32, built: Option<Job>, budget: nat)
    requires c in s.channels
    ensures SendOne(s, c, built, budget)
            == if built.None? then Sent(s, false)
              else Sent(Given(s, c, built.value, if budget >= 2 then 2 else budget), budget >= 2)
  {
    assert s.out + [] == s.out;
  }

  /** Channels still to be served: distinct, known, and with older jobs. */
  ghost predicate Waiting(s: Conn, order: seq<u32>, jobId: u32) {
    && jobId < s.nextJob
    && (forall i, k :: 0 <= i < k < |order| ==> order[i] != order[k])
    && (forall i :: 0 <= i < |order| ==> order[i] in s.channels && Older(s, order[i], jobId))
  }

  /** What may be sent to an address as job `jobId`. */
  ghost predicate Sendable(legal: Legality, s: Conn, address: string, built: Option<Job>, jobId: u32) {
    built.Some? ==> built.value.jobId == jobId && JobOk(legal, s, address, built.value)
  }

  ghost predicate AllSendable(legal: Legality, s: Conn, build: Builder, jobId: u32) {
    forall address: string :: Sendable(legal, s, address, build(address), jobId)
  }

  lemma {:induction false} SendOneKeepsGood(legal: Legality, s: Conn, s': Conn, order: seq<u32>, jobId: u32,
      built: Option<Job>, budget: nat, strict: bool)
    requires Good(legal, s, strict) && s.phase == Running && order != [] && Waiting(s, order, jobId)
    requires strict ==> budget >= 2 && Settled(s)
    requires Sendable(legal, s, s.channels[order[0]].address, built, jobId)
    requires s' == SendOne(s, order[0], built, budget).conn
    ensures Good(legal, s', strict) && (strict ==> Settled(s')) && s'.phase == Running && Waiting(s', order[1..], jobId)
    ensures s'.nextJob == s.nextJob && s'.latest == s.latest && s'.seen == s.seen
  {
    var c := order[0];
    SendOneGives(s, c, built, budget);
    if built.Some? {
      assert ChannelGood(legal, s, c, strict);
      assert strict ==> SettledAt(s, c);
      GivenKeepsGood(legal, s, c, built.value, if budget >= 2 then 2 else budget, strict);
      if strict {
        GivenSettles(s, s', c, built.value);
      }
    }
  }

  lemma {:induction false} StillSendable(legal: Legality, s: Conn, s': Conn, build: Builder, jobId: u32)
    requires AllSendable(legal, s, build, jobId) && s'.nextJob == s.nextJob && s'.latest == s.latest
    requires s'.seen == s.seen
    ensures AllSendable(legal, s', build, jobId)
  {
    forall address: string ensures Sendable(legal, s', address, build(address), jobId) {
      assert Sendable(legal, s, address, build(address), jobId);
    }
  }

  lemma {:induction false} SendJobsKeepGood(legal: Legality, s: Conn, s': Conn, build: Builder, order: seq<u32>,
      jobId: u32, budget: nat, strict: bool)
    requires Good(legal, s, strict) && s.phase == Running && Waiting(s, order, jobId)
    requires AllSendable(legal, s, build, jobId)
    requires strict ==> budget >= 2 * |order| && Settled(s)
    requires (forall c :: c in order ==> c in s.channels) && s' == SendJobs(build, s, order, budget)
    ensures Good(legal, s', strict) && (strict ==> Settled(s'))
    decreases order
  {
    if order != [] {
      var c := order[0];
      var built := build(s.channels[c].address);
      assert Sendable(legal, s, s.channels[c].address, built, jobId);
      var sent := SendOne(s, c, built, budget);
      ServeFirst(legal, s, build, order, jobId, built, budget, strict);
      if sent.all {
        SendJobsKeepGood(legal, sent.conn, s', build, order[1..], jobId, budget - 2, strict);
      }
    }
  }

  lemma {:induction false} ServeFirst(legal: Legality, s: Conn, build: Builder, order: seq<u32>, jobId: u32,
      built: Option<Job>, budget: nat, strict: bool)
    requires Good(legal, s, strict) && s.phase == Running && order != [] && Waiting(s, order, jobId)
    requires AllSendable(legal, s, build, jobId)
    requires strict ==> budget >= 2 && Settled(s)
    requires Sendable(legal, s, s.channels[order[0]].address, built, jobId)
    ensures var s1 := SendOne(s, order[0], built, budget).conn;
            && Good(legal, s1, strict) && (strict ==> Settled(s1)) && s1.phase == Running
            && Waiting(s1, order[1..], jobId) && AllSendable(legal, s1, build, jobId)
            && (forall c :: c in order[1..] ==> c in s1.channels)
  {
    var s1 := SendOne(s, order[0], built, budget).conn;
    SendOneKeepsGood(legal, s, s1, order, jobId, built, budget, strict);
    StillSendable(legal, s, s1, build, jobId);
  }

  lemma {:induction false} JobsSendable(env: Env, s: Conn, jobId: u32)
    requires s.latest in s.seen && jobId < s.nextJob
    ensures AllSendable(Legal(env), s, Jobs(env, jobId, s.latest), jobId)
  {
    forall address: string ensures Sendable(Legal(env), s, address, Jobs(env, jobId, s.latest)(address), jobId) {
      if BuildJob(env, address, jobId, s.latest).Some? {
        FreshJobOk(env, s, address, jobId);
      }
    }
  }

  lemma {:induction false} BroadcastKeepsGood(env: Env, s: Conn, order: seq<u32>, budget: nat, strict: bool)
    requires Good(Legal(env), s, strict) && s.phase == Running && IsWalk(order, s.channels)
    requires strict ==> budget >= 2 * |order| && Settled(s)
    ensures Good(Legal(env), Broadcast(env, s, order, budget), strict)
    ensures strict ==> Settled(Broadcast(env, s, order, budget))
  {
    var s' := Broadcast(env, s, order, budget);
    if s.nextJob == U32_MAX {
      QuietStep(Legal(env), s, s', strict);
    } else {
      var s1 := s.(unseen := false, nextJob := s.nextJob + 1);
      QuietStep(Legal(env), s, s1, strict);
      if strict {
        SettledKeeps(s, s1);
      }
      forall i | 0 <= i < |order| ensures order[i] in s1.channels && Older(s1, order[i], s.nextJob) {
        assert ChannelGood(Legal(env), s, order[i], strict);
      }
      JobsSendable(env, s1, s.nextJob);
      SendJobsKeepGood(Legal(env), s1, s', Jobs(env, s.nextJob, s.latest), order, s.nextJob, budget, strict);
    }
  }

  // ── The other events ──────────────────────────────────────────────────────

  lemma {:induction false} WriteKeepsGood(legal: Legality, s: Conn, m: Message, s': Conn, strict: bool)
    requires Good(legal, s, strict) && s.phase == Running && (strict ==> Settled(s))
    requires m.SharesError? || m.SharesSuccess?
    requires Subject(m).value in s.channels
    requires s' == s.(out := s.out + [m], db := s'.db, solutions := s'.solutions)
    ensures Good(legal, s', strict) && (strict ==> Settled(s'))
  {
    ReplyKeepsGood(legal, s, m, strict);
    QuietStep(legal, s.(out := s.out + [m]), s', strict);
    if strict {
      SettledKeeps(s, s');
    }
  }

  lemma {:induction false} DecideKeepsGood(legal: Legality, s: Conn, share: Submission, v: Verdict, budget: nat,
      strict: bool)
    requires Good(legal, s, strict) && s.phase == Running && (strict ==> Settled(s))
    requires v != UnknownChannel ==> share.channelId in s.channels
    ensures Good(legal, Decide(s, share, v, budget), strict)
    ensures strict ==> Settled(Decide(s, share, v, budget))
  {
    var s' := Decide(s, share, v, budget);
    DecideShape(s, share, v, budget);
    if s'.out == s.out {
      QuietStep(legal, s, s', strict);
    } else {
      WriteKeepsGood(legal, s, DecideReply(share, v), s', strict);
    }
  }

  function DecideReply(share: Submission, v: Verdict): Message {
    if v.Accepted? then SharesSuccess(share.channelId, share.sequence, 1, 1)
    else SharesError(share.channelId, share.sequence, if v.TooLow? then DifficultyTooLow else StaleShare)
  }

  lemma {:induction false} DecideShape(s: Conn, share: Submission, v: Verdict, budget: nat)
    requires s.phase == Running
    ensures var s' := Decide(s, share, v, budget);
            s' == (if s'.out == s.out then s.(phase := if s'.phase == Closed then Closed else Running)
                   else s.(out := s.out + [DecideReply(share, v)])).(db := s'.db, solutions := s'.solutions)
  {
  }

  lemma {:induction false} SubmitKeepsGood(env: Env, s: Conn, share: Submission, budget: nat, strict: bool)
    requires Good(Legal(env), s, strict) && s.phase == Running && (strict ==> Settled(s))
    ensures Good(Legal(env), Submit(env, s, share, budget), strict)
    ensures strict ==> Settled(Submit(env, s, share, budget))
  {
    DecideKeepsGood(Legal(env), s, share, Judge(env, s.channels, share), budget, strict);
  }

  lemma {:induction false} SetupKeepsGood(legal: Legality, s: Conn, f: Frame, budget: nat, strict: bool)
    requires Good(legal, s, strict) && s.phase == AwaitingSetup
    ensures Good(legal, Setup(s, f, budget), strict) && Settled(Setup(s, f, budget))
  {
    var s' := Setup(s, f, budget);
    assert s' == s.(out := s'.out, phase := s'.phase);
    if s'.out != [] {
      var m := s'.out[0];
      forall c: u32 ensures TrackOf(s'.out, c, strict) == Unopened {
        NothingOpened(s'.out, m, c, strict);
      }
    }
  }

  lemma {:induction false} NothingOpened(out: seq<Message>, m: Message, c: u32, strict: bool)
    requires out == [m] && Subject(m) == None
    ensures TrackOf(out, c, strict) == Unopened
  {
    assert out == [] + [m];
    TrackOfOther([], m, c, strict);
  }

  predicate Smooth(e: Event) {
    e.Changed? ==> e.budget >= 2 * |e.order|
  }

  lemma {:induction false} StepKeepsGood(env: Env, s: Conn, e: Event, strict: bool)
    requires Good(Legal(env), s, strict) && (strict ==> Settled(s) && Smooth(e))
    requires Enabled(s, e) && !e.Notified?
    ensures Good(Legal(env), Step(env, s, e), strict)
    ensures strict ==> Settled(Step(env, s, e))
  {
    var s' := Step(env, s, e);
    match e {
      case Changed(order, budget) => BroadcastKeepsGood(env, s, order, budget, strict);
      case HungUp => QuietStep(Legal(env), s, s', strict);
      case Arrived(f, budget, clock) =>
        if s.phase.AwaitingSetup? {
          SetupKeepsGood(Legal(env), s, f, budget, strict);
        } else if s.phase.Running? {
          match f {
            case OpenChannel(requestId, user, hashrate) =>
              OpenKeepsGood(env, s, requestId, user, hashrate, budget, clock, strict);
            case SubmitShares(share) => SubmitKeepsGood(env, s, share, budget, strict);
            case _ => QuietStep(Legal(env), s, s', strict);
          }
        }
    }
  }
}
