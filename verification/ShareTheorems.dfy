/** What the server promises about shares, over every run of a connection fed by the node. */
module ShareTheorems {
  import opened Bytes
  import opened BlockHeaders
  import opened Targets
  import opened Transactions
  import opened Merkle
  import opened NodeTemplate
  import opened Coinbase
  import opened Tables
  import opened Connection
  import opened ConnectionRuns
  import opened ConnectionTheorems

  // ── Decoding ──────────────────────────────────────────────────────────────

  /** The coinbase of a share of a pool-built job always deserialises, to the coinbase of
      the job's template that pays the channel's address. */
  lemma {:induction false} ShareCoinbaseDecodes(env: Env, seen: seq<Template>, ch: Channel, j: Job,
      share: Submission, t: Template, os: seq<TxOut>)
    requires BuiltFor(env, seen, ch.address, j, t) && Carries(t, os)
    ensures env.scriptOf(ch.address).Some?
    ensures Deserialize(ShareCoinbase(ch, j, share))
            == Some(CoinbaseTx(t, env.scriptOf(ch.address).value, FullExtranonce(ch.prefix, share.extranonce), os,
                               os != []))
  {
    JobFields(env, ch.address, j, t);
    CoinbaseRoundTrip(t, env.scriptOf(ch.address).value, os, FullExtranonce(ch.prefix, share.extranonce));
  }

  /** The channel and the job of a share that names the current job of an open channel. */
  predicate Names(s: Conn, share: Submission, ch: Channel, j: Job) {
    share.channelId in s.channels && s.channels[share.channelId] == ch && ch.job == Some(j) && j.jobId == share.jobId
  }

  /** In every good state the deserialisation-failure branch is unreachable. */
  lemma {:induction false} NeverUndecodable(env: Env, s: Conn, share: Submission, ch: Channel, j: Job) returns (tx: Tx)
    requires Good(Legal(env), s, false) && Names(s, share, ch, j)
    ensures Deserialize(ShareCoinbase(ch, j, share)) == Some(tx)
    ensures Judge(env, s.channels, share) == Grade(ShareHash(env, j, share, tx), ch.target, j.nbits)
  {
    assert ChannelGood(Legal(env), s, share.channelId, false);
    assert Legal(env)(s.seen, ch.address, j);
    var t: Template :| BuiltFor(env, s.seen, ch.address, j, t);
    assert Carried(t);
    var os: seq<TxOut> :| Carries(t, os);
    ShareCoinbaseDecodes(env, s.seen, ch, j, share, t, os);
    tx := Deserialize(ShareCoinbase(ch, j, share)).value;
  }

  // ── The decision ──────────────────────────────────────────────────────────

  /** For a share of the current job the answer is decided by the numbers alone: success
      exactly if the hash is at most the channel target, a solution exactly if it is also
      at most the network target. The solution is sent even if the answer cannot be written, which ends the
      connection; the share is stored only after that. */
  lemma {:induction false} ShareDecision(env: Env, s: Conn, share: Submission, ch: Channel, j: Job,
      budget: nat) returns (hash: Hash)
    requires Good(Legal(env), s, false) && s.phase == Running && Names(s, share, ch, j)
    ensures IsShareHash(env, ch, j, share, hash)
    ensures var s' := Submit(env, s, share, budget);
            && s'.phase == (if budget > 0 then Running else Closed)
            && s' == s.(phase := s'.phase, out := s'.out, solutions := s'.solutions, db := s'.db)
            && s'.out == s.out + (if budget == 0 then [] else
                                  [if Value(hash) <= Value(ch.target)
                                   then SharesSuccess(share.channelId, share.sequence, 1, 1)
                                   else SharesError(share.channelId, share.sequence, DifficultyTooLow)])
            && s'.solutions == s.solutions
               + (if Value(hash) <= Value(ch.target) && Value(hash) <= CompactValue(j.nbits)
                  then [Solution(j.templateId, share.version, share.ntime, share.nonce, ShareCoinbase(ch, j, share))]
                    else [])
            && SharesOf(s'.db) == SharesOf(s.db)
               + (if s.recording && budget > 0 && Value(hash) <= Value(ch.target)
                  then [Share(ch.address, HashToDifficulty(hash), hash, share.ntime)] else [])
  {
    var tx := NeverUndecodable(env, s, share, ch, j);
    hash := ShareHash(env, j, share, tx);
    ShareHashIs(env, ch, j, share, tx);
    DecisionOfGrade(s, Submit(env, s, share, budget), share, ch, j, hash, budget);
  }

  lemma {:induction false} DecisionOfGrade(s: Conn, s': Conn, share: Submission, ch: Channel, j: Job, hash: Hash,
      budget: nat)
    requires s.phase == Running && Names(s, share, ch, j)
    requires s' == Decide(s, share, Grade(hash, ch.target, j.nbits), budget)
    ensures s'.phase == if budget > 0 then Running else Closed
    ensures s' == s.(phase := s'.phase, out := s'.out, solutions := s'.solutions, db := s'.db)
    ensures s'.out == s.out
            + (if budget == 0 then [] else
               [if Value(hash) <= Value(ch.target) then SharesSuccess(share.channelId, share.sequence, 1, 1)
                else SharesError(share.channelId, share.sequence, DifficultyTooLow)])
    ensures s'.solutions == s.solutions
            + (if Value(hash) <= Value(ch.target) && Value(hash) <= CompactValue(j.nbits)
               then [Solution(j.templateId, share.version, share.ntime, share.nonce, ShareCoinbase(ch, j, share))]
                 else [])
    ensures SharesOf(s'.db) == SharesOf(s.db)
            + (if s.recording && budget > 0 && Value(hash) <= Value(ch.target)
               then [Share(ch.address, HashToDifficulty(hash), hash, share.ntime)] else [])
  {
    if Value(hash) > Value(ch.target) {
      assert s' == s.(out := s'.out, phase := s'.phase);
    } else {
      AcceptGives(s, s', share, ch, j, hash, Value(hash) <= CompactValue(j.nbits), budget);
    }
  }

  lemma {:induction false} AcceptGives(s: Conn, s': Conn, share: Submission, ch: Channel, j: Job, hash: Hash,
      solves: bool, budget: nat)
    requires s.phase == Running && Names(s, share, ch, j)
    requires s' == Accept(s, share, hash, solves, budget)
    ensures s'.phase == if budget > 0 then Running else Closed
    ensures s' == s.(phase := s'.phase, out := s'.out, solutions := s'.solutions, db := s'.db)
    ensures s'.out == s.out + (if budget > 0 then [SharesSuccess(share.channelId, share.sequence, 1, 1)] else [])
    ensures s'.solutions == s.solutions
            + (if solves then [Solution(j.templateId, share.version, share.ntime, share.nonce,
                                        ShareCoinbase(ch, j, share))] else [])
    ensures SharesOf(s'.db) == SharesOf(s.db)
            + (if s.recording && budget > 0 then [Share(ch.address, HashToDifficulty(hash), hash, share.ntime)] else [])
  {
    var sol := Solution(j.templateId, share.version, share.ntime, share.nonce, ShareCoinbase(ch, j, share));
    var e := ShareEvent(Share(ch.address, HashToDifficulty(hash), hash, share.ntime));
    AcceptShape(s, s', share, hash, solves, budget, sol, e);
    OneMoreEvent(s.db, e);
    assert s.out + [] == s.out && s.solutions + [] == s.solutions;
  }

  lemma {:induction false} AcceptShape(s: Conn, s': Conn, share: Submission, hash: Hash, solves: bool, budget: nat,
      sol: Solution, e: DbEvent)
    requires share.channelId in s.channels && s.channels[share.channelId].job.Some?
    requires s' == Accept(s, share, hash, solves, budget)
    requires var ch := s.channels[share.channelId];
             && sol == Solution(ch.job.value.templateId, share.version, share.ntime, share.nonce,
                                ShareCoinbase(ch, ch.job.value, share))
             && e == ShareEvent(Share(ch.address, HashToDifficulty(hash), hash, share.ntime))
    ensures s' == s.(solutions := if solves then s.solutions + [sol] else s.solutions,
                     phase := if budget > 0 then s.phase else Closed,
                     out := if budget > 0 then s.out + [SharesSuccess(share.channelId, share.sequence, 1, 1)]
                       else s.out,
                     db := if budget > 0 && s.recording then s.db + [e] else s.db)
  {
  }

  /** A share of no channel is passed over in silence; one of a channel without a job, or of
      another job than its last, gets a stale error. Nothing else changes, and the connection
      ends only if the answer cannot be written. */
  lemma {:induction false} OtherShares(env: Env, s: Conn, share: Submission, budget: nat)
    requires s.phase == Running
    ensures share.channelId !in s.channels ==> Submit(env, s, share, budget) == s
    ensures share.channelId in s.channels
            && (s.channels[share.channelId].job == None
                || s.channels[share.channelId].job.value.jobId != share.jobId) ==>
              Submit(env, s, share, budget)
              == if budget == 0 then s.(phase := Closed)
                 else s.(out := s.out + [SharesError(share.channelId, share.sequence, StaleShare)])
  {
  }

  // ── Solutions and the database ────────────────────────────────────────────

  /** The header of a solution of job `j` hashes to at most the job's network target. */
  predicate Wins(env: Env, sol: Solution, j: Job) {
    && Deserialize(sol.coinbase).Some?
    && var root := Climb(env, Txid(env, Deserialize(sol.coinbase).value), j.merklePath);
       Value(Reverse(env.sha256d(HeaderBytes(sol.version, j.prevHash, root, sol.ntime, j.nbits, sol.nonce))))
         <= CompactValue(j.nbits)
  }

  /** The coinbase of a solution is one of job `j`, built for the address of channel `c` and
      a template seen, with the channel's prefix in its extranonce, and wins. */
  ghost predicate SolutionFrom(env: Env, legal: Legality, s: Conn, sol: Solution, c: u32, j: Job, extranonce: Bytes) {
    && c in s.channels && legal(s.seen, s.channels[c].address, j)
    && |extranonce| == EXTRANONCE_TOTAL && extranonce[..32] == ChannelPrefix(c)
    && sol.templateId == j.templateId && sol.coinbase == Assemble(j.parts, extranonce)
    && Wins(env, sol, j)
  }

  ghost predicate SolutionOk(env: Env, legal: Legality, s: Conn, sol: Solution) {
    exists c: u32, j: Job, extranonce: Bytes :: SolutionFrom(env, legal, s, sol, c, j, extranonce)
  }

  predicate BeatsChannel(s: Conn, sh: Share, c: u32) {
    c in s.channels && s.channels[c].address == sh.address && Value(sh.hash) <= Value(s.channels[c].target)
  }

  /** A stored share beat the target of channel `c` of its miner and has the credit of its hash. */
  predicate StoredOk(s: Conn, sh: Share, c: u32) {
    sh.difficulty == HashToDifficulty(sh.hash) && BeatsChannel(s, sh, c)
  }

  /** The stored shares are those of the successes, one by one. */
  predicate SharesOk(s: Conn) {
    && |SharesOf(s.db)| == (if s.recording then |Successes(s.out)| else 0)
    && forall i :: 0 <= i < |SharesOf(s.db)| ==> StoredOk(s, SharesOf(s.db)[i], Successes(s.out)[i])
  }

  ghost predicate LogsOk(env: Env, legal: Legality, s: Conn) {
    && SharesOk(s)
    && forall i :: 0 <= i < |s.solutions| ==> SolutionOk(env, legal, s, s.solutions[i])
  }

  lemma {:induction false} QuietKeepsLogs(env: Env, legal: Legality, s: Conn, s': Conn)
    requires LogsOk(env, legal, s) && Evolves(s, s') && QuietLogs(s, s')
    ensures LogsOk(env, legal, s')
  {
    forall i | 0 <= i < |SharesOf(s'.db)| ensures StoredOk(s', SharesOf(s'.db)[i], Successes(s'.out)[i]) {
      assert StoredOk(s, SharesOf(s.db)[i], Successes(s.out)[i]);
      assert ChannelEvolves(s, s', Successes(s.out)[i]);
    }
    forall i | 0 <= i < |s'.solutions| ensures SolutionOk(env, legal, s', s'.solutions[i]) {
      SolutionStays(env, legal, s, s', s.solutions[i]);
    }
  }

  lemma {:induction false} SolutionStays(env: Env, legal: Legality, s: Conn, s': Conn, sol: Solution)
    requires SolutionOk(env, legal, s, sol) && Evolves(s, s')
    ensures SolutionOk(env, legal, s', sol)
  {
    var c: u32, j: Job, extranonce: Bytes :| SolutionFrom(env, legal, s, sol, c, j, extranonce);
    assert ChannelEvolves(s, s', c);
    assert SolutionFrom(env, legal, s', sol, c, j, extranonce);
  }

  lemma {:induction false} RefusalQuiet(s: Conn, s': Conn, share: Submission, v: Verdict, budget: nat)
    requires s.phase == Running && s' == Decide(s, share, v, budget) && !v.Accepted?
    ensures QuietLogs(s, s')
  {
    var m := DecideReply(share, v);
    assert s'.solutions == s.solutions && s'.db == s.db && (s'.out == s.out || s'.out == s.out + [m]) by {
      DecideShape(s, share, v, budget);
    }
    ReplyQuiet(s, s', m);
  }

  lemma {:induction false} ReplyQuiet(s: Conn, s': Conn, m: Message)
    requires s'.solutions == s.solutions && s'.db == s.db && (s'.out == s.out || s'.out == s.out + [m])
    requires !m.SharesSuccess?
    ensures QuietLogs(s, s')
  {
    OneMoreMessage(s.out, m);
  }

  function SolutionOf(ch: Channel, j: Job, share: Submission): Solution {
    Solution(j.templateId, share.version, share.ntime, share.nonce, ShareCoinbase(ch, j, share))
  }

  lemma {:induction false} SolutionIsOk(env: Env, legal: Legality, s: Conn, share: Submission, ch: Channel, j: Job)
    requires Good(legal, s, false) && Names(s, share, ch, j) && Wins(env, SolutionOf(ch, j, share), j)
    ensures SolutionOk(env, legal, s, SolutionOf(ch, j, share))
  {
    assert ChannelGood(legal, s, share.channelId, false);
    var extranonce := FullExtranonce(ch.prefix, share.extranonce);
    assert extranonce[..32] == ch.prefix;
    assert SolutionFrom(env, legal, s, SolutionOf(ch, j, share), share.channelId, j, extranonce);
  }

  lemma {:induction false} StoredOneMore(s: Conn, s': Conn, sh: Share, c: u32, m: Message)
    requires SharesOk(s) && m.SharesSuccess? && m.channelId == c && StoredOk(s, sh, c)
    requires s'.channels == s.channels && s'.recording == s.recording && s'.out == s.out + [m]
    requires s'.db == if s.recording then s.db + [ShareEvent(sh)] else s.db
    ensures SharesOk(s')
  {
    OneMoreMessage(s.out, m);
    OneMoreEvent(s.db, ShareEvent(sh));
    forall i | 0 <= i < |SharesOf(s'.db)| ensures StoredOk(s', SharesOf(s'.db)[i], Successes(s'.out)[i]) {
      assert i < |SharesOf(s.db)| ==> StoredOk(s, SharesOf(s.db)[i], Successes(s.out)[i]);
    }
  }

  lemma {:induction false} SameStored(s: Conn, s': Conn)
    requires SharesOk(s)
    requires s'.channels == s.channels && s'.recording == s.recording && s'.out == s.out && s'.db == s.db
    ensures SharesOk(s')
  {
    forall i | 0 <= i < |SharesOf(s'.db)| ensures StoredOk(s', SharesOf(s'.db)[i], Successes(s'.out)[i]) {
      assert StoredOk(s, SharesOf(s.db)[i], Successes(s.out)[i]);
    }
  }

  /** An accepted share adds at most one solution, and one stored share per success sent. */
  lemma {:induction false} AcceptKeepsLogs(env: Env, legal: Legality, s: Conn, s': Conn, share: Submission,
      hash: Hash, solves: bool, budget: nat, ch: Channel, j: Job)
    requires LogsOk(env, legal, s) && Good(legal, s, false) && Names(s, share, ch, j)
    requires Value(hash) <= Value(ch.target) && s' == Accept(s, share, hash, solves, budget)
    requires solves ==> Wins(env, SolutionOf(ch, j, share), j)
    ensures LogsOk(env, legal, s')
  {
    if solves {
      SolutionIsOk(env, legal, s, share, ch, j);
    }
    assert s'.solutions == if solves then s.solutions + [SolutionOf(ch, j, share)] else s.solutions;
    SameChannelsEvolve(s, s');
    forall i | 0 <= i < |s'.solutions| ensures SolutionOk(env, legal, s', s'.solutions[i]) {
      SolutionStays(env, legal, s, s', s'.solutions[i]);
    }
    if budget == 0 {
      SameStored(s, s');
    } else {
      var sh := Share(ch.address, HashToDifficulty(hash), hash, share.ntime);
      StoredOneMore(s, s', sh, share.channelId, SharesSuccess(share.channelId, share.sequence, 1, 1));
    }
  }

  lemma {:induction false} SubmitKeepsLogs(env: Env, s: Conn, s': Conn, share: Submission, budget: nat)
    requires LogsOk(env, Legal(env), s) && Good(Legal(env), s, false) && s.phase == Running
    requires s' == Submit(env, s, share, budget)
    ensures LogsOk(env, Legal(env), s')
  {
    var v := Judge(env, s.channels, share);
    if v.Accepted? {
      AcceptedKeepsLogs(env, s, s', share, v, budget);
    } else {
      SubmitEvolves(env, s, s', share, budget);
      RefusalQuiet(s, s', share, v, budget);
      QuietKeepsLogs(env, Legal(env), s, s');
    }
  }

  lemma {:induction false} AcceptedKeepsLogs(env: Env, s: Conn, s': Conn, share: Submission, v: Verdict, budget: nat)
    requires LogsOk(env, Legal(env), s) && Good(Legal(env), s, false)
    requires v == Judge(env, s.channels, share) && v.Accepted? && s' == Accept(s, share, v.hash, v.solves, budget)
    ensures LogsOk(env, Legal(env), s')
  {
    var ch := s.channels[share.channelId];
    var j := ch.job.value;
    var tx := NeverUndecodable(env, s, share, ch, j);
    AcceptKeepsLogs(env, Legal(env), s, s', share, v.hash, v.solves, budget, ch, j);
  }

  lemma {:induction false} NewBlockKeepsLogs(env: Env, s: Conn, s': Conn, t: Template)
    requires LogsOk(env, Legal(env), s) && s' == s.(latest := t, seen := s.seen + [t], unseen := true)
    ensures LogsOk(env, Legal(env), s')
  {
    SameStored(s, s');
    forall i | 0 <= i < |s'.solutions| ensures SolutionOk(env, Legal(env), s', s'.solutions[i]) {
      var sol := s.solutions[i];
      var c: u32, j: Job, extranonce: Bytes :| SolutionFrom(env, Legal(env), s, sol, c, j, extranonce);
      StillLegal(env, s.seen, t, s.channels[c].address, j);
      assert SolutionFrom(env, Legal(env), s', sol, c, j, extranonce);
    }
  }

  lemma {:induction false} StepKeepsLogs(env: Env, s: System, s': System, e: SysEvent)
    requires SystemGood(env, s, false) && SysEnabled(s, e) && s' == SysStep(env, s, e)
    requires LogsOk(env, Legal(env), s.conn)
    ensures LogsOk(env, Legal(env), s'.conn)
  {
    if e.NewBlock? {
      if Fetched(s, e).Ok? {
        NewBlockKeepsLogs(env, s.conn, s'.conn, Fetched(s, e).value);
      }
    } else if IsShare(s.conn, e.event) {
      SubmitKeepsLogs(env, s.conn, s'.conn, e.event.frame.share, e.event.budget);
    } else {
      StepEvolves(env, s.conn, s'.conn, e.event);
      QuietKeepsLogs(env, Legal(env), s.conn, s'.conn);
    }
  }

  lemma {:induction false} RunKeepsLogs(env: Env, s: System, es: seq<SysEvent>)
    requires SystemGood(env, s, false) && SysAllowed(env, s, es) && LogsOk(env, Legal(env), s.conn)
    ensures LogsOk(env, Legal(env), SysRun(env, s, es).conn)
    decreases es
  {
    if es != [] {
      StepKeepsLogs(env, s, SysStep(env, s, es[0]), es[0]);
      SystemStepKeepsGood(env, s, es[0], false);
      RunKeepsLogs(env, SysStep(env, s, es[0]), es[1..]);
    }
  }

  /** The shares a recording connection hands to the database are those it answered with
      success, one by one and in order: the i-th has the address of the channel the i-th
      success names, beat that channel's target, and has the credit of its hash. */
  lemma {:induction false} StoredShares(env: Env, s: System, es: seq<SysEvent>)
    requires Initial(s) && SysAllowed(env, s, es)
    ensures var s' := SysRun(env, s, es).conn;
            && |SharesOf(s'.db)| == (if s'.recording then |Successes(s'.out)| else 0)
            && forall i :: 0 <= i < |SharesOf(s'.db)| ==> StoredOk(s', SharesOf(s'.db)[i], Successes(s'.out)[i])
  {
    InitialGood(env, s, false);
    RunKeepsLogs(env, s, es);
  }

  /** The header of a solution with coinbase `tx` for a block of the node. */
  function SolutionHeader(env: Env, sol: Solution, tx: Tx, i: Issue): BlockHeader {
    var root := Climb(env, Txid(env, tx), i.template.merklePath);
    BlockHeader(sol.version, i.header.prevHash, root, sol.ntime, i.header.bits, sol.nonce)
  }

  /** The coinbase `tx` of a solution is the one of block `i`, with its value paid to
      `script` and `extranonce` in the input. */
  ghost predicate MinedFrom(tx: Tx, i: Issue, script: Bytes, extranonce: Bytes) {
    && i.coinbase.inputs != [] && SumValues(i.coinbase.outputs) <= U64_MAX
    && tx.outputs == [TxOut(SumValues(i.coinbase.outputs), script)] + ZeroOutputs(i.coinbase.outputs)
    && KeepsZeros(i.coinbase.outputs, tx.outputs[1..]) && SumValues(tx.outputs) == SumValues(i.coinbase.outputs)
    && tx.inputs == [TxIn(Zeros(32), U32_MAX, i.coinbase.inputs[0].script + extranonce, i.coinbase.inputs[0].sequence)]
    && tx.version == i.coinbase.version && tx.locktime == i.coinbase.locktime
  }

  /** Every solution a connection ever forwards is for a block of the node: the one whose
      template it names, the first template or a new block of the run. It comes from a
      channel `c` of the connection: its coinbase deserialises, has the prefix of `c` in its
      extranonce, pays the block's whole value to the address of `c` and else keeps only
      the node's zero outputs, and `hash`, the block hash of its header, is at most the
      block's target. */
  lemma {:induction false} ForwardedSolutions(env: Env, s: System, es: seq<SysEvent>, i: nat)
    returns (k: nat, c: u32, extranonce: Bytes, tx: Tx, hash: Hash)
    requires Initial(s) && SysAllowed(env, s, es) && i < |SysRun(env, s, es).conn.solutions|
    ensures var s' := SysRun(env, s, es);
            var sol := s'.conn.solutions[i];
            && k < |s'.node.issued|
            && var issue := s'.node.issued[k];
               && (k == 0 || NewBlock(issue.header, issue.coinbase, issue.path) in es)
               && (forall l :: 0 <= l < |s'.node.issued| ==>
                   (s'.node.issued[l].template.templateId == sol.templateId <==> l == k))
               && TakenFrom(issue.template, sol.templateId, issue.header, issue.coinbase, issue.path)
               && Deserialize(sol.coinbase) == Some(tx)
               && c in s'.conn.channels && env.scriptOf(s'.conn.channels[c].address).Some?
               && |extranonce| == EXTRANONCE_TOTAL && extranonce[..32] == ChannelPrefix(c)
               && MinedFrom(tx, issue, env.scriptOf(s'.conn.channels[c].address).value, extranonce)
               && HashesTo(env, SolutionHeader(env, sol, tx, issue), hash)
               && Value(hash) <= CompactValue(issue.header.bits)
  {
    InitialGood(env, s, false);
    RunKeepsLogs(env, s, es);
    RunKeepsGood(env, s, es, false);
    var s' := SysRun(env, s, es);
    var sol := s'.conn.solutions[i];
    assert SolutionOk(env, Legal(env), s'.conn, sol);
    var j: Job;
    c, j, extranonce :| SolutionFrom(env, Legal(env), s'.conn, sol, c, j, extranonce);
    var address := s'.conn.channels[c].address;
    k := IssueOf(env, s', address, j);
    tx, hash := WinningSolution(env, sol, address, j, extranonce, s'.node.issued[k]);
    IssuedByBlocks(env, s, es, k);
  }

  lemma {:induction false} WinningSolution(env: Env, sol: Solution, address: string, j: Job, extranonce: Bytes,
      i: Issue) returns (tx: Tx, hash: Hash)
    requires MadeOf(env, j, address, i) && Wins(env, sol, j)
    requires |extranonce| == EXTRANONCE_TOTAL && sol.templateId == j.templateId
    requires sol.coinbase == Assemble(j.parts, extranonce)
    ensures TakenFrom(i.template, sol.templateId, i.header, i.coinbase, i.path)
    ensures Deserialize(sol.coinbase) == Some(tx)
    ensures MinedFrom(tx, i, env.scriptOf(address).value, extranonce)
    ensures HashesTo(env, SolutionHeader(env, sol, tx, i), hash) && Value(hash) <= CompactValue(i.header.bits)
  {
    JobFields(env, address, j, i.template);
    TemplateFromNode(i.template.templateId, i.header, i.coinbase, i.path, i.template);
    assert Pays(j, extranonce, i.coinbase, env.scriptOf(address).value);
    tx := Deserialize(sol.coinbase).value;
    ZerosAreKept(i.coinbase.outputs);
    assert tx.outputs[1..] == ZeroOutputs(i.coinbase.outputs);
    hash := WinningHeader(env, sol, tx, j, i);
  }

  lemma {:induction false} WinningHeader(env: Env, sol: Solution, tx: Tx, j: Job, i: Issue) returns (hash: Hash)
    requires Wins(env, sol, j) && Deserialize(sol.coinbase) == Some(tx)
    requires j.prevHash == i.header.prevHash && j.nbits == i.header.bits && j.merklePath == i.template.merklePath
    ensures HashesTo(env, SolutionHeader(env, sol, tx, i), hash) && Value(hash) <= CompactValue(i.header.bits)
  {
    var root := Climb(env, Txid(env, tx), j.merklePath);
    hash := Reverse(env.sha256d(HeaderBytes(sol.version, j.prevHash, root, sol.ntime, j.nbits, sol.nonce)));
    HashOfHeader(env, SolutionHeader(env, sol, tx, i), hash);
  }
}
