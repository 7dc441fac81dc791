/** Who is paid: the miner that opened the channel, in every run of a connection fed by the
    node. */
module PayoutTheorems {
  import opened Bytes
  import opened Transactions
  import opened Coinbase
  import opened Connection
  import opened ConnectionRuns
  import opened ConnectionTheorems
  import opened ShareTheorems
  import opened TargetTheorems

  // ── The address of a channel ──────────────────────────────────────────────

  lemma {:induction false} SettingsFixed(env: Env, s: System, es: seq<SysEvent>)
    requires SystemGood(env, s, false) && SysAllowed(env, s, es)
    ensures var s' := SysRun(env, s, es).conn;
            s'.poolAddress == s.conn.poolAddress && s'.recording == s.conn.recording
    decreases es
  {
    if es != [] {
      var s' := SysStep(env, s, es[0]);
      if es[0].Other? {
        StepEvolves(env, s.conn, s'.conn, es[0].event);
      }
      SystemStepKeepsGood(env, s, es[0], false);
      SettingsFixed(env, s', es[1..]);
    }
  }

  /** In every later state a channel has the address its opener asked for, or the pool's
      where that is none. */
  lemma {:induction false} AddressIsPromised(env: Env, s: System, before: seq<SysEvent>, e: SysEvent,
      after: seq<SysEvent>, c: u32, h: Hashrate)
    requires OpenedRun(env, s, before, e, after, c, h)
    ensures var s' := Finally(env, s, before, e, after, c, h);
            c in s'.channels && s'.channels[c].address == MinerAddress(env, e.event.frame.user, s.conn.poolAddress)
  {
    InitialGood(env, s, false);
    RunKeepsGood(env, s, before, false);
    SettingsFixed(env, s, before);
    var s1 := SysRun(env, s, before);
    OpeningTarget(env, s1, SysStep(env, s1, e), e, c, h);
    SystemStepKeepsGood(env, s1, e, false);
    JobsOnlyAdvance(env, SysStep(env, s1, e), after, c);
  }

  // ── Every channel was opened ──────────────────────────────────────────────

  lemma {:induction false} SendJobsAddNone(build: Builder, s: Conn, order: seq<u32>, budget: nat)
    requires forall c :: c in order ==> c in s.channels
    ensures SendJobs(build, s, order, budget).channels.Keys == s.channels.Keys
    decreases order
  {
    if order != [] {
      var sent := SendOne(s, order[0], build(s.channels[order[0]].address), budget);
      assert sent.conn.channels.Keys == s.channels.Keys;
      if sent.all {
        SendJobsAddNone(build, sent.conn, order[1..], budget - 2);
      }
    }
  }

  lemma {:induction false} BroadcastAddsNone(env: Env, s: Conn, s': Conn, order: seq<u32>, budget: nat)
    requires IsWalk(order, s.channels) && s' == Broadcast(env, s, order, budget)
    ensures s'.channels.Keys == s.channels.Keys
  {
    if s.nextJob < U32_MAX {
      var build, s1 := Jobs(env, s.nextJob, s.latest), s.(unseen := false, nextJob := s.nextJob + 1);
      assert s' == SendJobs(build, s1, order, budget);
      SendJobsAddNone(build, s1, order, budget);
    }
  }

  lemma {:induction false} OpenForAddsOne(s: Conn, s': Conn, requestId: u32, address: string, target: Option<Hash>,
      built: Option<Job>, budget: nat, clock: int)
    requires s' == OpenFor(s, requestId, address, target, built, budget, clock)
    ensures s'.channels.Keys <= s.channels.Keys + {s.nextChannel}
  {
  }

  predicate IsOpening(s: Conn, e: Event) {
    s.phase == Running && e.Arrived? && e.frame.OpenChannel?
  }

  lemma {:induction false} DispatchAdds(env: Env, s: Conn, s': Conn, f: Frame, budget: nat, clock: int)
    requires s.phase == Running && s' == Dispatch(env, s, f, budget, clock)
    ensures s'.channels.Keys <= s.channels.Keys + (if f.OpenChannel? then {s.nextChannel} else {})
  {
    match f {
      case OpenChannel(requestId, user, hashrate) =>
        var address := MinerAddress(env, user, s.poolAddress);
        OpenForAddsOne(s, s', requestId, address, ChannelTarget(env.checked, hashrate, s.latest.nbits),
                       BuildJob(env, address, s.nextJob, s.latest), budget, clock);
      case SubmitShares(share) => DecideShape(s, share, Judge(env, s.channels, share), budget);
      case _ =>
    }
  }

  lemma {:induction false} StepAdds(env: Env, s: Conn, s': Conn, e: Event)
    requires Enabled(s, e) && s' == Step(env, s, e)
    ensures s'.channels.Keys <= s.channels.Keys + (if IsOpening(s, e) then {s.nextChannel} else {})
  {
    if e.Changed? {
      BroadcastAddsNone(env, s, s', e.order, e.budget);
    } else if e.Arrived? && s.phase == Running {
      DispatchAdds(env, s, s', e.frame, e.budget, e.clock);
    }
  }

  predicate OpensFor(env: Env, s: System, e: SysEvent, c: u32) {
    e.Other? && e.event.Arrived? && e.event.frame.OpenChannel? && Opens(env, s, e, c, e.event.frame.hashrate)
  }

  lemma {:induction false} NewChannelOpens(env: Env, s: System, s': System, e: SysEvent, c: u32)
    requires SysEnabled(s, e) && s' == SysStep(env, s, e) && c !in s.conn.channels && c in s'.conn.channels
    ensures OpensFor(env, s, e, c)
  {
    if e.Other? {
      StepAdds(env, s.conn, s'.conn, e.event);
      assert c in s'.conn.channels.Keys && c !in s.conn.channels.Keys;
    }
  }

  /** A run that reaches a channel has the event that opened it. */
  lemma {:induction false} ChannelWasOpened(env: Env, s: System, es: seq<SysEvent>, c: u32)
    returns (before: seq<SysEvent>, e: SysEvent, after: seq<SysEvent>)
    requires SysAllowed(env, s, es) && c !in s.conn.channels && c in SysRun(env, s, es).conn.channels
    ensures es == before + [e] + after && SysAllowed(env, s, before)
    ensures OpensFor(env, SysRun(env, s, before), e, c)
    ensures var s1 := SysStep(env, SysRun(env, s, before), e);
            SysAllowed(env, s1, after) && SysRun(env, s1, after) == SysRun(env, s, es)
    decreases es
  {
    var s' := SysStep(env, s, es[0]);
    if c in s'.conn.channels {
      NewChannelOpens(env, s, s', es[0], c);
      before, e, after := [], es[0], es[1..];
      assert es == [] + [e] + after;
    } else {
      before, e, after := ChannelWasOpened(env, s', es[1..], c);
      before := [es[0]] + before;
      assert before[0] == es[0] && before[1..] + [e] + after == es[1..];
    }
  }

  // ── Every solution pays its miner ─────────────────────────────────────────

  /** A solution forwarded in a run comes from a channel that was opened in it, and mines the
      block it names with the channel's prefix in the extranonce and all value paid to the
      address asked for at opening, or to the pool where that is none. */
  lemma {:induction false} SolutionsPayMiners(env: Env, s: System, es: seq<SysEvent>, i: nat)
    returns (before: seq<SysEvent>, e: SysEvent, after: seq<SysEvent>, c: u32, k: nat, extranonce: Bytes, tx: Tx)
    requires Initial(s) && SysAllowed(env, s, es) && i < |SysRun(env, s, es).conn.solutions|
    ensures es == before + [e] + after && SysAllowed(env, s, before) && OpensFor(env, SysRun(env, s, before), e, c)
    ensures |extranonce| == EXTRANONCE_TOTAL && extranonce[..32] == ChannelPrefix(c)
    ensures var s' := SysRun(env, s, es);
            var sol := s'.conn.solutions[i];
            var payee := env.scriptOf(MinerAddress(env, e.event.frame.user, s.conn.poolAddress));
            && k < |s'.node.issued| && s'.node.issued[k].template.templateId == sol.templateId
            && Deserialize(sol.coinbase) == Some(tx)
            && payee.Some? && MinedFrom(tx, s'.node.issued[k], payee.value, extranonce)
  {
    var hash;
    k, c, extranonce, tx, hash := ForwardedSolutions(env, s, es, i);
    before, e, after := ChannelWasOpened(env, s, es, c);
    AddressIsPromised(env, s, before, e, after, c, e.event.frame.hashrate);
  }
}
