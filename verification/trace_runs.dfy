/**
 A trace driven to completion: an executor polls the trace again each time
 it returns `NotReady`, and each poll sees the next outcome of the in-flight
 query. Properties of whole runs from `trace()` live here.
 */
module TraceRuns {
  import opened Records
  import opened Authorities
  import opened TraceEngine

  /** Every hook call is immediately followed by the append of the same step. */
  predicate HookThenAppend(effects: seq<Effect>)
    decreases |effects|
  {
    if |effects| == 0 then true
    else
      && |effects| >= 2
      && effects[0].CallHook?
      && effects[1] == AppendStep(effects[0].step)
      && HookThenAppend(effects[2..])
  }

  /** Without a hook, the only effects are appends. */
  predicate AppendsOnly(effects: seq<Effect>)
  {
    forall i :: 0 <= i < |effects| ==> effects[i].AppendStep?
  }

  lemma {:induction false} AppendedConcat(a: seq<Effect>, b: seq<Effect>)
    ensures Appended(a + b) == Appended(a) + Appended(b)
    decreases |a|
  {
    if |a| == 0 {
      assert a + b == b;
    } else {
      assert (a + b)[0] == a[0] && (a + b)[1..] == a[1..] + b;
      AppendedConcat(a[1..], b);
    }
  }

  lemma {:induction false} HookedConcat(a: seq<Effect>, b: seq<Effect>)
    ensures Hooked(a + b) == Hooked(a) + Hooked(b)
    decreases |a|
  {
    if |a| == 0 {
      assert a + b == b;
    } else {
      assert (a + b)[0] == a[0] && (a + b)[1..] == a[1..] + b;
      HookedConcat(a[1..], b);
    }
  }

  lemma {:induction false} HookThenAppendConcat(a: seq<Effect>, b: seq<Effect>)
    requires HookThenAppend(a) && HookThenAppend(b)
    ensures HookThenAppend(a + b)
    decreases |a|
  {
    if |a| == 0 {
      assert a + b == b;
    } else {
      assert (a + b)[2..] == a[2..] + b;
      HookThenAppendConcat(a[2..], b);
    }
  }

  /** When every hook call precedes its append, the hook saw exactly the appended steps. */
  lemma {:induction false} HookThenAppendHooksEveryStep(effects: seq<Effect>)
    requires HookThenAppend(effects)
    ensures Hooked(effects) == Appended(effects)
    decreases |effects|
  {
    if |effects| > 0 {
      var s := effects[0].step;
      assert effects == [CallHook(s), AppendStep(s)] + effects[2..];
      HookedConcat([CallHook(s), AppendStep(s)], effects[2..]);
      AppendedConcat([CallHook(s), AppendStep(s)], effects[2..]);
      assert [CallHook(s), AppendStep(s)][1..] == [AppendStep(s)];
      assert [AppendStep(s)][1..] == [];
      HookThenAppendHooksEveryStep(effects[2..]);
    }
  }

  lemma {:induction false} AppendsOnlyHooksNothing(effects: seq<Effect>)
    requires AppendsOnly(effects)
    ensures Hooked(effects) == []
    decreases |effects|
  {
    if |effects| > 0 {
      assert AppendsOnly(effects[1..]) by {
        forall i | 0 <= i < |effects[1..]|
          ensures effects[1..][i].AppendStep?
        {
          assert effects[1..][i] == effects[i + 1];
        }
      }
      AppendsOnlyHooksNothing(effects[1..]);
    }
  }

  /** The effects a trace produces with (`hook`) or without a progress hook. */
  predicate HookDiscipline(effects: seq<Effect>, hook: bool)
  {
    if hook then HookThenAppend(effects) else AppendsOnly(effects)
  }

  lemma HookDisciplineConcat(a: seq<Effect>, b: seq<Effect>, hook: bool)
    requires HookDiscipline(a, hook) && HookDiscipline(b, hook)
    ensures HookDiscipline(a + b, hook)
  {
    if hook {
      HookThenAppendConcat(a, b);
    } else {
      forall i | 0 <= i < |a + b|
        ensures (a + b)[i].AppendStep?
      {
        if i >= |a| {
          assert (a + b)[i] == b[i - |a|];
        }
      }
    }
  }

  lemma HookDisciplineHooks(effects: seq<Effect>, hook: bool)
    requires HookDiscipline(effects, hook)
    ensures hook ==> Hooked(effects) == Appended(effects)
    ensures !hook ==> Hooked(effects) == []
  {
    if hook {
      HookThenAppendHooksEveryStep(effects);
    } else {
      AppendsOnlyHooksNothing(effects);
    }
  }

  /** The effects of one poll keep the hook discipline of the trace. */
  lemma PollEffects(t: DnsTrace, io: QueryPoll)
    ensures HookDiscipline(Poll(t, io).effects, t.hasProgress)
  {
    var e := Poll(t, io).effects;
    if e != [] && t.hasProgress {
      assert e[2..] == [];
    }
  }

  /**
   How a run from a live state may end, returning `poll` and leaving `next`:
   the source's own `unreachable!()` and `unwrap()` are never hit, the
   futures library panics only right after an authority without an address
   failed, a trace not yet done is still live, the log never exceeds the
   ceiling, a trace stopped by the ceiling has exactly the ceiling's number
   of steps, a dead end has no candidates left, and a successful trace ends
   on an answer.
   */
  predicate EndsWell(poll: TracePoll, next: DnsTrace)
  {
    && poll != Panicked
    && (poll.ChainPolledTwice? ==> EndsWithNoAddr(LogAfter(poll, next)))
    && (poll.NotReady? ==> Live(next))
    && |LogAfter(poll, next)| <= MaxSteps
    && (poll.Failed? && poll.error.TooManySteps? ==> |LogAfter(poll, next)| == MaxSteps)
    && (poll.Failed? && poll.error.DeadEnd? ==> next.ns == [])
    && (poll.Ready? ==> |poll.steps| > 0 && IsAnswer(poll.steps[|poll.steps| - 1].result))
  }

  /**
   What a run from the live state `t` that ended in `r` guarantees: it ends
   well, and its log is the starting log followed by every appended step,
   oldest first.
   */
  predicate LiveRunGuarantees(t: DnsTrace, r: PollResult)
  {
    EndsWell(r.poll, r.next) && LogOf(r) == t.steps + Appended(r.effects)
  }

  /**
   What any run from `t` that ended in `r` guarantees: the name and hook are
   kept, the hook discipline holds, and from a live state the guarantees
   above hold.
   */
  predicate RunGuarantees(t: DnsTrace, r: PollResult)
  {
    && r.next.name == t.name && r.next.hasProgress == t.hasProgress
    && HookDiscipline(r.effects, t.hasProgress)
    && (Live(t) ==> LiveRunGuarantees(t, r))
  }

  /** A single poll that ends the trace is a run of its own. */
  lemma PollGuarantees(t: DnsTrace, io: QueryPoll)
    ensures RunGuarantees(t, Poll(t, io))
  {
    PollEffects(t, io);
    if Live(t) {
      PollFromLive(t, io);
    }
  }

  /** A poll `p` of `t` that leaves the trace running, with what it keeps. */
  predicate ContinuesRun(t: DnsTrace, p: PollResult)
  {
    && p.poll.NotReady?
    && p.next.name == t.name && p.next.hasProgress == t.hasProgress
    && HookDiscipline(p.effects, t.hasProgress)
    && (Live(t) ==> Live(p.next) && p.next.steps == t.steps + Appended(p.effects))
  }

  lemma PollContinuesRun(t: DnsTrace, io: QueryPoll)
    requires Poll(t, io).poll.NotReady?
    ensures ContinuesRun(t, Poll(t, io))
  {
    PollEffects(t, io);
    if Live(t) {
      PollFromLive(t, io);
    }
  }

  /** The live guarantees of a run survive one more poll in front of it. */
  lemma ContinuedLiveRunGuarantees(t: DnsTrace, p: PollResult, q: PollResult)
    requires Live(t) && Live(p.next) && p.next.steps == t.steps + Appended(p.effects)
    requires LiveRunGuarantees(p.next, q)
    ensures LiveRunGuarantees(t, PollResult(q.poll, q.next, p.effects + q.effects))
  {
    AppendedConcat(p.effects, q.effects);
    assert LogAfter(q.poll, q.next) == p.next.steps + Appended(q.effects);
  }

  /** A poll that leaves the trace running, followed by a run, is a run. */
  lemma ContinuedRunGuarantees(t: DnsTrace, p: PollResult, q: PollResult)
    requires ContinuesRun(t, p) && RunGuarantees(p.next, q)
    ensures RunGuarantees(t, PollResult(q.poll, q.next, p.effects + q.effects))
  {
    HookDisciplineConcat(p.effects, q.effects, t.hasProgress);
    if Live(t) {
      ContinuedLiveRunGuarantees(t, p, q);
    }
  }

  /**
   Polls `t` once per outcome in `ios` until it is no longer `NotReady`, and
   collects the effects of all polls.
   */
  function Run(t: DnsTrace, ios: seq<QueryPoll>): (r: PollResult)
    ensures RunGuarantees(t, r)
    decreases |ios|
  {
    if |ios| == 0 then PollResult(NotReady, t, [])
    else
      var p := Poll(t, ios[0]);
      if !p.poll.NotReady? then
        PollGuarantees(t, ios[0]);
        assert RunGuarantees(t, p);
        p
      else
        var q := Run(p.next, ios[1..]);
        PollContinuesRun(t, ios[0]);
        ContinuedRunGuarantees(t, p, q);
        var r := PollResult(q.poll, q.next, p.effects + q.effects);
        assert RunGuarantees(t, r);
        r
  }

  /**
   The whole `trace` future driven by an executor: a fresh trace of `qname`
   polled once per outcome in `ios`. It never hits the source's own
   `unreachable!()` or `unwrap()`; the only panic left is the futures
   library's, right after an authority without an address failed. It never
   logs more than the ceiling, succeeds only on an answer, and calls the hook
   exactly once per logged step, in order.
   */
  function TraceRun(qname: Name, hasProgress: bool, ios: seq<QueryPoll>): (r: PollResult)
    ensures r.poll != Panicked
    ensures r.poll.ChainPolledTwice? ==> EndsWithNoAddr(LogOf(r))
    ensures |LogOf(r)| <= MaxSteps
    ensures LogOf(r) == Appended(r.effects)
    ensures r.poll.Failed? && r.poll.error.TooManySteps? ==> |r.poll.error.steps| == MaxSteps
    ensures r.poll.Failed? && r.poll.error.DeadEnd? ==> r.next.ns == []
    ensures r.poll.Ready? ==>
              |r.poll.steps| > 0 && IsAnswer(r.poll.steps[|r.poll.steps| - 1].result)
    ensures r.poll.NotReady? ==> Live(r.next)
    ensures hasProgress ==> Hooked(r.effects) == LogOf(r)
    ensures !hasProgress ==> Hooked(r.effects) == []
  {
    var t := NewTrace(qname, hasProgress);
    NewTraceLive(qname, hasProgress);
    var r := Run(t, ios);
    FromEmptyLog(t, r);
    r
  }

  /** The run guarantees of a run that started with an empty log. */
  lemma FromEmptyLog(t: DnsTrace, r: PollResult)
    requires t.steps == [] && Live(t) && RunGuarantees(t, r)
    ensures r.poll != Panicked
    ensures r.poll.ChainPolledTwice? ==> EndsWithNoAddr(LogOf(r))
    ensures |LogOf(r)| <= MaxSteps
    ensures LogOf(r) == Appended(r.effects)
    ensures r.poll.Failed? && r.poll.error.TooManySteps? ==> |r.poll.error.steps| == MaxSteps
    ensures r.poll.Failed? && r.poll.error.DeadEnd? ==> r.next.ns == []
    ensures r.poll.Ready? ==>
              |r.poll.steps| > 0 && IsAnswer(r.poll.steps[|r.poll.steps| - 1].result)
    ensures r.poll.NotReady? ==> Live(r.next)
    ensures t.hasProgress ==> Hooked(r.effects) == LogOf(r)
    ensures !t.hasProgress ==> Hooked(r.effects) == []
  {
    assert EndsWell(r.poll, r.next) && LogOf(r) == Appended(r.effects);
    HookDisciplineHooks(r.effects, t.hasProgress);
  }

  /** A fresh trace is live: the root hints are there to pop. */
  lemma NewTraceLive(qname: Name, hasProgress: bool)
    ensures Live(NewTrace(qname, hasProgress))
    ensures NewTrace(qname, hasProgress).hasProgress == hasProgress
  {
  }

  /** A run whose first poll ends the trace is that poll. */
  lemma RunStops(t: DnsTrace, ios: seq<QueryPoll>)
    requires |ios| > 0 && !Poll(t, ios[0]).poll.NotReady?
    ensures Run(t, ios) == Poll(t, ios[0])
  {
  }

  /** A run whose first poll leaves the trace running ends as the rest of the run does. */
  lemma RunContinues(t: DnsTrace, ios: seq<QueryPoll>)
    requires |ios| > 0 && Poll(t, ios[0]).poll.NotReady?
    ensures Run(t, ios).poll == Run(Poll(t, ios[0]).next, ios[1..]).poll
  {
  }

  /**
   The first poll of a fresh trace pops the last root hint: it queries
   j.root-servers.net at 192.58.128.30 and leaves the other nine hints.
   */
  lemma FirstPollQueriesJRoot(qname: Name, hasProgress: bool, io: QueryPoll)
    ensures Poll(NewTrace(qname, hasProgress), io).next.current == Some(JRoot)
    ensures Poll(NewTrace(qname, hasProgress), io).effects != [] ==>
              Appended(Poll(NewTrace(qname, hasProgress), io).effects)[0].source == JRoot
  {
  }

  /**
   After a step that failed with a client error, the failed query stays in
   flight: the next poll pops nothing and polls that same query again, as a
   query that has already been polled, for the same authority.
   */
  lemma ErrorKeepsQueryInFlight(t: DnsTrace, io: QueryPoll, io': QueryPoll)
    requires Live(t)
    requires Poll(t, io).poll.NotReady? && Poll(t, io).effects != []
    requires Appended(Poll(t, io).effects)[0].result.Err?
    ensures Poll(t, io).next.pending == Some(Lookup(Appended(Poll(t, io).effects)[0].source, t.name))
    ensures Poll(t, io).next.ns == Advance(t).ns
    ensures Advance(Poll(t, io).next) == Poll(t, io).next
    ensures Completion(Poll(t, io).next, io') == PollQuery(Poll(t, io).next.pending.value, false, io')
    ensures Poll(Poll(t, io).next, io').next.current == Poll(t, io).next.current
    ensures Poll(Poll(t, io).next, io').effects != [] ==>
              Appended(Poll(Poll(t, io).next, io').effects)[0].source
              == Appended(Poll(t, io).effects)[0].source
  {
  }

  /**
   Popping an authority without an address, when the trace goes on, leaves
   its finished fail-fast query in flight, so the next poll panics in the
   futures library whatever the network does.
   */
  lemma NoAddrThenChainPolledTwice(t: DnsTrace, io: QueryPoll, io': QueryPoll)
    requires Live(t) && t.pending.None? && t.ns[|t.ns| - 1].addr.None?
    requires Poll(t, io).poll.NotReady?
    ensures Poll(Poll(t, io).next, io').poll == ChainPolledTwice
  {
  }

  /** The referral of the scenario below: x and y, no glue. */
  function GluelessReferral(x: Name, y: Name): Response
  {
    Response(NoError, [], [Record("", NS(x)), Record("", NS(y))], [])
  }

  /** The referral names x then y, neither with an address. */
  lemma GluelessReferralNs(x: Name, y: Name)
    ensures DnsResponseToNs(GluelessReferral(x, y)) == [Authority(x, None), Authority(y, None)]
  {
    NsToAuthoritiesSingle(Record("", NS(x)), []);
    NsToAuthoritiesSingle(Record("", NS(y)), []);
    NsToAuthoritiesAppend([Record("", NS(x))], [Record("", NS(y))], []);
    assert [Record("", NS(x))] + [Record("", NS(y))] == GluelessReferral(x, y).nameServers;
  }

  /** The first poll follows the referral: both authorities, neither with an address. */
  lemma GluelessReferralFirstPoll(qname: Name, hasProgress: bool, x: Name, y: Name)
    ensures Poll(NewTrace(qname, hasProgress), Answered(GluelessReferral(x, y))).poll.NotReady?
    ensures Live(Poll(NewTrace(qname, hasProgress), Answered(GluelessReferral(x, y))).next)
    ensures Poll(NewTrace(qname, hasProgress), Answered(GluelessReferral(x, y))).next.pending.None?
    ensures Poll(NewTrace(qname, hasProgress), Answered(GluelessReferral(x, y))).next.ns
         == [Authority(x, None), Authority(y, None)]
    ensures |Poll(NewTrace(qname, hasProgress), Answered(GluelessReferral(x, y))).next.steps| == 1
  {
    GluelessReferralNs(x, y);
    NewTraceLive(qname, hasProgress);
  }

  /** With x still a candidate, the failure of the address-less y does not end the trace. */
  lemma GluelessReferralSecondPoll(t: DnsTrace, x: Name, y: Name, io: QueryPoll)
    requires Live(t) && t.pending.None? && t.ns == [Authority(x, None), Authority(y, None)]
    requires |t.steps| + 1 < MaxSteps
    ensures Poll(t, io).poll.NotReady?
  {
  }

  /**
   A referral to x and y with no glue: y is popped first, fails for want of
   an address, and since x is still a candidate the trace goes on; the third
   poll re-polls the finished fail-fast query and panics.
   */
  lemma GluelessReferralPanics(qname: Name, hasProgress: bool, x: Name, y: Name, io: QueryPoll, io': QueryPoll)
    ensures TraceRun(qname, hasProgress, [Answered(GluelessReferral(x, y)), io, io']).poll == ChainPolledTwice
  {
    var t := NewTrace(qname, hasProgress);
    var ios := [Answered(GluelessReferral(x, y)), io, io'];
    GluelessReferralFirstPoll(qname, hasProgress, x, y);
    var p1 := Poll(t, ios[0]);
    GluelessReferralSecondPoll(p1.next, x, y, io);
    NoAddrThenChainPolledTwice(p1.next, io, io');
    var p2 := Poll(p1.next, io);
    assert ios[1..] == [io, io'] && ios[1..][1..] == [io'];
    RunStops(p2.next, [io']);
    RunContinues(p1.next, [io, io']);
    RunContinues(t, ios);
  }

  /**
   If the first root server queried answers at once, the trace succeeds on
   the first poll with a log of exactly that one step.
   */
  lemma DirectAnswerIsOneStep(qname: Name, hasProgress: bool, res: Response)
    requires res.rcode == NoError && res.AnswerCount() > 0
    ensures Poll(NewTrace(qname, hasProgress), Answered(res)).poll == Ready([Step(JRoot, Ok(res))])
  {
  }
}
