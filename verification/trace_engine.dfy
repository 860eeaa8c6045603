/**
 The trace engine: a state holding the candidate stack, the step log, the
 authority being queried and the in-flight query, advanced one poll at a
 time. What polling the in-flight query yields is an input of each poll.
 */
module TraceEngine {
  import opened Records
  import opened Authorities

  /** The ceiling on the number of steps a trace logs. */
  const MaxSteps: nat := 20

  /** One query attempt: the authority asked and what came back. */
  datatype Step = Step(source: Authority, result: Result<Response, ClientError>)

  datatype TraceError = DeadEnd(steps: seq<Step>) | TooManySteps(steps: seq<Step>)

  /**
   What one poll of the trace returns. `Panicked` stands for the source's own
   `unreachable!()` (nothing in flight) and `unwrap()` (no current authority).
   `ChainPolledTwice` stands for the panic of the futures library ("cannot
   poll a chained future twice") when the fail-fast query, which already
   completed with its error, is polled again.
   */
  datatype TracePoll =
    | NotReady
    | Ready(steps: seq<Step>)
    | Failed(error: TraceError)
    | Panicked
    | ChainPolledTwice

  /** What one poll of the in-flight query yields. */
  datatype QueryPoll =
    | Pending
    | Answered(response: Response)
    | Errored(error: ClientError)

  /** What the in-flight query does on one poll of the trace. */
  datatype QueryStep =
    | NotDone
    | Done(result: Result<Response, ClientError>)
    | PolledTwice

  /** The observable effects of a poll, in the order they happen. */
  datatype Effect = CallHook(step: Step) | AppendStep(step: Step)

  /**
   The trace state. `hasProgress` says whether a progress hook was supplied;
   `pending` is the in-flight query, absent when a new candidate must be
   popped on the next poll.
   */
  datatype DnsTrace = DnsTrace(
    name: Name,
    hasProgress: bool,
    ns: seq<Authority>,
    steps: seq<Step>,
    current: Option<Authority>,
    pending: Option<Query>)

  datatype PollResult = PollResult(poll: TracePoll, next: DnsTrace, effects: seq<Effect>)

  /** A fresh trace of `qname`, seeded with the root hints. */
  function NewTrace(qname: Name, hasProgress: bool): (t: DnsTrace)
    ensures t.ns == RootHints() && |t.ns| == 10
    ensures t.steps == [] && t.current.None? && t.pending.None?
    ensures t.name == qname && t.hasProgress == hasProgress
  {
    DnsTrace(qname, hasProgress, RootHints(), [], None, None)
  }

  /**
   Pops the last candidate (stack discipline) and starts its query. With no
   candidate left, nothing is queried and nothing is pending.
   */
  function PromoteLookup(t: DnsTrace): (u: DnsTrace)
    ensures |t.ns| > 0 ==>
              && u.current == Some(t.ns[|t.ns| - 1])
              && u.ns + [t.ns[|t.ns| - 1]] == t.ns
              && u.pending == Some(Lookup(t.ns[|t.ns| - 1], t.name))
    ensures |t.ns| == 0 ==> u.ns == [] && u.current.None? && u.pending.None?
    ensures u.name == t.name && u.hasProgress == t.hasProgress && u.steps == t.steps
  {
    if |t.ns| == 0 then t.(current := None, pending := None)
    else
      var last := t.ns[|t.ns| - 1];
      t.(ns := t.ns[..|t.ns| - 1], current := Some(last), pending := Some(Lookup(last, t.name)))
  }

  /**
   Polls the in-flight query. A fail-fast query completes with its error on
   the poll that starts it, whatever the network does, and any later poll of
   it is a poll of a finished chain, on which the futures library panics. A
   UDP query yields what the client library reports, the input `io`.
   */
  function PollQuery(q: Query, justStarted: bool, io: QueryPoll): (r: QueryStep)
    ensures q.FailFast? ==> (justStarted <==> r == Done(Err(q.error)))
    ensures q.FailFast? ==> (!justStarted <==> r.PolledTwice?)
    ensures q.UdpQuery? ==> !r.PolledTwice?
    ensures q.UdpQuery? ==> (r.NotDone? <==> io.Pending?)
    ensures q.UdpQuery? && io.Answered? ==> r == Done(Ok(io.response))
    ensures q.UdpQuery? && io.Errored? ==> r == Done(Err(io.error))
  {
    match q
    case FailFast(e) => if justStarted then Done(Err(e)) else PolledTwice
    case UdpQuery(_, _) =>
      match io
      case Pending => NotDone
      case Answered(res) => Done(Ok(res))
      case Errored(e) => Done(Err(e))
  }

  /** The response ends the trace with an answer. */
  predicate IsAnswer(result: Result<Response, ClientError>)
  {
    result.Ok? && result.value.rcode == NoError && result.value.AnswerCount() > 0
  }

  /** The response is a referral: the candidate stack is replaced. */
  predicate IsReferral(result: Result<Response, ClientError>)
  {
    && result.Ok? && result.value.rcode == NoError
    && result.value.AnswerCount() == 0 && result.value.NameServerCount() > 0
  }

  /** The step an effect appends, if it is an append. */
  function AppendedBy(e: Effect): seq<Step>
  {
    if e.AppendStep? then [e.step] else []
  }

  /** The step an effect hands the hook, if it is a hook call. */
  function HookedBy(e: Effect): seq<Step>
  {
    if e.CallHook? then [e.step] else []
  }

  /** Steps whose `AppendStep` effect occurs in `effects`, in order. */
  function Appended(effects: seq<Effect>): seq<Step>
  {
    if |effects| == 0 then [] else AppendedBy(effects[0]) + Appended(effects[1..])
  }

  /** Steps the progress hook was called with, in order. */
  function Hooked(effects: seq<Effect>): seq<Step>
  {
    if |effects| == 0 then [] else HookedBy(effects[0]) + Hooked(effects[1..])
  }

  /** The step log a poll leaves: the one returned, or the one kept. */
  function LogOf(r: PollResult): seq<Step>
  {
    LogAfter(r.poll, r.next)
  }

  /** The step log a poll that returned `poll` and left `next` leaves. */
  function LogAfter(poll: TracePoll, next: DnsTrace): seq<Step>
  {
    match poll
    case Ready(steps) => steps
    case Failed(e) => e.steps
    case _ => next.steps
  }

  /**
   The effects of completing `step`: the hook call, when a hook is present,
   then the append. The step is appended once and hooked at most once.
   */
  function StepEffects(hook: bool, step: Step): (e: seq<Effect>)
    ensures hook ==> e == [CallHook(step), AppendStep(step)]
    ensures !hook ==> e == [AppendStep(step)]
    ensures Appended(e) == [step]
    ensures Hooked(e) == (if hook then [step] else [])
  {
    var tail := [AppendStep(step)];
    assert tail[1..] == [];
    assert Appended(tail) == [step] && Hooked(tail) == [];
    if hook then
      assert ([CallHook(step)] + tail)[1..] == tail;
      [CallHook(step)] + tail
    else tail
  }

  /**
   How a poll that logged `log` ends: success on an answer, then a dead end
   when no candidate is left, then the step ceiling, else not ready yet.
   */
  function Verdict(answered: bool, ns: seq<Authority>, log: seq<Step>): (v: TracePoll)
    ensures v.Ready? <==> answered
    ensures v.Failed? && v.error.DeadEnd? <==> !answered && |ns| == 0
    ensures v.Failed? && v.error.TooManySteps? <==> !answered && |ns| > 0 && |log| >= MaxSteps
    ensures v.NotReady? <==> !answered && |ns| > 0 && |log| < MaxSteps
    ensures v.Ready? ==> v.steps == log
    ensures v.Failed? ==> v.error.steps == log
  {
    if answered then Ready(log)
    else if |ns| == 0 then Failed(DeadEnd(log))
    else if |log| >= MaxSteps then Failed(TooManySteps(log))
    else NotReady
  }

  /**
   The second half of a poll, once the in-flight query has completed with
   `result` for `source`: build the step, classify it, call the hook, append
   the step and decide whether the trace ends.
   */
  function Complete(u: DnsTrace, source: Authority, result: Result<Response, ClientError>): (r: PollResult)
    // exactly one step is appended, preceded by at most one hook call with it
    ensures u.hasProgress ==> r.effects == [CallHook(Step(source, result)), AppendStep(Step(source, result))]
    ensures !u.hasProgress ==> r.effects == [AppendStep(Step(source, result))]
    ensures Appended(r.effects) == [Step(source, result)]
    ensures Hooked(r.effects) == (if u.hasProgress then [Step(source, result)] else [])
    // the trace succeeds exactly on an answer, returning the whole log
    ensures r.poll.Ready? <==> IsAnswer(result)
    ensures r.poll.Ready? ==> r.poll.steps == u.steps + [Step(source, result)]
    // the candidates are replaced on a referral and kept otherwise
    ensures IsReferral(result) ==> r.next.ns == DnsResponseToNs(result.value)
    ensures !IsReferral(result) ==> r.next.ns == u.ns
    // the in-flight query is dropped only on a response
    ensures result.Ok? ==> r.next.pending.None?
    ensures result.Err? ==> r.next.pending == u.pending
    // dead end is checked before the step ceiling
    ensures r.poll.Failed? && r.poll.error.DeadEnd?
        <==> !IsAnswer(result) && |r.next.ns| == 0
    ensures r.poll.Failed? && r.poll.error.TooManySteps?
        <==> !IsAnswer(result) && |r.next.ns| > 0 && |u.steps| + 1 >= MaxSteps
    ensures r.poll.NotReady? <==> !IsAnswer(result) && |r.next.ns| > 0 && |u.steps| + 1 < MaxSteps
    ensures r.poll != Panicked && r.poll != ChainPolledTwice
    ensures LogOf(r) == u.steps + [Step(source, result)]
    ensures r.poll.NotReady? ==> r.next.steps == u.steps + [Step(source, result)]
    ensures !r.poll.NotReady? ==> r.next.steps == []
    ensures r.next.current == u.current && r.next.name == u.name
    ensures r.next.hasProgress == u.hasProgress
  {
    var step := Step(source, result);
    var ns := if IsReferral(result) then DnsResponseToNs(result.value) else u.ns;
    var pending := if result.Ok? then None else u.pending;
    var log := u.steps + [step];
    var poll := Verdict(IsAnswer(result), ns, log);
    var steps := if poll.NotReady? then log else [];
    PollResult(poll, u.(ns := ns, pending := pending, steps := steps), StepEffects(u.hasProgress, step))
  }

  /**
   The states `poll` may be called in: a candidate is left to pop whenever
   nothing is in flight, an in-flight query is the lookup of the current
   authority, a fail-fast query in flight has already logged its error, and
   the log is below the ceiling.
   */
  predicate Live(t: DnsTrace)
  {
    && (t.pending.None? ==> |t.ns| > 0)
    && (t.pending.Some? ==> t.current.Some? && t.pending.value == Lookup(t.current.value, t.name))
    && (t.pending.Some? && t.pending.value.FailFast? ==> EndsWithNoAddr(t.steps))
    && |t.steps| < MaxSteps
  }

  /** The last step of `log` is the "no addr for authority" error of an authority without an address. */
  predicate EndsWithNoAddr(log: seq<Step>)
  {
    && |log| > 0
    && log[|log| - 1].source.addr.None?
    && log[|log| - 1].result == Err(NoAddrForAuthority)
  }

  /** The state once a poll has popped a candidate, if nothing was in flight. */
  function Advance(t: DnsTrace): DnsTrace
  {
    if t.pending.None? then PromoteLookup(t) else t
  }

  /** The authority a poll of `t` queries: freshly popped, or the current one. */
  function Queried(t: DnsTrace): Option<Authority>
  {
    if t.pending.Some? then t.current
    else if |t.ns| > 0 then Some(t.ns[|t.ns| - 1])
    else None
  }

  /**
   What the query a poll of `t` polls does when the client library reports
   `io`; `NotDone` as well when nothing is in flight.
   */
  function Completion(t: DnsTrace, io: QueryPoll): QueryStep
  {
    var u := Advance(t);
    if u.pending.None? then NotDone
    else PollQuery(u.pending.value, t.pending.None?, io)
  }

  /**
   One poll of the trace. With nothing in flight, a candidate is popped and
   its query started; the query is then polled once. If it has not completed,
   the poll returns `NotReady` and nothing else happens; otherwise the step is
   completed by `Complete`.
   */
  function Poll(t: DnsTrace, io: QueryPoll): (r: PollResult)
    // with a query in flight, no candidate is popped
    ensures t.pending.Some? ==> r.next.current == t.current
    // an authority without an address fails at once, whatever the network does
    ensures t.pending.None? && |t.ns| > 0 && t.ns[|t.ns| - 1].addr.None? ==>
              Completion(t, io) == Done(Err(NoAddrForAuthority))
    // a poll that completes nothing changes nothing but the pop
    ensures Completion(t, io).NotDone? ==>
              r.effects == [] && r.next == Advance(t) && (r.poll.NotReady? || r.poll.Panicked?)
    // re-polling a fail-fast query that is still in flight panics in the futures library
    ensures r.poll.ChainPolledTwice? <==> t.pending.Some? && t.pending.value.FailFast?
    ensures r.poll.ChainPolledTwice? ==> r.effects == [] && r.next == t
    ensures r.next.name == t.name && r.next.hasProgress == t.hasProgress
  {
    var u := Advance(t);
    match Completion(t, io)
    case NotDone => PollResult(if u.pending.None? then Panicked else NotReady, u, [])
    case PolledTwice => PollResult(ChainPolledTwice, u, [])
    case Done(result) =>
      if u.current.None? then PollResult(Panicked, u, [])
      else Complete(u, u.current.value, result)
  }

  /**
   A poll of a live state: a completed query finishes the step of the
   queried authority, the source's own `unreachable!()` and `unwrap()` are
   never hit, the library panic comes only right after an authority without
   an address failed, the state stays live while the trace goes on, and the
   log never exceeds the ceiling, which a trace stopped by it hits exactly.
   */
  lemma PollFromLive(t: DnsTrace, io: QueryPoll)
    requires Live(t)
    ensures Completion(t, io).Done? ==>
              Poll(t, io) == Complete(Advance(t), Queried(t).value, Completion(t, io).result)
    ensures Poll(t, io).poll != Panicked
    ensures Poll(t, io).poll.ChainPolledTwice? ==> EndsWithNoAddr(LogOf(Poll(t, io)))
    ensures Poll(t, io).poll.NotReady? ==> Live(Poll(t, io).next)
    ensures |LogOf(Poll(t, io))| <= MaxSteps
    ensures Poll(t, io).poll.Failed? && Poll(t, io).poll.error.TooManySteps? ==>
              |LogOf(Poll(t, io))| == MaxSteps
  {
    match Completion(t, io)
    case NotDone =>
    case PolledTwice =>
    case Done(result) =>
      CompleteKeepsLive(t, result);
  }

  /**
   Completing the query of a live state leaves a live state when the trace
   goes on, and keeps the log within the ceiling. A fail-fast query completes
   only with its "no addr for authority" error.
   */
  lemma CompleteKeepsLive(t: DnsTrace, result: Result<Response, ClientError>)
    requires Live(t) && Advance(t).pending.Some?
    requires Advance(t).pending.value.FailFast? ==> result == Err(NoAddrForAuthority)
    ensures Advance(t).current.Some?
    ensures var r := Complete(Advance(t), Advance(t).current.value, result);
      && (r.poll.NotReady? ==> Live(r.next))
      && |LogOf(r)| <= MaxSteps
      && (r.poll.Failed? && r.poll.error.TooManySteps? ==> |LogOf(r)| == MaxSteps)
  {
  }

  /**
   A response with "no error", no answers and a non-empty name-server
   section holding no NS record (an SOA only, say) empties the candidate
   list, and the trace ends in a dead end.
   */
  lemma EmptyReferralIsDeadEnd(u: DnsTrace, source: Authority, res: Response)
    requires res.rcode == NoError && res.AnswerCount() == 0 && res.NameServerCount() > 0
    requires forall i :: 0 <= i < |res.nameServers| ==> !res.nameServers[i].rdata.NS?
    ensures Complete(u, source, Ok(res)).next.ns == []
    ensures Complete(u, source, Ok(res)).poll == Failed(DeadEnd(u.steps + [Step(source, Ok(res))]))
  {
  }

  /**
   Querying an authority without an address makes no network call: the
   poll that pops it ends the same whatever the network would have said.
   */
  lemma NoAddrIgnoresNetwork(t: DnsTrace, io: QueryPoll, io': QueryPoll)
    requires t.pending.None? && |t.ns| > 0 && t.ns[|t.ns| - 1].addr.None?
    ensures Poll(t, io) == Poll(t, io')
    ensures Appended(Poll(t, io).effects) == [Step(t.ns[|t.ns| - 1], Err(NoAddrForAuthority))]
  {
  }
}
