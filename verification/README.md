# dns-trace: iterative resolution engine, modelled in Dafny

`dns-trace` walks the DNS tree by hand. It starts at the ten root servers,
asks one name server at a time for the A record of a name, and follows
referrals until an answer arrives. It fails when the candidates run out
(`DeadEnd`) or after 20 steps (`TooManySteps`). This project models the
engine in `src/dns_trace.rs` as immutable datatypes and pure functions, and
proves properties of that model:

- `Records` holds the values the DNS client library hands the engine. These
  are names (opaque strings), socket addresses, records whose data is
  `A | AAAA | NS(name) | Other`, and responses with a response code and
  answer, name-server and additional sections. It also holds the client's
  errors.
- `Authorities` holds the name-server candidate (`Authority`) and the fixed
  root-hint table. It has `Lookup`, which builds the in-flight query, and the
  glue search `FindSocketAddrForName`. It also has the referral extraction
  `DnsResponseToNs`.
- `TraceEngine` holds the trace state: the candidate stack `ns`, the step log,
  the `current` authority and the in-flight query `pending`. It models
  `promote_lookup` and one call of `poll`. `Poll` is split at the suspension
  point: `PollQuery` polls the in-flight query, and `Complete` does the rest
  of the poll once the query has finished.
- `TraceRuns` drives the trace the way an executor does. It polls again after
  every `NotReady` and proves properties of whole runs that start from
  `trace()`.

The asynchronous plumbing is abstracted as follows. `Lookup` returns a
`Query` value: `FailFast(NoAddrForAuthority)` for an authority without an
address (the `err(..).and_then(..)` chain of lines 150-162), and otherwise a
UDP query of class IN and type A for the target name. Each poll takes one
input, a `QueryPoll`: `Pending`, `Answered(response)` or `Errored(error)`. It
stands for what the client library reports when the UDP query is polled this
time. The fail-fast query never consults it: on the poll that creates it, it
completes with the "no addr for authority" error, and any later poll of it is
a poll of a finished `and_then` chain, on which the futures library panics
("cannot poll a chained future twice"). That panic is the poll result
`ChainPolledTwice`.

The source's own `unreachable!()` (line 231) and `current.unwrap()` (line 243)
are modelled as a separate `Panicked` poll result. The predicate `Live` holds
of the fresh trace and is kept by every poll that returns `NotReady`. It says
that a candidate is left whenever nothing is in flight, that an in-flight
query is the lookup of the current authority, that an in-flight fail-fast
query has already logged its error, and that the log is below 20 steps. So no
run from `trace()` reaches the `unreachable!()` at line 231 or the `unwrap()`
at line 243. It can reach the futures library's panic, though.

`pending` is cleared only when the query returned a response (line 251).
After a client error the state keeps the finished query, so the next poll
re-polls the failed authority's query instead of trying a new candidate
(lines 220-222 and 250-251, `ErrorKeepsQueryInFlight`). For an authority
without an address that re-poll is the library panic: when such an authority
fails and candidates remain, the very next poll panics
(`NoAddrThenChainPolledTwice`). A referral naming two name servers without
glue is enough to get there from `trace()` (`GluelessReferralPanics`).

## Model

| member | source | states |
|---|---|---|
| Authorities.RootHints | src/dns_trace.rs:82-145 | Exactly ten hints named a. through j.root-servers.net in that order, each with an IPv4 address on port 53; the last is j.root-servers.net at 192.58.128.30 |
| Authorities.Lookup | src/dns_trace.rs:147-163 | An authority without an address yields the fail-fast "no addr for authority" query and no UDP query; otherwise an A query for the target name goes to the authority's address |
| Authorities.FindSocketAddrForName | src/dns_trace.rs:166-177 | The result is absent iff no record is an A or AAAA record owned by the query name; otherwise it is the address of the first such record in scan order, on port 53, so owner matches with other data are skipped |
| Authorities.NsToAuthorities | src/dns_trace.rs:179-193 | The next generation read from the name-server and additional sections: at most one candidate per name-server record; each is named by the target of some NS record and carries that target's glue address; the list is empty iff the section holds no NS record |
| Authorities.NsToAuthoritiesAppend | src/dns_trace.rs:183-192 | Extraction preserves order: the candidates of two concatenated sections are the candidates of the first followed by those of the second |
| Authorities.NsToAuthoritiesSingle | src/dns_trace.rs:185-191 | One NS record yields exactly one candidate named by its target with its glue; a non-NS record yields none |
| Authorities.NsToAuthoritiesNames | src/dns_trace.rs:183-192 | The candidates' names, in order, are exactly the targets of the section's NS records in section order, as an independent reference list defines them; non-NS records contribute nothing |
| Authorities.GlueOnlyForFirstDelegation | src/dns_trace.rs:186-189 | Delegations to X and Y with glue only for X yield X with its address and then Y with no address |
| TraceEngine.NewTrace | src/dns_trace.rs:284-296 | A new trace starts with the ten root hints as candidates, an empty log, no current authority and nothing in flight |
| TraceEngine.PromoteLookup | src/dns_trace.rs:206-213 | Pops the last candidate, makes it current and starts its lookup; with no candidate nothing is current or pending |
| TraceEngine.PollQuery | src/dns_trace.rs:229-239 | A fail-fast query completes with its own error exactly on the poll that started it and panics in the futures library on any later poll; a UDP query is not ready exactly when the library says so, and otherwise yields the library's response or error |
| TraceEngine.Complete | src/dns_trace.rs:242-280 | Exactly one step is appended, preceded by one hook call iff a hook is present. The trace succeeds iff the result is Ok with code 0 and at least one answer, returning the whole log. When the result is Ok with code 0, no answers and a non-empty name-server section, the candidates are replaced by the extraction; otherwise they are kept. The pending query is dropped iff the result is Ok. An empty candidate list gives DeadEnd before the ceiling is checked, then 20 steps give TooManySteps |
| TraceEngine.Poll | src/dns_trace.rs:220-281 | With a query in flight nothing is popped; a popped authority without an address completes with the "no addr" error; a query not ready changes nothing but the pop. The poll panics in the futures library exactly when the in-flight query is a fail-fast one, and then changes nothing |
| TraceEngine.PollFromLive | src/dns_trace.rs:220-281 | From a live state a completed poll finishes the step of the queried authority; the `unreachable!()` at line 231 and the `unwrap()` at line 243 are never reached; the library panic comes only right after an address-less authority logged its error; the state stays live while running; the log never exceeds 20 steps and TooManySteps carries exactly 20 |
| TraceEngine.CompleteKeepsLive | src/dns_trace.rs:242-280 | Completing the in-flight query of a live state keeps the state live when the trace goes on and keeps the log within 20 steps, reaching 20 exactly on TooManySteps |
| TraceEngine.EmptyReferralIsDeadEnd | src/dns_trace.rs:252-273 | A no-error, answerless response whose name-server section holds no NS record empties the candidate list and ends the trace with DeadEnd |
| TraceEngine.NoAddrIgnoresNetwork | src/dns_trace.rs:150-152 | Popping an authority without an address logs the "no addr for authority" error, and the poll's result does not depend on the network |
| TraceRuns.Run | src/dns_trace.rs:220-281 | Over repeated polls from a live state: the `unreachable!()` at line 231 and the `unwrap()` at line 243 are never reached, the futures library panics only right after an address-less authority logged its error, the log is the starting log plus every appended step in order, at most 20 steps, TooManySteps with exactly 20, DeadEnd with no candidates, success ending on an answer step, and each hook call immediately before the append of the same step |
| TraceRuns.TraceRun | src/dns_trace.rs:284-296 | From trace(): never reaches the `unreachable!()` at line 231 or the `unwrap()` at line 243, panics in the futures library only right after an address-less authority logged its error, log at most 20 steps, success ends on an answer, and with a hook the hook sees exactly the logged steps in order |
| TraceRuns.HookThenAppendHooksEveryStep | src/dns_trace.rs:261-265 | When every hook call precedes the append of its step, the hooked steps are exactly the appended steps |
| TraceRuns.FirstPollQueriesJRoot | src/dns_trace.rs:206-208 | The first poll of a new trace pops j.root-servers.net at 192.58.128.30 and logs it as its source |
| TraceRuns.ErrorKeepsQueryInFlight | src/dns_trace.rs:248-251 | After a step ending in a client error, the lookup of the failed authority stays in flight and the candidates are untouched; the next poll pops nothing, re-polls that same query as an already-polled one, and logs the same authority |
| TraceRuns.NoAddrThenChainPolledTwice | src/dns_trace.rs:147-163 | When a popped authority without an address fails and the trace goes on, the next poll re-polls the finished fail-fast chain and panics, whatever the network does |
| TraceRuns.GluelessReferralPanics | src/dns_trace.rs:179-193 | From trace(): a no-error referral to two name servers without glue, then any two network outcomes, ends in the futures library's panic on the third poll |
| TraceRuns.DirectAnswerIsOneStep | src/dns_trace.rs:248-269 | If the first root server queried answers with code 0 and an answer, the trace succeeds with a one-step log |

## Left out

- Elapsed time (`start`, `Step::elapsed`) is not modelled, because it is wall-clock time with no effect on control flow.
- The `Display` impls of `Step` and `Authority` are not modelled. They depend on the client library's rendering of names, addresses, durations and errors.
- The UDP transport, `ClientFuture`, `tokio::spawn` and DNS wire encoding are replaced by the `Query` value and the `QueryPoll` input.
- Task wake-ups are not modelled. `Run` assumes the executor polls again after every `NotReady`, including the `NotReady` returned after a completed step.
- TraceEngine.PollQuery: a UDP query polled again after it failed delegates to the client library's response future, whose behaviour on that poll is not part of this repository, so the model takes it from the `QueryPoll` input. The fail-fast query's panic on a second poll is the behaviour of the `and_then` combinator of futures 0.1, which is not part of this repository either.
- TraceEngine.Poll: after a UDP query failed, the next poll's outcome is the unconstrained `QueryPoll` input, so the model allows a response or an error there where the client library might panic.
- TraceRuns.Run: the same unconstrained re-poll of a failed UDP query applies to every poll of a run; the run guarantees hold whatever the library reports there.
- TraceRuns.TraceRun: the same holds for runs from `trace()`; the model promises nothing about a panic inside the client library's own response future.
- A response's answer and name-server counts are taken to be the lengths of the decoded sections, and the response code is a plain number compared with 0.
- Client errors other than "no addr for authority" are folded into one `ClientFailure` value, because the engine never inspects them.
- Name parsing and case-insensitive name comparison are left out. Names are opaque strings compared by equality, and root-hint names are built as the letter followed by ".root-servers.net.".
- `src/lookup.rs` and `src/timed.rs` are left out, because they are not compiled into the program. `src/main.rs` (argument parsing and the runtime entry point) is left out as well; the hook it installs prints each step.
