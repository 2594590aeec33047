# A verified model of NHI-Sentinel's governance pipeline

NHI-Sentinel governs the machine identities of autonomous agents. Every tool call of an agent passes
a policy enforcement point; every decision becomes a hash-chained audit event; an anomaly service
suspends identities that misbehave; sensitive actions wait in an approval queue. This project models
those parts in Dafny and proves what they keep over whole runs.

| file | models |
|---|---|
| `Text.dfy`, `AuditSchema.dfy` | the audit event, its canonical JSON text, and decoders for it |
| `HashChain.dfy`, `Subsequence.dfy` | chain verification: what it detects and what it does not |
| `AuditProducer.dfy` | publishing with send failures and the in-memory fallback |
| `AuditStore.dfy`, `Restarts.dfy` | the consumer, the append-only table, the chain query and its endpoint |
| `ScopeCheck.dfy`, `RateLimit.dfy`, `RegoPolicy.dfy` | the tool catalogue and the Rego policy bundle 2.0.0 |
| `Pep.dfy`, `AgentRuns.dfy` | the enforcement point and the agent graph |
| `ApprovalQueue.dfy` | the Redis approval queue with lifetimes |
| `Anomaly.dfy`, `IdentityApi.dfy`, `TokenCache.dfy` | burst and score accounting, suspension ledger, token cache |
| `Sentinel.dfy`, `ClosedLoop.dfy` | results that span the services |

`dafny verify dfyconfig.toml` checks everything.

## How to read it

Objects that the program updates in place are classes; each of their methods is tied by its contract
to a function on values, and the results about runs are lemmas about those functions. What lies
outside is a parameter: the hash function is arbitrary (SHA-256 of FIPS 180-4 in the program), OPA,
Cedar, the token endpoint, the fitted model and the tool handlers answer as they please, sends and
Redis commands may fail wherever the code looks at failures. The results therefore hold for every
behaviour of these parts. Tamper evidence is a reduction: it names the two colliding events. "No
collision" and "no event hashes to GENESIS" appear as premises only where they are needed.

Each approval-queue operation, each request's group of Redis commands and each event or `/score` call
of the anomaly service is one atomic step, on one clock. For the queue, `BothResolvesSucceedIff`,
`SlowResolveIff` and `ListRaceIff` tell what two simultaneous resolutions, one slow resolution and one
slow listing do without that. Strings are sequences of Unicode scalar values, as Pydantic admits them;
arguments, dictionary keys, token addresses and error messages may be something else, and are marked.

## Where code and documentation differ

The model follows the code.

- Chain verification promises to find any tampering. A log rewritten from any event on and sealed
  again verifies (`ResealedLogVerifies`; `VerifiedIffRepublished` is the exact form), and it sees
  neither the fields outside the hash (`DetailsAreUnprotected`, `RewrittenDenialVerifies`) nor the loss
  of a prefix or suffix. It reports an honest log as broken after a restart of the agent
  (`RestartBreaksVerification`, `RestartVerdictIff`) or a step back of its clock (`VerdictIff`).
- "All paths emit an event" (readme.md, line 76) fails without a token, for arguments, tags or a
  context that do not validate, and for a token bound to an address that is not text
  (`RunIsSilentIff`, `AskedRunIsSilentIff`); a handler's result with a key that is not text leaves
  a call without its result event (`EveryCallIsClosedIff`).
- The limit of M actions a minute admits M - 1, and any number while Redis fails
  (`BucketAdmitsQuota`, `LostCountsAreUnlimited`).
- Only before its expiry can a request be resolved: a slow resolution succeeds after it
  (`SlowResolveIff`).
- The dev fallback for claims without `active` also accepts inactive ones, if they still name a scope
  (`InactiveEffectIff`, `InactiveReadIsAllowed`, `BareInactiveReplyIsDenied`).
- The anomaly service does not suspend an agent a second time (`BreachSuspendsIff`, `FallbackFails`,
  `ReinstatedIsNeverResuspended`).
- Requests queued by the enforcement point cannot be resolved (`PepRequestsAreStuck`,
  `PepRequestExists`).
- EXECUTED also covers an exception with an empty message (`ExecutedIff`).

## Model

| member | source | states |
|---|---|---|
| `Text.ReadStringInvertsEscape` | audit/schema.py:51-65 | a decoder that undoes the escapes of section 7 of RFC 8259 reads back any Unicode string written in ASCII JSON, quotes, backslashes, control characters and surrogate pairs included, whatever text follows |
| `AuditSchema.UuidTextInjective` | audit/schema.py:53 | two event ids with the same text are the same id |
| `AuditSchema.UuidLayout` | audit/schema.py:53 | the text of an id is its sixteen bytes in order, two lower-case hexadecimal digits each, with dashes after 8, 12, 16 and 20 digits |
| `AuditSchema.IsoFormatInjective` | audit/schema.py:54 | two timestamps with the same ISO text are the same reading in the same zone, for any offset and for naive ones, although zero fractions and zero offset seconds are omitted |
| `AuditSchema.IsoFormatLayout` | audit/schema.py:54 | year, month, day, hour, minute and second stand at their places in the ISO text and read back as such |
| `AuditSchema.FractionLayout` | audit/schema.py:54 | the fraction is a point and six digits that read back as the microseconds, or nothing for zero |
| `AuditSchema.UtcText` | audit/schema.py:54 | a timestamp in UTC, as agents stamp them, ends in +00:00 |
| `AuditSchema.ZoneLayout` | audit/schema.py:54 | the offset is a sign, hours and minutes, and seconds if there are any, that read back as such; nothing for a naive time |
| `AuditSchema.MembersRoundTrip` | audit/schema.py:51-65 | the compact object text, for any keys and any string values, decodes to exactly those values |
| `AuditSchema.KeysAreSorted` | audit/schema.py:63 | the order used for the nine keys is the code-point order that `sort_keys` produces |
| `AuditSchema.CanonicalInjective` | audit/schema.py:51-65 | events with the same canonical text agree on all nine hashed fields, whatever the zone of their timestamps |
| `AuditSchema.CanonicalNamesTheFields` | audit/schema.py:51-65 | decoding the text that is hashed gives under each of the nine names the text of the field of that name |
| `AuditSchema.CollisionIsDigestCollision` | audit/schema.py:44-66 | two different field records with one event hash exhibit two different texts with one digest |
| `HashChain.VerifyChain` | audit/schema.py:69-76 | the loop answers true exactly for logs in which every hash is right and every event points at the one before it; the first pointer is not checked |
| `HashChain.ChainFromVerifies` | audit/producer.py:55-59 | whatever is published from a given head verifies, points at that head, and keeps everything but the two chain fields |
| `HashChain.VerifiedIffRepublished` | audit/schema.py:69-76 | a log is accepted and rooted exactly when publishing its own events again reproduces it: verifier and producer are inverse to each other |
| `HashChain.VerifiedConcat` | audit/schema.py:69-76 | two logs joined verify exactly when each does and the second points at the first one's head |
| `HashChain.TamperEvidence` | audit/schema.py:44-76 | two verified logs with the same last hash agree, counted from the end, on all nine fields and the hashes over their common length, or hold a collision between themselves; for an arbitrary hash |
| `HashChain.LongerLogMeetsRoot` | audit/schema.py:69-76 | of two rooted logs with one head and different lengths, the longer holds an event whose hash is the root |
| `HashChain.HeadCommitsToLog` | audit/schema.py:69-76 | with a root that no event hashes to and no collision, the head hash fixes the length and every hashed field |
| `HashChain.TamperEvidenceForDigest` | audit/schema.py:44-76 | the same as a reduction for the digest: equal logs, or two different canonical texts with one digest |
| `HashChain.HashesDiverge` | audit/schema.py:44-50 | a difference at index k makes every hash from k onward differ, unless two aligned events collide |
| `HashChain.EditVerifiesIff` | audit/schema.py:69-76 | replacing one event goes unnoticed exactly when the new one is sealed on the same predecessor and, unless it is the last, has the old event's hash |
| `HashChain.RewrittenSuffixVerifiesIff` | audit/schema.py:69-76 | with the first k events kept, the accepted logs are exactly those whose rest is sealed on the last of them |
| `HashChain.ResealedLogVerifies` | audit/schema.py:8-9 | the promise that tampering is found needs a trusted head: a log rewritten at will from any event on and sealed again verifies |
| `HashChain.DetailsAreUnprotected` | audit/schema.py:44-66 | the documented promise fails for the fields outside the hash: rewriting reasons, results or errors never changes the verdict |
| `HashChain.RewrittenDetailsVerify` | audit/schema.py:44-76 | in every verified log any event's details can be replaced by others without notice |
| `HashChain.RewrittenDenialVerifies` | audit/schema.py:44-76 | an input: a denial stripped of its reason and source address still verifies |
| `HashChain.HashesDistinct` | audit/schema.py:69-76 | in a rooted log without collisions no hash occurs twice, even if events repeat |
| `HashChain.SelectionVerifiesIffConsecutive` | audit/schema.py:69-76 | events taken from a published log in any order, with drops and repetitions, verify exactly when they are a run of consecutive events |
| `AuditProducer.Producer.constructor` | audit/producer.py:31-37 | a new producer is at GENESIS with nothing buffered |
| `AuditProducer.Producer.Publish` | audit/producer.py:55-72 | the event is sealed on the old head, becomes the head, and is in the topic, in the buffer, or in both when only the acknowledgement was lost; the conservation invariant is kept |
| `AuditProducer.Producer.Drain` | audit/producer.py:74-78 | the buffer is handed over in order and emptied, nothing else changes |
| `AuditProducer.TopicVerifiesIffContiguous` | audit/producer.py:61-70 | in every reachable state the Kafka log alone verifies exactly when the sends that got through form one block, and likewise the buffer |
| `AuditProducer.MergeRestores` | audit/producer.py:61-78 | topic and buffer interleaved in publish order are the published log |
| `AuditProducer.NothingLost` | audit/producer.py:55-78 | under any sequence of send failures topic, drained and buffered events merge into the verified published log ending at the head, and partition it when no acknowledgement is lost |
| `AuditStore.Consumer.Persist` | audit/consumer.py:42-65 | insert, or ignore when the event id is present |
| `AuditStore.Consumer.ConsumePoll` | audit/consumer.py:98-105 | one poll leaves the table as if its messages had been handled one by one in order, undecodable ones and failed inserts skipped |
| `AuditStore.RunConsumer` | audit/consumer.py:97-105 | the polling process from an empty table is one ingestion of all messages |
| `AuditStore.RowsAreAppendOnly` | infra/postgres/init.sql:33-67 | ingestion never changes or removes a row |
| `AuditStore.FirstInsertWins` | audit/consumer.py:24-39 | a row exists exactly for the ids that some insert succeeded for, and is the event of the first of them |
| `AuditStore.OrderByTimestamp` | audit/api.py:157-160 | a result of the chain query exists for every table |
| `AuditSchema.InstantIsTheOrderOfTime` | audit/api.py:157-160 | the order of the query is that of the readings: the first of year, month, day, hour, minute, second and microsecond in which they differ decides, and only one reading is as late as itself |
| `AuditStore.OrderIsUnique` | audit/api.py:157-160 | events with distinct timestamps have one order |
| `AuditStore.Recovery` | audit/api.py:157-160 | for any order, duplication and loss of delivery, and any other agents' traffic, the query returns exactly the arrived events of the agent's log, in log order if they were stamped in that order |
| `AuditStore.EndToEnd` | audit/api.py:157-168 | published, delivered at least once each, ingested, sorted: the query returns the published log and it verifies from GENESIS |
| `AuditStore.VerdictIff` | audit/api.py:157-177 | with distinct timestamps and no collision the verdict is valid exactly when the arrived events have no gap and were published in the order of their timestamps |
| `AuditStore.VerdictIffClockForward` | audit/api.py:157-177 | with everything stored, valid exactly when the clock never stepped back: an honest log whose timestamps are out of order is reported as broken |
| `AuditStore.VerdictIffNoGap` | audit/api.py:164-177 | while the clock goes forward, valid exactly when the arrived events have no gap; a missing prefix or suffix is not noticed |
| `AuditStore.RestartBreaksVerification` | audit/producer.py:12-13 | a second producer of the same agent starts at GENESIS again, so the complete log of both is reported valid exactly when the first one's head is GENESIS itself |
| `Restarts.SelectionVerifiesIffOneLife` | audit/schema.py:69-76 | events picked from the log of any number of lives of an agent, in any order, verify exactly when they are a run of consecutive events of one life |
| `Restarts.RestartVerdictIff` | audit/api.py:157-177 | any number of restarts, any loss, duplication and order of delivery: the verdict is valid exactly when what arrived is one run of consecutive events of one life, stamped in order |
| `AuditStore.AuditApi.VerifyAgentChain` | audit/api.py:141-180 | the answer and the two counters: unavailable exactly without a database or with a row that does not validate, otherwise the number of rows and the verdict on them |
| `ScopeCheck.ContainsIffSomeToken` | policy/rego/nhi/scope_check.rego:35-38 | searching the space-separated claim finds a scope exactly when some single token contains it |
| `ScopeCheck.SearchAgreesWithMembershipIff` | policy/rego/nhi/scope_check.rego:33-43 | for any claim, search equals membership exactly when the scope is granted or no token contains it |
| `ScopeCheck.ScopesDoNotNest` | policy/rego/nhi/scope_check.rego:7-26 | no scope of the policy's map occurs inside a different one |
| `ScopeCheck.CatalogueAgreesWithPolicy` | agents/base/tool_registry.py:36-52 | each tool's action is in the policy's map with the very scope the catalogue requires |
| `ScopeCheck.RegistryAgreesWithPolicy` | agents/base/tool_registry.py:58-72 | for claims made of known scopes a tool is in the registry exactly when the policy finds its action in scope, as text and as an array |
| `ScopeCheck.SearchAcceptsLongerToken` | policy/rego/nhi/scope_check.rego:35-38 | outside known scopes the two differ: a longer token is accepted by the search and refused by the registry |
| `RateLimit.CounterIsExact` | pep/client.py:181-186 | while its minute lasts a counter holds the number of requests whose INCR got through and cannot expire: its lifetime is 120 s from the first of them, without end if that one lost the reply or EXPIRE; under any eviction of expired keys |
| `RateLimit.CounterEnds` | pep/client.py:181-186 | what a counter still counts at any later moment: all of it before its lifetime ends, nothing from then on |
| `RateLimit.InjectedIsRank` | pep/client.py:181-186 | the injected count is the request's rank among the counted ones of its agent and minute; none exactly when INCR, its reply or a due EXPIRE was lost |
| `RateLimit.MinutesAreSixtySeconds` | pep/client.py:181-186 | buckets are the minutes of the clock in milliseconds, and windows sixty thousand of them long |
| `RateLimit.BucketAdmitsQuota` | policy/rego/nhi/rate_limit.rego:13-25 | of all requests of one agent and minute, counted or not, exactly min(counted, max(M-1, 0)) pass, one fewer than the limit M, plus those that had no count and were not among them, under any interleaving and any failures of Redis |
| `RateLimit.WindowAdmitsTwiceQuota` | policy/rego/nhi/rate_limit.rego:13-25 | any sixty seconds let at most 2*max(M-1, 0) requests of an agent through, plus those in it that slip through without a count |
| `RegoPolicy.DeniedIff` | policy/rego/nhi/main.rego:17-52 | exactly what is not denied, in terms of claims, context, hour and count: a token that serves, the scope of a known action, hours, task, environment and rate |
| `RegoPolicy.OtherTokensAreDenied` | policy/rego/nhi/main.rego:43-52 | a live token of another agent or of none, an unusual `active` claim and an empty claim set are denied, whatever the rest says |
| `RegoPolicy.ScopeIsNeeded` | policy/rego/nhi/scope_check.rego:7-43 | an unknown action is denied, and one whose scope the claims carry neither as text nor in the list |
| `RegoPolicy.HoursAreKept` | policy/rego/nhi/time_window.rego:8-24 | outside the declared hours, the first included and the last not, only a SecOps agent with an incident is not denied |
| `RegoPolicy.TaskIsNeeded` | policy/rego/nhi/task_scope.rego:9-23 | no task, or an environment not among those declared, is denied |
| `RegoPolicy.RateIsKept` | policy/rego/nhi/rate_limit.rego:13-25 | a count that has reached the declared limit, or thirty where none is declared, is denied |
| `RegoPolicy.DestructiveToolsAreSensitive` | agents/base/tool_registry.py:36-52 | the catalogue marks a tool destructive exactly when the policy gates its action |
| `RegoPolicy.ApprovalIsNeededIff` | policy/rego/nhi/destructive_gate.rego:10-39 | without prior approval a sensitive action, and any action of a ProvisionerAgent, is never allowed; otherwise approval is never asked |
| `RegoPolicy.InactiveEffectIff` | policy/rego/nhi/main.rego:43-52 | a token reported inactive is denied exactly when an active one would be for another reason: not denied if and only if scope, window, task and rate rules hold |
| `RegoPolicy.InactiveReadIsAllowed` | policy/rego/nhi/main.rego:43-52 | an input: an inactive claim set with a scope gets ALLOW for reading an object |
| `RegoPolicy.BareInactiveReplyIsDenied` | policy/rego/nhi/main.rego:43-52 | the reply that section 2.2 of RFC 7662 recommends for a dead token, `active` alone, is denied, for want of a scope |
| `RegoPolicy.AllowsInAnyMinute` | policy/rego/nhi/main.rego:19-37 | an agent whose own requests carry limits of at most M gets at most 2*max(M-1, 0) ALLOWs in any sixty seconds, plus those that slip through without a count, none while Redis answers; whatever it asks for, through however many PEPs, and whatever limits others carry |
| `RegoPolicy.LostCountsAreUnlimited` | pep/client.py:166-188 | the added term is needed: while INCR fails, an allowed request is allowed any number of times |
| `Pep.PolicyEnforcementPoint.CheckIpBinding` | pep/client.py:103-125 | denied exactly when the address at the top of the claims, or in its absence the one in the agent context, is another one, text or not, or that context is no object; and then as the whole of `enforce` would |
| `Pep.AddressLayerIff` | pep/client.py:103-125 | what the address layer accepts, from the claims: the address at the top comes first, then the one in the agent context; either must be the request's if there is any |
| `Pep.PolicyEnforcementPoint.CheckSuspension` | pep/client.py:131-160 | membership in the suspended set or, without Redis, no answer; and what `enforce` decides from it: suspended, or whatever OPA and Cedar say |
| `Pep.PolicyEnforcementPoint.InjectRateLimitCount` | pep/client.py:166-188 | the count and the new counters, with Redis lost before INCR, before its reply, before EXPIRE, or not at all |
| `Pep.PolicyEnforcementPoint.Enforce` | pep/client.py:53-97 | the verdict, whether OPA was consulted at all, and that only requests that get that far are counted |
| `Pep.ExecuteTool` | pep/client.py:317-337 | the tool function is called exactly when `enforce` returned |
| `Pep.PermitIffEveryLayerAgrees` | pep/client.py:53-97 | `enforce` returns exactly when the claims' address agrees, the agent is not found suspended, OPA asked with the count allows and, for s3 and iam actions, Cedar permits; no failure of OPA or Cedar opens the gate |
| `Pep.ApprovalAskedIff` | pep/client.py:90-97 | approval is asked for exactly when the request got to OPA, OPA required it and it could be queued |
| `Pep.RefusalNamesTheLayer` | pep/client.py:53-97 | the class of the exception tells which layer refused: the PEP's own two classes for its own refusals, and otherwise what the layer raised |
| `Pep.RefusalTells` | pep/client.py:53-97 | what the message of each refusal says: policy reference, action and reason of the layer that refuses |
| `Pep.CallsAreArrivals` | pep/client.py:53-97 | any sequence of `enforce` calls, Redis lost anywhere, leaves the counters of the requests past address and suspension, and OPA is asked with the count that their order gives |
| `Pep.AsksIff` | pep/client.py:53-97 | which calls get to the counter and to OPA: exactly those whose address agrees and whose agent is not found suspended; the others are refused and leave the counters alone |
| `Pep.MessageIsTextIff` | pep/client.py:103-125 | with oracles that report text, a refusal's message is not text exactly when it shows a token address that is not |
| `AgentRuns.BaseAgent.NodePolicyCheck` | agents/base/agent.py:121-150 | the recorded decision: DENY for an unavailable tool, ALLOW, or the class name of the PEP's exception; and the node fails when there are no claims to read or the request does not validate |
| `AgentRuns.BaseAgent.NodeExecuteTool` | agents/base/agent.py:159-169 | result and error for a missing handler, a return and an exception |
| `AgentRuns.BaseAgent.NodeAuditResult` | agents/base/agent.py:201-231 | one result event tied to the decision event is published, or none when it does not validate: a result with a key, or an exception with a message, that is not text |
| `AgentRuns.BaseAgent.Run` | agents/base/agent.py:75-231 | one run of the graph does exactly what its specification lists, in that order, on the verdict given by the state of Redis at the start, counts the request exactly when it gets past address and suspension, and says whether an exception left the graph |
| `AgentRuns.RunIsBlock` | agents/base/agent.py:75-103 | a run ends in one of four ways: nothing; one event that is not ALLOW; ALLOW, at most one call of that tool and the result event of that very decision; or ALLOW and the call alone |
| `AgentRuns.RunIsSilentIff` | agents/base/agent.py:105-139 | a run leaves no event exactly when the token request raised, an argument is not text to Pydantic, or the tool is available and either the claims are no object, tags or context do not validate, or the refusal's message is not text |
| `AgentRuns.AskedRunIsSilentIff` | agents/base/agent.py:121-195 | a run that gets to the PEP, with oracles that report text, leaves no event exactly when the token is bound to another address that is not text |
| `AgentRuns.HandlerRunsIff` | agents/base/agent.py:121-169 | complete mediation: the handler is called exactly when token, registry, validation and every layer, asked about this agent, tool, task and count, agree and a handler exists |
| `AgentRuns.ExecutedIff` | agents/base/agent.py:216 | EXECUTED is recorded exactly when the handler returned, or raised with an empty message |
| `AgentRuns.DecisionIsRecorded` | agents/base/agent.py:121-197 | the first event of a run records agent, tool, task, resource, time and the decision: DENY for an unavailable tool, ALLOW, or the class and message of the PEP's exception |
| `AgentRuns.ResultIsRecorded` | agents/base/agent.py:159-231 | the last event of a finished run records the same and the handler's outcome, error and dictionary result |
| `AgentRuns.EveryCallIsAllowed` | agents/base/agent.py:90-101 | over any sequence of runs every handler call comes directly after an ALLOW event for its tool |
| `AgentRuns.BrokenOffIff` | agents/base/agent.py:159-231 | a run breaks off exactly when the PEP permitted it and the handler returned a dictionary with a key, or raised with a message, that is not text |
| `AgentRuns.CompletesIff` | agents/base/agent.py:75-103 | no exception leaves the graph exactly when the run is blocked or finished |
| `AgentRuns.EveryCallIsClosedIff` | agents/base/agent.py:201-231 | every call is directly followed by the result event of its decision exactly when no allowed run's handler returned a dictionary with a key, or raised with a message, that is not text |
| `AgentRuns.EventCountIsExact` | agents/base/agent.py:171-231 | events number blocked + broken-off + 2*finished over any sequence of runs, and calls lie between the broken-off and all allowed runs |
| `AgentRuns.EveryLogVerifies` | agents/base/agent.py:190-223 | the log of any sequence of runs starts at GENESIS, has that exact length and verifies |
| `ApprovalQueue.Queue.EnqueueRequest` | approval/queue.py:34-72 | the record with its lifetime and the id in the set; nothing at all for a lifetime Redis refuses |
| `ApprovalQueue.Queue.GetRequest` | approval/queue.py:126-131 | the live record, not found, or unparsable |
| `ApprovalQueue.Queue.ResolveRequest` | approval/queue.py:78-120 | the outcome of every branch, the decision, approver and time in the answer, and the new record, lifetime and set on success |
| `ApprovalQueue.Queue.ListPending` | approval/queue.py:133-142 | for any order of the walk: each live member once with its record, and the set left equal to their ids; fails exactly when a live member does not parse |
| `ApprovalQueue.RunKeepsInv` | approval/queue.py:34-142 | after any run, records and set are determined by what was queued and resolved |
| `ApprovalQueue.PendingSetAgreesWithScan` | approval/queue.py:133-142 | in every reachable state live pending requests are in the set, everything else in it has expired, and listing leaves exactly the former |
| `ApprovalQueue.GetTellsTheLife` | approval/queue.py:105-131 | at any moment `get` answers: as queued and pending until expiry, the decision, approver and time of the resolution for exactly 3600 s after it, nothing otherwise |
| `ApprovalQueue.EnqueuedIsPending` | approval/queue.py:34-72 | a new request is pending, as it was asked, for exactly its lifetime |
| `ApprovalQueue.ResolutionIsRecorded` | approval/queue.py:99-111 | a resolution that goes through is recorded as approved exactly if it approves, with approver and time, and changes nothing else |
| `ApprovalQueue.DecisionIsKept` | approval/queue.py:78-131 | over any run, as long as a resolved request can be read it tells the decision of the one resolution that went through |
| `ApprovalQueue.ResolveAnswers` | approval/queue.py:78-97 | what `resolve` answers to any caller, from the life of the request alone: not found, unparsable, already resolved, self-approval or success, in this order |
| `ApprovalQueue.ResolveSucceedsIff` | approval/queue.py:78-97 | a resolution succeeds exactly for a queued, unresolved, unexpired request and an approver other than its agent |
| `ApprovalQueue.ResolutionIsFinal` | approval/queue.py:86-89 | status, approver and time of a resolution never change afterwards |
| `ApprovalQueue.ResolvedAtMostOnce` | approval/queue.py:86-111 | in any run a request is resolved at most once |
| `ApprovalQueue.PepRequestsAreStuck` | pep/client.py:282-307 | what the PEP queues is never listed and can never be resolved |
| `ApprovalQueue.PepRequestExists` | pep/client.py:282-307 | an input: from the start, one request queued by the PEP is visible and cannot be resolved |
| `ApprovalQueue.BothResolvesSucceedIff` | approval/queue.py:78-111 | with reads and writes as separate steps, over all interleavings of two eligible callers with any time in between: the one that reads first succeeds exactly when it reads before the expiry, the other exactly when it also reads before the first one writes; then the later writer's decision stands |
| `ApprovalQueue.SlowResolveIff` | approval/queue.py:78-111 | with time between read and write a resolution succeeds on what it read, and brings an expired request back exactly when it writes at or after the expiry |
| `ApprovalQueue.ListRaceIff` | approval/queue.py:133-142 | with operations between its two reads `list_pending` lists a request that is not pending exactly when that was resolved meanwhile, less than 3600 s ago |
| `Anomaly.BurstRunIsExact` | anomaly/scorer.py:133-173 | for every threshold T, after n recorded events the counter is n mod p and n div p bursts fired, with p = floor(T)+1, or 1 for a negative T |
| `Anomaly.AnomalyService.ProcessEvent` | anomaly/service.py:88-129 | history, model, counter, score test, suspension and all counters after one event |
| `Anomaly.AnomalyService.SuspendIdentity` | anomaly/service.py:132-147 | one call for an agent not suspended before, none otherwise |
| `Anomaly.AnomalyService.ScoreEvent` | anomaly/service.py:182-196 | only the burst counter moves |
| `Anomaly.TrainingWindow` | anomaly/service.py:91-100 | in any interleaving an agent's history is the last 500 of its own events and its model was fitted once, on exactly its first ten |
| `Anomaly.BurstCounter` | anomaly/service.py:106-120 | without `/score` calls an agent's counter is its number of events mod 11 |
| `Anomaly.BurstsAreExact` | anomaly/service.py:115-120 | without `/score` calls an agent with n events has burst n div 11 times |
| `Anomaly.CountersAreExact` | anomaly/service.py:115-125 | the burst and suspension counters, in terms of the events alone |
| `Anomaly.CountsAreConserved` | anomaly/service.py:88-120 | with `/score` calls too, every counted event is in a counter or was discarded by a burst, at least eleven at a time |
| `Anomaly.GlobalBurstArithmetic` | anomaly/service.py:104-120 | without `/score` calls events scored = 11 * bursts + the sum of all counters |
| `Anomaly.SuspendedIffTriggered` | anomaly/service.py:115-135 | in every run, `/score` calls included, an agent is suspended exactly when at one of its events its events and `/score` calls so far numbered eleven, or it had ten events and the score was at least 0.95 |
| `Anomaly.OneCallForEachAgent` | anomaly/service.py:132-135 | suspend calls are pairwise different, name exactly the suspended agents, and number at most suspensions + bursts |
| `IdentityApi.IdentityService.SuspendIdentity` | identity/api.py:61-82 | set, reason, total and answer for each point at which Redis may fail |
| `IdentityApi.IdentityService.UnsuspendIdentity` | identity/api.py:85-100 | set, reason, total and answer for each point at which Redis may fail |
| `IdentityApi.LedgerBalances` | identity/api.py:61-100 | over every run with failures, totals and set differ by exactly the changes a failing second command left uncounted |
| `IdentityApi.LedgerWithoutFailures` | identity/api.py:61-100 | without failures suspensions minus reinstatements is the size of the set and reasons exist exactly for its members |
| `IdentityApi.ReasonIsOfLastCompleted` | identity/api.py:61-100 | over every run with failures, the reason kept is that of the last suspension to have had both its commands, and there is none if a reinstatement had both since |
| `TokenCache.TokenManager.GetToken` | identity/token_manager.py:59-67 | reuse, acquisition and failure: no token exactly when the acquisition failed and none was held with more than 30 s to its recorded expiry; a failure changes nothing |
| `TokenCache.NoExpiredTokenIsReturned` | identity/token_manager.py:59-67 | in any run of timely acquisitions whatever token is answered has not expired at the server: the last acquired one at the time of the call, or a new one when it arrives |
| `TokenCache.AnswerTells` | identity/token_manager.py:59-67 | which answer a call gets after any run: the last acquired token while more than 30 s are left, otherwise what the acquisition brings, nothing if it fails |
| `TokenCache.LatencyBoundIsExact` | identity/token_manager.py:61-66 | a cached token is safe at every later moment if and only if its acquisition took at most 30 s plus the server's surplus lifetime, or the cache is never used |
| `TokenCache.AcquisitionsAreSpaced` | identity/token_manager.py:62-66 | successful acquisitions are at least ttl - 30 s apart |
| `Sentinel.SuspensionHolds` | pep/client.py:131-156 | a suspended identity stays suspended until a reinstatement takes effect, which one answered 503 after its first command also does |
| `Sentinel.SuspendedIffInForce` | identity/api.py:61-100 | over every run with failures, an identity is suspended exactly when an operator or its first breach suspended it and no later reinstatement took effect |
| `Sentinel.BreachSuspendsIff` | anomaly/service.py:132-147 | the next breach leaves an identity suspended exactly when it already is, or the service never suspended it before and the call gets through |
| `Sentinel.ReinstatedIsNeverResuspended` | pep/client.py:137-141 | the documented fallback fails: an agent the anomaly service once suspended, and that is free now, is never suspended by it again |
| `Sentinel.FallbackFails` | pep/client.py:137-141 | a run from the start: eleven events suspend, an operator reinstates, eleven more are a breach, and the agent stays free |
| `Sentinel.BreachStopsTheAgent` | anomaly/service.py:10-13 | after a first breach whose call gets through, without reinstatement, no run of the agent reaches a handler while Redis can be read |
| `Sentinel.ElevenEventsStopTheAgent` | anomaly/service.py:10-13 | eleven observed events, among any `/score` calls, have that effect |
| `ClosedLoop.NoCallAfterEleven` | anomaly/service.py:10-13 | with the agent's own published events observed: after eleven of them none of its runs calls a handler |
| `ClosedLoop.CallsAreBounded` | anomaly/service.py:88-129 | over every history of runs, observations and other steps, an agent that nobody reinstates makes at most 6 + (lag + runs broken off) / 2 tool calls |
| `ClosedLoop.SixCallsAreReached` | anomaly/service.py:88-129 | the bound is exact: an agent that may do a task does it six times |
| `Sentinel.HandlerRunsOnlyUnderPolicy` | policy/rego/nhi/main.rego:12-37 | with OPA evaluating the policy, a handler runs only for a tool whose scope was granted and stands in the claims, with a token of this agent used from its own address, for a task, from an allowed environment, in the allowed hours, below the rate limit, and for a destructive tool or a ProvisionerAgent only with prior approval |
| `Sentinel.RunsAreRecovered` | agents/base/agent.py:36-49 | from runs to the chain query: the query returns the exact log of the runs, of the exact length, and verifies it |

## Left out

- Publishing one event object twice: events are values here, so the overwriting of an already buffered object is not captured.
- Identified: stored rows, whose order counts, are stamped in UTC, as the agents stamp them and PostgreSQL returns them; other zones are covered where the hash reads the timestamp.
- VerdictIff: assumes distinct timestamps, because the query leaves the order of equal ones open.
- RunIsSilentIff: `tags` and `context` are dictionaries, as `run` declares them; other objects in their place are not modelled.
- The list of available tools inside the message for an unavailable tool: only its fixed part is kept; the field is not hashed.
- Handlers that rewrite the agent state themselves: a handler returns a value or raises.
- The rest of OPA's response (`policy_version`, `conditions_evaluated`, `evaluated_at`): OPA's reply is an oracle that may also be unparsable. `evaluated_at` is a number in the policy and a string in the enforcement point's model, a mismatch this project does not judge.
- Comparison across Rego types: limits and counts are integers, so a limit given as text is not modelled.
- A clock of Redis that differs from the enforcement point's.
- policy/rego/authorization.rego, the older version of the same package.
- Cedar policies and their command line: an oracle, asked only for s3 and iam actions.
- The isolation forest, feature extraction, `burst_score` and the baseline loader: a fitted score is an arbitrary number; the burst detector is the counter kept with each agent.
- `BurstDetector.record_many`: the service never calls it.
- The table of latest scores in the anomaly service, which nothing reads back but the metrics.
- Keycloak, Vault, JWT signing, introspection traffic, identity provisioning: token replies are inputs.
- HTTP routing, metrics text, the event listing endpoints, JSONB and row decoding: a stored row is its event.
- Persisting approvals to PostgreSQL and the `context` of an approval request.
- The agent subclasses, the cloud simulation, dashboards, user interface and deployment scripts.
