# ZetMQ in Dafny

This project models the parts of the ZetMQ message broker whose behaviour is hardest to see from the code,
and proves what they promise. It has four components.

1. **Routing and the broker core.** A wildcard trie, a map of literal subjects and a flag form an index that
   must agree with scanning every subscription. Above it the registry, the queue groups, the interned group
   keys and the counters must stay consistent over every run of subscribe, unsubscribe and
   remove_connection, and three publish paths with caches and shortcuts must deliver what one simple
   specification says.
2. **Streams, consumers and segments.** A stream retains a suffix of its history under three limits; a
   consumer walks the history with acknowledgements and back pressure; a segment is a log file whose index
   must be rebuildable from its bytes.
3. **Pattern coverage.** `is_pattern_covered` decides inclusion between wildcard patterns.
4. **The binary codec.** Frames must survive any chunking, the PUB fast path must agree with the general
   decoder, and what one side encodes the other must decode; the session's inner loop drives both.

## How it is laid out

Every stateful part comes twice. A value (`Broker`, `Log`, `StoreState`, `Segment`, ...) with pure step
functions carries the theorems: invariants, runs, round trips, equivalences. A class with the source's fields
and loops (`Core`, `RoutingEngine`, `Stream`, `SegmentLog`, `ReadLoop`, ...) is proved to do exactly those
steps, so the theorems hold of it.

| files | what they model |
|---|---|
| `Subjects`, `Tries`, `Routing`, `FlagRace` | subjects and patterns, the trie, the index, the flag under concurrency |
| `Delivery`, `RoundRobin`, `BrokerState`, `Publishing`, `Batching`, `BatchLaws`, `BatchAgreement`, `Fairness`, `BrokerRuns`, `BrokerHistory`, `BrokerCore` | the broker: delivery, state, single and batched publishing, fairness, runs, runs read off their operations, the class |
| `Coverage` | permissions |
| `Streams`, `StreamClass`, `Consumers`, `ConsumerRuns`, `ConsumerHistory`, `ConsumerService`, `ConsumerPolicies`, `ConsumerExamples`, `StoreClasses` | streams, consumers, runs read off their calls, what consumers can be handed, their unused settings, example runs, the store |
| `Segments`, `SegmentLaws`, `SegmentRuns`, `SegmentClass` | log segments |
| `Bytes`, `Frames`, `FrameBuffer`, `Headers`, `Commands`, `Messages`, `Session`, `SessionRuns`, `SessionClass` | the codec, the session loop and whole sessions |
| `Wrappers`, `Seqs` | `Option`, `Result`, sequence facts |

Conventions. Text is `string` in the routing half and its bytes in the codec. Clocks, the allocator's addresses,
the answers of delivery handles and the iteration order of hash maps are parameters, so each statement holds for
all of them. Every lemma carries `{:induction false}`: all induction is written out. `hide` marks definitions a
proof does not need.

Where the code and its documentation or intent differ, the model follows the code, a lemma gives an input, and
another says exactly when the promise is kept:

- `AckPolicy::All` and `filter_subject` are stored and never consulted: `PromisesBroken` is a run that breaks
  both, `SettingsChangeNothing` says no run depends on them, `AckClearsEarlierIff` and `FilterKeptIff` say when
  the promises hold all the same.
- `AckPolicy::None` needs no acknowledgement, and yet such a consumer is held back (`NoAckHeldBack`, exactly when:
  `NeverAckingIsServedIff`).
- `DeliverPolicy::All` gets nothing from a stream that has dropped its first message (`AllGetsNothing`, exactly
  when: `AllStartsAtFirstIff`, and for every policy `StartIsServedIff`).
- `DeliverPolicy::Last` gets more than the last message (`LastGetsMore`, exactly when: `LastIsOnlyIff`).
- A batch is not its items one by one for an ordinary queue group: each member gets each item
  (`PairGetsTwice`, exactly when the two agree: `GroupAgreesIff`, `BatchIsOneByOneIff`).
- Distinct consumers can share a key (`ColonsCollide`, exactly when: `KeysCollideIff`).
- A segment is append-only only while no record but the last is read in between (`AppendAfterReadIff`, over whole
  runs: `RunIsLogIff`); a record cut inside its payload comes back with zeros (`CutPayloadComesBackZeroed`,
  exactly when a cut is harmless: `AppendAfterCutIff`).
- `can_subscribe` can refuse what its permissions together allow (`SplitPermissionsAreRefused`, exactly when:
  `SubscribeIsRightIff`).
- A publish can serve one group twice (`TwoNamesServeTwice`, exactly when: `PublishServesOnceIff`), and a text
  with blanks around it can miss a literal subscriber (`UntrimmedTextMisses`, exactly when:
  `TextPathVisitsSameIds`).
- Round robin can be unfair when its counter wraps (`RoughRoundRepeats`, exactly when: `PublishingIsFairIff`,
  `BatchReachesAllIff`).
- PUBs read together with a malformed one behind them are dropped with it (exactly when: `MalformedLosesIff`).
- The client's decoder checks no bound before slicing the reply of a MSG (exactly when it panics:
  `CutReplyPanicsIff`).
- Lowering the wildcard flag can race with an insert (`RaceMissesSubscription`, exactly when: `LoweringIsSafeIff`,
  over whole runs: `AlwaysSafeIff`).

## Model

| member | source | states |
|---|---|---|
| Subjects.JoinSplit | crates/zetmq-core/src/subject.rs:34-45 | joining the tokens of a text with dots gives the text back, so raw text and tokens determine each other |
| Subjects.SplitJoin | crates/zetmq-core/src/subject.rs:34-45 | and no other list of tokens without dots does: splitting a joined list gives the list back |
| Subjects.ParsedSubjectIsValid | crates/zetmq-core/src/subject.rs:15-57 | what a text parses to is trimmed, within the limits, without wildcards, and is what its own text parses to |
| Subjects.ValidSubjectParses | crates/zetmq-core/src/subject.rs:15-57 | every valid subject is what its text parses to: nothing within the limits is refused |
| Subjects.ParsesIff | crates/zetmq-core/src/subject.rs:15-57 | so a text parses if and only if some valid subject has its trimmed text |
| Subjects.RefusalIsJustified | crates/zetmq-core/src/subject.rs:15-57 | a refused text really is blank, over 512 bytes, over 32 tokens, with an empty token or with a wildcard, as its error says |
| Subjects.TrimCuts | crates/zetmq-core/src/subject.rs:16 | trimming takes a slice: only blanks before it, only blanks after it, and none at its ends |
| Subjects.Utf8LenIs | crates/zetmq-core/src/subject.rs:22-27 | the length compared with the limit is that of the UTF-8 encoding |
| Subjects.Utf8ReadsBack | crates/zetmq-core/src/subject.rs:22-27 | an encoding from which every character can be read back |
| Subjects.ParsePattern | crates/zetmq-core/src/subject_pattern.rs:21-79 | a text is refused exactly for the documented complaints, the first one reported and true of the text; otherwise it gives the valid pattern of its trimmed text, which is the only one |
| Subjects.AcceptableIff | crates/zetmq-core/src/subject_pattern.rs:21-79 | there is no complaint if and only if some valid pattern has the trimmed text |
| Subjects.ComplaintIsJustified | crates/zetmq-core/src/subject_pattern.rs:21-79 | and every complaint is true of the text |
| Subjects.PatternTextInjective | crates/zetmq-core/src/subject_pattern.rs:21-79 | two valid patterns with the same token texts are the same pattern |
| Subjects.MatchTokensDenotes | crates/zetmq-core/src/subject_pattern.rs:81-108 | matching means: token by token, `*` takes one token and a final `>` takes one or more |
| Subjects.Matches | crates/zetmq-core/src/subject_pattern.rs:81-108 | the two-index loop computes that relation |
| Tries.MatchGathers | crates/zetmq-core/src/routing/trie.rs:76-113 | a recursive match reads exactly the slots whose path matches the subject, in visiting order |
| Tries.MatchSlotsExact | crates/zetmq-core/src/routing/trie.rs:76-113 | the slots visited are those a scan with the matching rules would select |
| Tries.MatchSlotsDistinct | crates/zetmq-core/src/routing/trie.rs:76-113 | no slot is visited twice |
| Tries.InsertAt | crates/zetmq-core/src/routing/trie.rs:35-49 | an insert changes one slot by appending one id |
| Tries.RemoveAt | crates/zetmq-core/src/routing/trie.rs:51-74 | a remove changes one slot by dropping one id, and reports whether it was there |
| Tries.SubjectTrie.Insert | crates/zetmq-core/src/routing/trie.rs:35-49 | one slot, that of the pattern, gains the id at its end, every other slot stays, and the counter goes up by one |
| Tries.SubjectTrie.Remove | crates/zetmq-core/src/routing/trie.rs:51-74 | one slot loses the id, every other slot stays, and the counter goes down if and only if the id was there |
| Tries.SubjectTrie.MatchSubject | crates/zetmq-core/src/routing/trie.rs:76-83 | the match appends the gathered ids to an empty result |
| Tries.SubjectTrie.MatchRecursive | crates/zetmq-core/src/routing/trie.rs:85-113 | the recursion with a results buffer computes the match |
| Routing.InsertKeepsInv | crates/zetmq-core/src/routing/engine.rs:38-70 | inserting a fresh id keeps exact map, trie, counter and flag in agreement with the live pairs |
| Routing.RemoveKeepsInv | crates/zetmq-core/src/routing/engine.rs:72-108 | so does a remove; under another pattern it removes nothing |
| Routing.MatchIdsExact | crates/zetmq-core/src/routing/engine.rs:110-127 | a lookup returns each live matching id once and no other |
| Routing.MatchIdsTogether | crates/zetmq-core/src/routing/engine.rs:110-127 | ids of one pattern stand together in a lookup |
| Routing.MatchIdsInOrder | crates/zetmq-core/src/routing/engine.rs:110-127 | and in the order in which they subscribed |
| Routing.IndexAgreesWithScan | crates/zetmq-core/src/routing/engine.rs:38-127 | after every run of inserts and removes the index agrees with scanning all live subscriptions with `matches` |
| Routing.RoutingEngine.Insert | crates/zetmq-core/src/routing/engine.rs:38-70 | the mutable index after an insert |
| Routing.RoutingEngine.Remove | crates/zetmq-core/src/routing/engine.rs:72-108 | the mutable index after a remove, the flag lowered when the trie is empty |
| Routing.RoutingEngine.MatchSubject | crates/zetmq-core/src/routing/engine.rs:110-127 | returns exactly the live matching ids, without duplicates, whatever run led here |
| Routing.RoutingEngine.MatchSubjectStr | crates/zetmq-core/src/routing/engine.rs:158-177 | exactly the live literal subscriptions to the text as it stands, each once, and a flag that is up if and only if some live pattern has a wildcard |
| Routing.RoutingEngine.ExactSingleSubscriber | crates/zetmq-core/src/routing/engine.rs:144-156 | answers an id if and only if exactly one live literal subscription names the subject, and then that one |
| FlagRace.RunsAreSound | crates/zetmq-core/src/routing/engine.rs:65-127 | in every interleaving of inserts, removes and lookups split at lock and atomic boundaries, the trie files exactly the live pairs, its count says whether it is empty, and an entry a lowering thread overlooked was pending or raised since |
| FlagRace.LoweringIsSafeIff | crates/zetmq-core/src/routing/engine.rs:98-106 | lowering the flag is safe if and only if no insert raised it since the emptiness check and still has its entry |
| FlagRace.FlagIsConservative | crates/zetmq-core/src/routing/engine.rs:65-124 | without such a raise, a lowered flag means every trie entry belongs to an insert still about to raise it |
| FlagRace.AlwaysSafeIff | crates/zetmq-core/src/routing/engine.rs:65-124 | over every interleaving, the flag is right after every step if and only if each time it is lowered no insert that raised it since the emptiness check still has its entry |
| FlagRace.LookupsAreComplete | crates/zetmq-core/src/routing/engine.rs:110-127 | under that condition every lookup, its flag load and its trie read apart, answers every live matching subscription whose insert had finished, and only matching ones |
| FlagRace.UncleanLoweringMisses | crates/zetmq-core/src/routing/engine.rs:98-124 | without it, some live subscription whose insert had finished is missed by every lookup that starts next with a subject it matches |
| FlagRace.LoweredFlagAnswersIff | crates/zetmq-core/src/routing/engine.rs:119-124 | a lookup that finds the flag down answers nothing, and that is right if and only if every live matching insert is still about to raise it |
| FlagRace.RaceMissesSubscription | crates/zetmq-core/src/routing/engine.rs:65-124 | the excluded interleaving is possible: eight steps on the real trie and its counter end with a live, finished, matching subscription that a lookup misses |
| BrokerState.SubscribeKeepsInv | crates/zetmq-core/src/broker/core.rs:104-142 | subscribing registers the next id with its connection, pattern, group and handle, leaves every other subscription, and keeps all indexes in agreement |
| BrokerState.UnsubscribeKeepsInv | crates/zetmq-core/src/broker/core.rs:144-154 | unsubscribing takes out that id and no other, in a group or not, and keeps all indexes in agreement |
| BrokerState.RemoveConnectionKeepsInv | crates/zetmq-core/src/broker/core.rs:474-498 | so does removing a connection |
| BrokerState.PointerEqualityIsKeyEquality | crates/zetmq-core/src/broker/core.rs:110-126 | live subscriptions share a key pointer if and only if pattern text and group name are equal |
| BrokerRuns.RunKeepsInv | crates/zetmq-core/src/broker/core.rs:104-498 | every legal run of subscribe, unsubscribe, remove_connection and the three publishes, each as specified and whatever the handles answer, keeps the invariant |
| BrokerRuns.RunsAgree | crates/zetmq-core/src/subscription/registry.rs:28-78 | after every run the per-connection lists and the groups hold exactly the live subscriptions, in subscribe order; the counter is the registry size; the cache answers as the parser |
| BrokerRuns.RunsRoute | crates/zetmq-core/src/subscription/registry.rs:28-78 | after every run the router finds exactly the registered subscriptions that match, each once |
| BrokerHistory.RunsRegister | crates/zetmq-core/src/broker/core.rs:104-498 | read off the operations alone: after every legal run the registry holds exactly those who subscribed and did not leave, the n-th subscribe under id n, with the connection, pattern, group and handle it came with |
| BrokerHistory.LeavingIsExact | crates/zetmq-core/src/broker/core.rs:144-498 | in that reading an unsubscribe takes out one id, a removed connection all of its ids, and nobody else |
| BrokerHistory.RunsSendToRegistered | crates/zetmq-core/src/broker/core.rs:156-457 | after every legal run whatever the next operation sends goes only to those, where the pattern matches, by the handle and connection they subscribed with |
| BrokerHistory.RunsReachSubscribers | crates/zetmq-core/src/broker/core.rs:354-407 | and a publish reaches each of them outside groups exactly once if its pattern matches, not at all otherwise |
| BrokerHistory.GoneHearsNothing | crates/zetmq-core/src/broker/core.rs:144-498 | whoever has unsubscribed, or whose connection was removed, gets no attempt from any later operation of the run |
| BrokerHistory.RunsCount | crates/zetmq-core/src/broker/core.rs:156-352 | over every run the published counter is the number of messages given, the delivered counter the number of attempts accepted |
| BrokerHistory.CountersCountTurns | crates/zetmq-core/src/broker/core.rs:409-434 | a group's index moves on by the attempts made to its members, whichever way they were published, and joining or leaving does not move it |
| BrokerHistory.NewGroupsStartAtZero | crates/zetmq-core/src/broker/core.rs:110-130 | subscribing makes a group only for its own pattern and name, and a new group's index is zero |
| BrokerHistory.GroupsEndIff | crates/zetmq-core/src/broker/core.rs:474-498 | removing a connection ends a group if and only if the group had members and all of them were its; the index of every other stays |
| Publishing.PublishFansOut | crates/zetmq-core/src/broker/core.rs:354-407 | a publish attempts each live matching subscription outside groups exactly once, and no other such one |
| Publishing.PublishServesRuns | crates/zetmq-core/src/broker/core.rs:362-378 | a group gets one attempt per maximal run of its key among the matched queue ids, always to a live member |
| Publishing.PublishOnlyMatching | crates/zetmq-core/src/broker/core.rs:354-457 | every attempt goes to a live matching subscription, with its own handle and connection, and carries the message published |
| Publishing.PublishServesGroupOnce | crates/zetmq-core/src/broker/core.rs:354-434 | when no pattern carries two group names, each matching group is served exactly once |
| Publishing.PublishServesOnceIff | crates/zetmq-core/src/broker/core.rs:362-378 | in general a matching group is served once if and only if no subscription to the same pattern in another group was made between two of its live members |
| Publishing.TwoNamesServeTwice | crates/zetmq-core/src/broker/core.rs:362-378 | two group names on one pattern, subscribed in turn: one publish serves a group twice |
| Publishing.RoundRobinIsFair | crates/zetmq-core/src/broker/core.rs:409-434 | m selections of a group of n, interleaved with any others, go floor(m/n) or ceil(m/n) times to each member, unless they pass a wrap that n does not divide |
| Publishing.RoundRobinIsFairIff | crates/zetmq-core/src/broker/core.rs:409-434 | past the wrap once, they do if and only if there is not both a member served in the partial round before the wrap and in that after it, and a member served in neither |
| Fairness.PublishingIsFair | crates/zetmq-core/src/broker/core.rs:354-434 | over any run of publishes, read off the delivery log: of the m messages a group of n took each member was attempted floor(m/n) or ceil(m/n) times, unless they pass such a wrap |
| Fairness.PublishingIsFairIff | crates/zetmq-core/src/broker/core.rs:354-434 | past the wrap once, for all members, under that same exact condition |
| Publishing.WrapContinuesIff | crates/zetmq-core/src/broker/core.rs:422-429 | when the index wraps, the rotation goes on in order if and only if the group's size divides 2^64 |
| RoundRobin.HitsAreFair | crates/zetmq-core/src/broker/core.rs:422-429 | of m consecutive counter values, floor(m/n) or ceil(m/n) point at each position |
| RoundRobin.FairIff | crates/zetmq-core/src/broker/core.rs:422-429 | of m counter values that pass the wrap once, floor(m/n) or ceil(m/n) point at each position under that exact condition |
| Publishing.CacheIsTransparent | crates/zetmq-core/src/broker/core.rs:60-69 | in every consistent broker the subject cache answers what the parser would, changes nothing else, and remembers exactly the texts that parse |
| Publishing.UnparsedTextReachesNobody | crates/zetmq-core/src/broker/core.rs:165-200 | a text that does not parse is delivered to nobody |
| Publishing.TextPathVisitsSameIds | crates/zetmq-core/src/broker/core.rs:165-200 | the text path visits the same ids in the same order as parsing and publishing if and only if the text is trimmed or no live subscription names the trimmed text literally |
| Publishing.UntrimmedTextMisses | crates/zetmq-core/src/broker/core.rs:165-200 | a text with a blank in front: the subscriber a publish reaches is missed |
| Publishing.TextPathIsPublish | crates/zetmq-core/src/broker/core.rs:165-200 | for a trimmed text that parses, publishing by text is parsing and publishing, up to the cache |
| Batching.BatchReachesEveryMember | crates/zetmq-core/src/broker/core.rs:299-312 | a batch makes n selections per item for a matched group of n, so each member gets each matching item once, in order, when the rounds are whole |
| Batching.BatchReachesAllIff | crates/zetmq-core/src/broker/core.rs:299-312 | every item reaches every member of a group it matches exactly once, and no member otherwise, if and only if the rounds are whole: n divides 2^64 or no round passes the wrap of the index |
| RoundRobin.RoughRoundRepeats | crates/zetmq-core/src/broker/core.rs:422-429 | a round of n selections that passes the wrap, with n not dividing 2^64, lands on one position twice |
| BatchLaws.BatchDeliversMine | crates/zetmq-core/src/broker/core.rs:205-352 | with accepting handles a batch gives every live subscription exactly its matching items in order, for any flush order; a group member under the exact condition above |
| BatchAgreement.AlikeIff | crates/zetmq-core/src/broker/core.rs:299-378 | a publish serves a group as often as a batch does if and only if the item does not match it or a subscription in another group to the same pattern was made between every two neighbouring live members |
| BatchAgreement.GroupAgreesIff | crates/zetmq-core/src/broker/core.rs:205-434 | with accepting handles, all members of a group get from a batch what they get one by one if and only if no item matches the group or its members are so scattered, whatever the index and its wrap |
| BatchAgreement.AloneAgrees | crates/zetmq-core/src/broker/core.rs:299-312 | a group of one is |
| BatchAgreement.BatchIsOneByOne | crates/zetmq-core/src/broker/core.rs:205-352 | so a subscription outside groups, or in a group that agrees, gets the same sequence either way |
| BatchAgreement.BatchIsOneByOneIff | crates/zetmq-core/src/broker/core.rs:205-352 | and a batch is its items one by one for everybody if and only if every group agrees |
| BatchAgreement.PairGetsTwice | crates/zetmq-core/src/broker/core.rs:299-312 | a group of two and one item: the batch gives it to both members, the publish to one |
| BatchLaws.BatchConserves | crates/zetmq-core/src/broker/core.rs:220-351 | for every handle behaviour and flush order, delivered plus dropped grows by the number of matched subscriptions summed over the items |
| BatchLaws.SharedChannelAcceptsTheSame | crates/zetmq-core/src/delivery.rs:33-42 | behind one bounded channel with f free slots exactly min(f, total) are accepted, batched or one by one |
| Delivery.FlushBounded | crates/zetmq-server/src/session/handler.rs:390-397 | stopping at the first refusal loses nothing: a full channel stays full |
| Delivery.FlushAccepting | crates/zetmq-core/src/delivery.rs:33-42 | with an accepting handle a batch is its messages one by one |
| BrokerCore.SubscriptionRegistry.Add | crates/zetmq-core/src/subscription/registry.rs:28-52 | registry, connection list and router after an add |
| BrokerCore.SubscriptionRegistry.Remove | crates/zetmq-core/src/subscription/registry.rs:54-61 | registry, connection list and router after a remove |
| BrokerCore.SubscriptionRegistry.RemoveAllForConnection | crates/zetmq-core/src/subscription/registry.rs:63-78 | everything of a connection leaves registry and router; the records come back in order |
| BrokerCore.SubscriptionRegistry.CountForConnection | crates/zetmq-core/src/subscription/registry.rs:102-107 | the count is the number of live subscriptions of the connection |
| BrokerCore.Core.Subscribe | crates/zetmq-core/src/broker/core.rs:104-142 | the broker after a subscribe is the specified one, and consistent; the new id has the connection, pattern, group and handle given, every other subscription stays |
| BrokerCore.Core.Unsubscribe | crates/zetmq-core/src/broker/core.rs:144-154 | the same for unsubscribe: that id goes from the registry and no other |
| BrokerCore.Core.RemoveConnection | crates/zetmq-core/src/broker/core.rs:474-498 | the same for remove_connection: emptied groups go with their interned key |
| BrokerCore.Core.DeliverQueueGroup | crates/zetmq-core/src/broker/core.rs:409-434 | the member the counter points at gets the message and the counter moves on |
| BrokerCore.Core.DeliverMatches | crates/zetmq-core/src/broker/core.rs:354-407 | one selection per run, then the fan-out |
| BrokerCore.Core.Publish | crates/zetmq-core/src/broker/core.rs:156-163 | a publish does what the specification says, in state, log and counters |
| BrokerCore.Core.PublishWithStr | crates/zetmq-core/src/broker/core.rs:165-200 | so does a publish by text, and the broker stays consistent |
| BrokerCore.Core.ParseText | crates/zetmq-core/src/broker/core.rs:60-69 | the cached parse answers what the parser does: a subject if and only if some valid one has the trimmed text, and then that one |
| BrokerCore.Core.PublishBatch | crates/zetmq-core/src/broker/core.rs:205-352 | single-subscriber shortcut, last-subject cache and subscriber cache included, a batch does what the specification says for the order the pending map was flushed in, and the broker stays consistent |
| Coverage.IsPatternCovered | crates/zetmq-server/src/session/auth.rs:88-119 | the loop answers true exactly for inclusion of what the patterns match, short of requests that match nothing |
| Coverage.CoverageIsSound | crates/zetmq-server/src/session/auth.rs:88-119 | whatever the request matches, a covering pattern matches |
| Coverage.CoverageIsComplete | crates/zetmq-server/src/session/auth.rs:88-119 | a refused request has a witness: tokens it matches and the permission does not |
| Coverage.CoverageDecides | crates/zetmq-server/src/session/auth.rs:88-119 | inclusion holds if and only if the walk says so or the request matches nothing |
| Coverage.DeadLiteralIsRefused | crates/zetmq-server/src/session/auth.rs:88-119 | such a request: the valid pattern `a*b` matches nothing, so lies in every permission, and is refused |
| Coverage.SubscribePermissionIsSound | crates/zetmq-server/src/session/auth.rs:65-77 | nothing a permitted subscription can receive lies outside the permissions |
| Coverage.PublishAllowedIff | crates/zetmq-server/src/session/auth.rs:51-56 | publishing is allowed if and only if there are no permissions or one of them matches the subject token by token |
| Coverage.MayPublish | crates/zetmq-server/src/session/auth.rs:51-56 | the loop over the permissions decides that |
| Coverage.MaySubscribe | crates/zetmq-server/src/session/auth.rs:65-77 | the loop over the permissions decides `can_subscribe`, and what it allows matches only what some permission matches |
| Coverage.LiteralPermissionsAgree | crates/zetmq-server/src/session/auth.rs:51-77 | subscribing to a subject literally is allowed if and only if publishing to it is |
| Coverage.UnionNeedsNoSplit | crates/zetmq-server/src/session/auth.rs:65-77 | for a request without `>`, the permissions together hold its subjects if and only if one of them covers it |
| Coverage.UnionOfMulti | crates/zetmq-server/src/session/auth.rs:65-77 | for a request ending in `>`, they do if and only if each expansion by stars, up to the length of the longest permission, is covered by some permission |
| Coverage.SubscribeIsRightIff | crates/zetmq-server/src/session/auth.rs:65-77 | for every valid request `can_subscribe` agrees with what the permissions together hold, except exactly when they hold it and no single one covers it: a request ending in `>` all of whose bounded expansions are covered, or one that matches nothing |
| Coverage.SplitPermissionsAreRefused | crates/zetmq-server/src/session/auth.rs:65-77 | so the valid permissions `*` and `*.>` together allow `>`, which is refused |
| Streams.RetainIsLongest | crates/zetmq-store/src/stream.rs:167-195 | the three loops keep the longest suffix within age, count and bytes-or-one-message |
| Streams.RunTracksHistory | crates/zetmq-store/src/stream.rs:116-143 | under any clock what is retained is a suffix of everything stored, and all four counters are exact |
| Streams.RunKeepsLongest | crates/zetmq-store/src/stream.rs:116-203 | under a clock that does not go back, it is the longest suffix of everything ever stored that meets the limits now |
| Streams.ReadReturnsHistory | crates/zetmq-store/src/stream.rs:146-152 | `read` returns the history entry with that number while it is retained, otherwise nothing |
| Streams.ReadRangeReturnsHistory | crates/zetmq-store/src/stream.rs:155-164 | `read_range` returns the retained part of the range, in order |
| Streams.RunReads | crates/zetmq-store/src/stream.rs:116-152 | number k reads the k-th message stored, its sequence, time, subject, reply, payload and headers all as given, if and only if it is retained |
| Streams.StoredReadsBack | crates/zetmq-store/src/stream.rs:116-152 | a message that survives its own store reads back as given, field by field |
| Streams.FirstSeqNeverDecreases | crates/zetmq-store/src/stream.rs:197-203 | retention only moves forward |
| Streams.AgeStageIsRightIff | crates/zetmq-store/src/stream.rs:171-180 | the age loop drops exactly the old messages if and only if the cutoff does not wrap or the oldest message survives the wrapped one |
| Streams.AgeBeforeEpochEmptiesIff | crates/zetmq-store/src/stream.rs:171-180 | an age limit reaching before the epoch empties the stream instead of dropping nothing |
| StreamClass.Stream.Append | crates/zetmq-store/src/stream.rs:116-143 | the stream after a store is the specified one, its counters exact; the message just stored, if retained, reads back as given, field by field |
| StreamClass.Stream.ApplyRetention | crates/zetmq-store/src/stream.rs:167-195 | the three loops compute the specified retention |
| StreamClass.Stream.RemoveFront | crates/zetmq-store/src/stream.rs:197-203 | one message goes, counters exact |
| StreamClass.Stream.ReadOne | crates/zetmq-store/src/stream.rs:146-152 | index arithmetic computes the specified read |
| StreamClass.Stream.ReadMany | crates/zetmq-store/src/stream.rs:155-164 | skip and take compute the specified range |
| Consumers.KeysCollideIff | crates/zetmq-store/src/consumer.rs:228-230 | two consumers have one key if and only if they are the same, or one stream name runs on past a colon into the other's consumer name |
| Consumers.CreateRefusedIff | crates/zetmq-store/src/consumer.rs:153-167 | creating one consumer refuses a new other one if and only if they are the same or collide so |
| Consumers.KeyInjective | crates/zetmq-store/src/consumer.rs:228-230 | so the key determines stream and name when stream names hold no colon |
| Consumers.ColonsCollide | crates/zetmq-store/src/consumer.rs:228-230 | and with a colon, creating one consumer can refuse another of a different stream |
| ConsumerRuns.PerformKeepsInv | crates/zetmq-store/src/consumer.rs:153-226 | every operation keeps streams, cursors and the ledger of what callers saw in agreement |
| ConsumerRuns.HandedIsAStretch | crates/zetmq-store/src/consumer.rs:191-214 | over every run, the messages handed to a consumer are the stretch of the history from its start sequence: no gap, no repetition |
| ConsumerRuns.CountersAreExact | crates/zetmq-store/src/consumer.rs:99-125 | pending is delivered minus acknowledged, its count its size, delivered = acked + pending, and a bound is never exceeded |
| ConsumerRuns.NextDelivers | crates/zetmq-store/src/consumer.rs:202-213 | a consumer is handed the message at its cursor if and only if it is not held back and the stream still has it |
| ConsumerRuns.AckAcceptedIff | crates/zetmq-store/src/consumer.rs:111-119 | after every run an acknowledgement is accepted if and only if the consumer exists, was handed a message with that number and had no acknowledgement of it accepted |
| ConsumerRuns.LappedForever | crates/zetmq-store/src/consumer.rs:206-213 | once retention has passed the cursor, no run without deletions ever hands the consumer another message |
| ConsumerRuns.TooEarlyIsNeverServed | crates/zetmq-store/src/consumer.rs:74-88 | so a consumer created to start before what is retained is never served |
| ConsumerHistory.PoliciesStartRight | crates/zetmq-store/src/consumer.rs:74-214 | over every legal run after its creation a consumer was handed, without a gap: with `All` the messages from number 1 on, with `Last` from the last one stored at its creation on or from 1, with `New` those stored after its creation from the first of them on, with `ByStartSequence(k)` those from number k on |
| ConsumerHistory.NewIsNew | crates/zetmq-store/src/consumer.rs:74-214 | so over a run from the empty store the i-th message a `New` consumer got is the i-th given to its stream after its creation |
| ConsumerHistory.HandedAsStored | crates/zetmq-store/src/consumer.rs:191-214 | every message handed out is one that was stored in the stream, its number, time, subject, reply, payload and headers as given |
| ConsumerHistory.RunsReadBack | crates/zetmq-store/src/memory.rs:62-94 | the same of every read from the store, which succeeds if and only if the number is retained |
| ConsumerHistory.StreamsAreRuns | crates/zetmq-store/src/memory.rs:23-75 | read off the calls alone: after every legal run each stream is what storing its messages under the limits it was made with gives, whatever consumers did in between |
| ConsumerHistory.AccountsAre | crates/zetmq-store/src/consumer.rs:153-175 | and the consumers there are exactly those created on an existing stream and not deleted |
| ConsumerHistory.RepliesAre | crates/zetmq-store/src/consumer.rs:153-225 | and which error, or which number, every call is answered with |
| ConsumerHistory.FailedReads | crates/zetmq-store/src/memory.rs:78-94 | a read fails with the stream's name if and only if the stream was never made, otherwise with the number asked for and the last one |
| ConsumerHistory.DeletedStream | crates/zetmq-store/src/memory.rs:39-43 | deleting a stream forgets its messages and touches no other; its consumers stay, are handed nothing, and go on at their old cursor when it is made again |
| ConsumerHistory.PendingTimes | crates/zetmq-store/src/consumer.rs:99-119 | a request notes the time for the message it hands out and for no other, an acknowledgement strikes out its own number and no other |
| ConsumerService.CanGetIff | crates/zetmq-store/src/consumer.rs:191-225 | requests and acknowledgements can get a consumer exactly the stretches of the history that begin at its cursor, any length, and nothing once retention has passed the cursor |
| ConsumerService.ServableIff | crates/zetmq-store/src/consumer.rs:191-225 | some run that does not delete it hands a consumer another message if and only if retention has not passed its cursor |
| ConsumerService.StartIsServedIff | crates/zetmq-store/src/consumer.rs:74-88 | a new consumer can ever be served if and only if, policy by policy, the message it is to start with is retained or yet to come: number 1, the last one, the next one, or the one named |
| ConsumerService.FirstAnswer | crates/zetmq-store/src/consumer.rs:74-214 | and its first request is answered with the message of that number if it is there, with nothing otherwise |
| ConsumerService.AllStartsAtFirstIff | crates/zetmq-store/src/consumer.rs:12-13 | so with `All` it gets the first message ever stored, or anything at all, if and only if that one is retained |
| ConsumerService.LastIsOnlyIff | crates/zetmq-store/src/consumer.rs:14-15 | after any run, by asking, a consumer gets only the message it started with, the last one for `Last`, if and only if it has not got more already and nothing was stored since or retention passed its cursor |
| ConsumerService.NeverAckingIsServedIff | crates/zetmq-store/src/consumer.rs:26-27 | after any run a consumer that acknowledged nothing is handed the message at its cursor if and only if it has no bound or was handed fewer than the bound |
| ConsumerExamples.AllGetsNothing | crates/zetmq-store/src/consumer.rs:12-13 | a stream that keeps one of two messages: a consumer of all gets nothing, then or ever |
| ConsumerExamples.LastGetsMore | crates/zetmq-store/src/consumer.rs:14-15 | a run in which a consumer of only the last message is handed two |
| ConsumerExamples.NoAckHeldBack | crates/zetmq-store/src/consumer.rs:26-27 | a run in which a consumer that need not acknowledge is refused a message for want of one |
| ConsumerPolicies.SettingsChangeNothing | crates/zetmq-store/src/consumer.rs:99-214 | two runs that differ only in acknowledgement policies and subject filters get the same replies, hand out and acknowledge the same messages and leave the same ones pending |
| ConsumerPolicies.AckClearsEarlierIff | crates/zetmq-store/src/consumer.rs:31-32 | whatever the policy, an accepted acknowledgement leaves nothing pending up to its number if and only if every earlier number handed out was acknowledged before |
| ConsumerPolicies.FilterKeptIff | crates/zetmq-store/src/consumer.rs:41-42 | after any run, whatever the filter, everything a consumer was handed or can get by asking meets it if and only if every message stored from its start on does, up to where retention overtook it |
| ConsumerExamples.PromisesBroken | crates/zetmq-store/src/consumer.rs:31-42 | a run with a consumer that acknowledges all and filters: an earlier message stays pending, and nothing it was handed meets the filter |
| StoreClasses.MemoryStore.CreateStream | crates/zetmq-store/src/memory.rs:23-36 | a new stream, or an error when it exists |
| StoreClasses.MemoryStore.DeleteStream | crates/zetmq-store/src/memory.rs:39-43 | the named stream goes and no other |
| StoreClasses.MemoryStore.StoreMessage | crates/zetmq-store/src/memory.rs:62-75 | the stream's new value and the number, the stream made with default limits when absent; the message, if retained, reads back under that number as given, field by field |
| StoreClasses.MemoryStore.ReadOne | crates/zetmq-store/src/memory.rs:78-94 | the message, or the error that names what is missing |
| StoreClasses.Consumer.Record | crates/zetmq-store/src/consumer.rs:99-108 | the cursor after a delivery: whatever account of handed and acknowledged messages it balanced with, it balances with once this message is added |
| StoreClasses.Consumer.Ack | crates/zetmq-store/src/consumer.rs:111-119 | accepted if and only if handed out and not yet acknowledged, and then the cursor balances with the account that has this acknowledgement |
| StoreClasses.ConsumerManager.Create | crates/zetmq-store/src/consumer.rs:153-167 | a consumer whose cursor stands, policy by policy, at 1, at the last number or 1, at the next number, or at the one named; or an error for a missing stream or a taken key |
| StoreClasses.ConsumerManager.Delete | crates/zetmq-store/src/consumer.rs:169-175 | the named consumer goes and no other, and asking for it is an error from then on |
| StoreClasses.ConsumerManager.Next | crates/zetmq-store/src/consumer.rs:191-214 | the specified answer, delivery recorded only when there is a message |
| StoreClasses.ConsumerManager.Acknowledged | crates/zetmq-store/src/consumer.rs:217-225 | the specified answer to an acknowledgement |
| Segments.ScanOneEncoded | crates/zetmq-store/src/segment.rs:163-218 | one pass over an encoded record, the file ending anywhere, finds it exactly when its lengths are there |
| Segments.ReopenCut | crates/zetmq-store/src/segment.rs:159-222 | for a file cut at any byte every complete record is indexed, one more if and only if the cut falls inside a payload, and the cursor ends where the next append notes its offset only then or at a boundary |
| SegmentLaws.AppendKeepsLogIff | crates/zetmq-store/src/segment.rs:63-107 | an append adds its record to the log if and only if the cursor stands at the end of what was written |
| SegmentLaws.ReadReturns | crates/zetmq-store/src/segment.rs:110-138 | every record is read back as appended, an empty reply as none, and the cursor moves behind it |
| SegmentLaws.ReadOutside | crates/zetmq-store/src/segment.rs:110-118 | numbers outside the segment read nothing and move nothing |
| SegmentLaws.FailedReadStopsAtEnd | crates/zetmq-store/src/segment.rs:110-138 | a read that fails was of an indexed number and leaves the cursor at the end of the file, or where the record was to start beyond it |
| SegmentLaws.AppendAfterReadIff | crates/zetmq-store/src/segment.rs:100-129 | an append right after reading a record keeps the log if and only if that record was the last |
| SegmentRuns.RunIsLogIff | crates/zetmq-store/src/segment.rs:63-138 | over any run of appends and reads the segment is the log of its messages if and only if every append was made with no record read since the one before it, or with the last record read last |
| SegmentLaws.RunIsLog | crates/zetmq-store/src/segment.rs:63-107 | a run of appends with no read in between is a log of its messages |
| SegmentLaws.ReopenRun | crates/zetmq-store/src/segment.rs:159-222 | reopening its file restores index, size and cursor exactly |
| SegmentLaws.RunReadsBack | crates/zetmq-store/src/segment.rs:110-138 | and every message can then be read |
| SegmentLaws.AppendAfterCutIff | crates/zetmq-store/src/segment.rs:63-222 | after reopening a cut file the next append continues the log if and only if the cut was at a record boundary |
| SegmentLaws.CutPayloadFails | crates/zetmq-store/src/segment.rs:110-222 | the extra entry of a cut payload reads as an I/O error |
| SegmentLaws.CutPayloadComesBackZeroed | crates/zetmq-store/src/segment.rs:63-222 | the first append fills the gap with zeros: the segment is then a log in which the cut record is back, readable, with zeros for the bytes it lost |
| SegmentClass.SegmentLog.AppendMessage | crates/zetmq-store/src/segment.rs:63-107 | file, cursor, index and size after an append |
| SegmentClass.SegmentLog.ReadMessage | crates/zetmq-store/src/segment.rs:110-138 | the specified answer and cursor, errors included |
| SegmentClass.SegmentLog.RebuildIndex | crates/zetmq-store/src/segment.rs:159-222 | the scanning loop computes the specified index, size and cursor |
| SegmentClass.SegmentLog.constructor | crates/zetmq-store/src/segment.rs:37-60 | opening a file gives the specified segment, scanned when there is anything in it |
| Frames.DecodeEncode | crates/zetmq-protocol/src/frame/frame.rs:47-100 | an encoded frame decodes to itself and leaves what follows |
| Frames.EncodeDecode | crates/zetmq-protocol/src/frame/frame.rs:53-100 | whatever is decoded is well formed and the buffer began with exactly its encoding |
| Frames.HeaderReadsBack | crates/zetmq-protocol/src/frame/header.rs:39-85 | every field of an encoded header is read back |
| Frames.CutIsIncomplete | crates/zetmq-protocol/src/frame/frame.rs:57-75 | a frame cut anywhere before its end is incomplete |
| Frames.TooLargeIsRefused | crates/zetmq-protocol/src/frame/frame.rs:66-71 | a frame over the limit is refused as soon as its header is there, with its size, and stays in the buffer |
| Frames.ForeignIsRefused | crates/zetmq-protocol/src/frame/frame.rs:73-82 | a complete frame with another magic or version is refused for that, and taken off the buffer |
| Frames.DecodeStable | crates/zetmq-protocol/src/frame/frame.rs:53-100 | a decision once taken does not change when more bytes arrive |
| Frames.ChunkingIsInvisible | crates/zetmq-protocol/src/frame/frame.rs:53-100 | any accepted stream in any chunks yields the frames and the rest it yields at once |
| Frames.AnyChunkingDecodes | crates/zetmq-protocol/src/frame/frame.rs:47-100 | the encodings of well-formed frames, cut anywhere, come out as exactly those frames; the buffer ends with what follows them |
| FrameBuffer.Buffer.EncodeInto | crates/zetmq-protocol/src/frame/frame.rs:47-51 | the buffer grows by the frame's encoding |
| FrameBuffer.Buffer.DecodeFrom | crates/zetmq-protocol/src/frame/frame.rs:53-100 | the in-place decoder answers and leaves what the specification says; incomplete leaves the buffer unchanged |
| FrameBuffer.Buffer.DrainFrames | crates/zetmq-client/src/connection.rs:321-330 | the reader's loop takes off the specified frames |
| Headers.HeadersReadBack | crates/zetmq-protocol/src/headers.rs:9-61 | whatever order the map was iterated in, decoding gives it back |
| Headers.CutSectionFails | crates/zetmq-protocol/src/headers.rs:22-61 | a header section cut anywhere behind its count is an error, cut before that an empty map |
| Headers.OrdersSameSize | crates/zetmq-protocol/src/headers.rs:64-70 | two orders of one map take the same space |
| Headers.EncodedHeadersLen | crates/zetmq-protocol/src/headers.rs:64-70 | the announced length is that of the encoding in every order |
| Headers.EncodeHeadersInto | crates/zetmq-protocol/src/headers.rs:9-19 | the buffer grows by the encoding of the map in some order |
| Headers.DecodeHeadersFrom | crates/zetmq-protocol/src/headers.rs:22-61 | the decoding loop computes the specified map or error |
| Commands.PathsCompared | crates/zetmq-server/src/session/handler.rs:85-328 | the PUB fast path and the general path wait together and refuse the same frames alike; on accepted frames they agree when the reply field is whole, else the fast path faults |
| Commands.FastPathIsGeneral | crates/zetmq-server/src/session/handler.rs:301-328 | whatever the fast path publishes the general path publishes: subject, reply, payload, headers, correlation id and remaining bytes |
| Commands.FastPathMissesIff | crates/zetmq-protocol/src/command/mod.rs:54-104 | of what the general path publishes the fast path misses exactly the missing and the truncated replies |
| Commands.IncompleteReplyIsDropped | crates/zetmq-protocol/src/command/mod.rs:69-89 | there the general path takes the message without a reply and the rest of the field as data |
| Commands.ParsesIffComplete | crates/zetmq-server/src/session/handler.rs:186-216 | the strict payload parser succeeds if and only if the reply field is whole |
| Commands.TotalsAgree | crates/zetmq-server/src/session/handler.rs:143-184 | `peek_pub_frame_total` answers what the layout says, error for error |
| Messages.PublishReadsBack | crates/zetmq-client/src/client.rs:247-268 | what a client publishes the server reads by either path |
| Messages.MissingReplySplitsThePaths | crates/zetmq-server/src/session/handler.rs:198-202 | a PUB that stops after the subject: taken by the general path, refused by the fast one |
| Messages.CutHeadersAreRefused | crates/zetmq-server/src/session/handler.rs:85-328 | a PUB whose header section was cut behind its count is refused by either path |
| Messages.SubReadsBackIff | crates/zetmq-protocol/src/command/mod.rs:105-135 | a SUB is read as written if and only if pattern and group fit one length byte and the group is not empty |
| Messages.SubGroupIs | crates/zetmq-protocol/src/command/mod.rs:105-135 | a group behind its length byte is taken if it is all there, dropped if empty or cut short; a SUB cut inside its pattern is refused |
| Messages.MsgReadsBack | crates/zetmq-client/src/connection.rs:400-461 | what the server encodes the client decodes: subject, reply, subscription id, payload and header map, for every map order; the frame header is that of a version 1 MSG with the subscription as correlation id and the true lengths |
| Messages.CutReplyPanicsIff | crates/zetmq-client/src/connection.rs:400-461 | a MSG that announces a reply panics the client's decoder if and only if the payload ends inside the reply |
| Messages.EncodeMsgInto | crates/zetmq-server/src/session/handler.rs:401-433 | the buffer grows by a MSG frame whose announced lengths are those of what is written |
| Session.PassShrinks | crates/zetmq-server/src/session/handler.rs:546-730 | every pass of the inner loop that goes on shrinks the read buffer by at least a frame header |
| Session.LoopIsBounded | crates/zetmq-server/src/session/handler.rs:546-730 | so the loop makes at most one pass for every 22 bytes, and one more |
| Session.LoopLeavesIncomplete | crates/zetmq-server/src/session/handler.rs:600-712 | it ends on an incomplete frame, or on the pass that refused a CONNECT |
| Session.EndsTheLoopIff | crates/zetmq-server/src/session/handler.rs:600-712 | a refused CONNECT is the last frame the loop decodes, connected or not, and no other decoded frame is the last |
| Session.RefusalClears | crates/zetmq-server/src/session/handler.rs:546-730 | a pass that fails ends with an empty buffer, the connection state unchanged and the loop going on; a frame the codec refuses fails it with the codec's error |
| SessionRuns.SessionPublishesInOrder | crates/zetmq-server/src/session/handler.rs:496-730 | a session handles the frames of a stream, read in any chunks, once each and in order whatever the batch limits cut: each PUB published, counted or refused by id under the conditions of the pass that took it, every other frame decoded; the rest is still in the buffer, and is one incomplete frame unless the last pass refused a CONNECT |
| SessionRuns.PassTakesUpTo | crates/zetmq-server/src/session/handler.rs:252-372 | a pass of a connected session takes the PUBs at the front of its buffer up to 128 of them, or 1024 when nobody subscribes, and leaves the rest |
| SessionRuns.MalformedLosesIff | crates/zetmq-server/src/session/handler.rs:252-372 | PUBs in front of a malformed one are lost with it, neither published nor counted, if and only if they are fewer than that limit; those not permitted are refused all the same |
| SessionClass.ReadLoop.TakePublishBatch | crates/zetmq-server/src/session/handler.rs:330-372 | the batch loop takes what the specification says off the buffer |
| SessionClass.ReadLoop.CountPublishBatch | crates/zetmq-server/src/session/handler.rs:252-299 | so does the loop for a broker without subscribers |
| SessionClass.ReadLoop.ProcessFrames | crates/zetmq-server/src/session/handler.rs:546-730 | the inner loop terminates and leaves the specified state and events |
| SessionClass.ReadLoop.ServeReads | crates/zetmq-server/src/session/handler.rs:496-730 | so does the outer loop over any reads, so what is proved of whole sessions holds of it |

## Left out

- TCP and TLS, read and write tasks, heartbeats, drain timers, channels beyond a bounded queue: I/O and scheduling.
- Admin server, configuration, command line, logging, benchmarks: plumbing.
- CONNECT authentication and the stream commands' codecs: fixed layouts and single checks; in `Session` the effect of a decoded frame is an arbitrary function.
- Client reconnect, flush and inboxes: they depend on timeouts and randomness.
- The `active_connections` metric: it is decremented on every close but incremented per accepted CONNECT, so no balance holds.
- UTF-8 validation and lossy replacement: text is taken as valid, so both are the identity; its encoded length is modelled where a limit is on bytes.
- Wrap-around of 64-bit counters and ids (sequence numbers, subscription ids, metrics): taken as unbounded, except the round-robin index and the retention cutoff, whose wrap-around is modelled.
- SessionRuns.SessionPublishesInOrder: not for streams with a malformed frame, where the loop clears its buffer; `RefusalClears` and `MalformedLosesIff` say what one pass then does, and nothing is claimed about the reads after it.
- Concurrency of whole broker and store calls: each call is one step, except the routing flag, which `FlagRace` splits at its lock and atomic boundaries.
- Tries.SubjectTrie.Insert: the nodes are owned values rebuilt along the path, so updating a node in place is not modelled.
- StoreClasses.ConsumerManager.Create: the stream's last number is read in the same step as the consumer is added; a store in between is not modelled.
