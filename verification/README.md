# Verified model of the Ditto subnet contracts and operator scripts

This Dafny project models the parts of the repository whose correctness spans whole runs,
whole documents or whole graphs, and proves what they promise:

- **Canonical JSON** (`Text`, `Utf8`, `Json`, `JsonCodec`, `JsonGrammar`, `JsonReads`, `JsonRoundTrip`,
  `JsonSeparators`, `JsonTheorems`): the encoder, the strict decoder down to UTF-8 bytes, and the two
  nesting checks. The grammar of RFC 8259 is written as syntax trees with a spelling and a meaning;
  the decoder is proved to read exactly these, and the other results follow from that.
- **Inference receipts, settlements and evidence** (`InferenceReceipts`, `ReceiptShape`,
  `Settlements`, `ModelEvidence`): the retry/complete/fail protocol of a receipt set, one checker
  implying another, and conservation of tokens and cost.
- **Coding evidence** (`GraderChain`, `RunEvidence`): the hash chain of grading receipts and the
  replay of run evidence against its manifest.
- **Key ceremony** (`DurableFiles`, `Ceremony`, `Crc32c`): a crash-prone, lock-protected protocol
  over a directory and a remote secret, and the CRC-32C loop.
- **Release graph** (`ReleaseGraph`, `ReleaseSelection`): cycle detection, selection, root gate.
- **Control loops** (`WorkerStories`, `ManualWorker`, `CustodyPlans`, `CanaryReceipt`): what every
  iteration does and keeps, phase progress over chains of plans, an atomic file commit.
- **Claim messages** (`ClaimMessages`): unambiguous signed bytes.

`dafny verify dfyconfig.toml` checks everything.

Conventions: an exception is a `None`, an `Err` or a refusing verdict. Hashes, address derivation
and `fnmatch` are function parameters; no property of them is assumed unless a lemma says so in
its `requires`. Calls to the mailbox, the archive, the cloud and the operating system answer
arbitrarily. Strings that the code orders or encodes are sequences of code points (`Text`), other
strings are compared only. A JSON object is a map, so equality of values is equality of dicts.

Two properties hold only under a condition, which is proved to be exact. The builders of the claim
messages check no field for NUL: a message is unambiguous exactly when its hotkey and its instance
have none, which the request validators ensure (`UnambiguousIffNulFree`, `MessagesUnambiguous`).
The custody fence checks phases only in plans with custody enabled: the mailbox and RPC egress can
open before the fourth plan of a chain exactly when some plan has custody disabled, for the mailbox
any plan up to the one that opens it, for RPC egress an earlier one (`MailboxOpensIff`,
`RpcOpensIff`, `NoEarlyAuthority`).

## Model

| member | source | states |
|---|---|---|
| Text.SortedKeysSorted | ditto/api_models/coding_inference.py:355-355 | the keys of an object are written each once and in ascending code-point order |
| Utf8.DecodeEncode | ditto/api_models/coding_inference.py:298-298 | strict UTF-8 decoding undoes encoding for every surrogate-free text |
| Utf8.EncodeDecode | ditto/api_models/coding_inference.py:363-363 | bytes that decode at all are exactly the encoding of what they decode to |
| Json.DepthAndUnicodeMeaning | ditto/api_models/coding_inference.py:127-151 | the recursive check accepts exactly the values with no node deeper than 32 (by path length) and only Unicode strings and keys |
| Json.StackDepthCheck | ditto/api_models/coding.py:1956-1964 | the explicit-stack loop terminates and accepts exactly the values with no node deeper than 32, the same verdict on depth |
| JsonCodec.FillUniqueObject | ditto/api_models/coding_inference.py:190-196 | the dict-filling loop refuses exactly the pair lists with a repeated key, and otherwise holds every key with its value and nothing else |
| JsonReads.ReadDocument | ditto/api_models/coding_inference.py:290-309 | every document of the grammar, in any spelling, is read as it is meant, or refused when it has a negative zero, an integer beyond the digit limit or a field twice |
| JsonReads.ReadsExactlyTheGrammar | ditto/api_models/coding_inference.py:290-309 | the decoder accepts exactly the texts that spell an admitted syntax tree, and returns its meaning |
| JsonReads.RepeatedFieldRefused | ditto/api_models/coding_inference.py:190-196 | an object that names a field twice is refused, however the two keys are spelled and whatever stands between and around them |
| JsonRoundTrip.ParseEncoded | ditto/api_models/coding_inference.py:350-359 | in front of any delimiting text, the parser reads an encoded value back and stops right after it, or refuses it when an integer is too long |
| JsonSeparators.EscapingKeepsMeaning | ditto/api_models/coding_inference.py:361-362 | for every text that decodes, encoder output or not, escaping raw U+2028 and U+2029 leaves the decoded value unchanged |
| JsonTheorems.EscapingEncodedText | ditto/api_models/coding_inference.py:349-362 | escaping the separators in what the encoder wrote changes nothing a decoder makes of it, refusals included |
| JsonTheorems.CanonicalTextIsOneLine | ditto/api_models/coding_inference.py:349-364 | a canonical document holds no control character, U+2028 or U+2029 and ends in its only newline |
| JsonTheorems.CanonicalRoundTrip | ditto/api_models/coding_inference.py:333-369 | decoding canonical bytes gives the value back exactly when its integers have at most 100 digits, and refuses them otherwise |
| JsonTheorems.CanonicalBytesInjective | ditto/api_models/coding_inference.py:333-369 | equal canonical bytes mean equal values, with no bound on integers |
| JsonTheorems.DecodesExactly | ditto/api_models/coding_inference.py:290-309 | which bytes are accepted and as what: the UTF-8 encodings, within the size bound, of admitted spellings that pass the depth check |
| JsonTheorems.DecodedValuesRoundTrip | ditto/api_models/coding_inference.py:290-309 | whatever its spelling, an accepted document and its canonical form decode to the same value |
| InferenceReceipts.ReceiptOrderIsCoherent | ditto/api_models/coding_inference.py:916-968 | the loop over the dict and two sets accepts exactly the sets that are numbered, chained, consistent in request ids, free of reused settlements and generations, and not ended by a retry |
| ReceiptShape.AcceptedIffBlocks | ditto/api_models/coding_inference.py:916-968 | accepted sets are exactly those that split into contiguous blocks for requests 1..R with attempts 1..m, retries first, with request ids one-to-one with requests |
| ReceiptShape.AcceptedCounts | ditto/api_models/coding_inference.py:923-968 | one terminal receipt per request, as many as the last request sequence; only the last receipt can be a provider failure; retries are at most (max attempts - 1) per request |
| Settlements.SettledReceiptCoherent | ditto/api_models/coding_inference.py:1213-1345 | a receipt that agrees with an accepted settlement passes the receipt's own outcome check, with zero accounting for an unselected provider, and lies within the policy |
| Settlements.SettleableIffCoherent | ditto/api_models/coding_inference.py:744-831 | the receipts some accepted settlement agrees with are exactly the coherent receipts within the policy bounds |
| ModelEvidence.TotalCheckRedundant | ditto/api_models/coding_inference.py:1187-1195 | the total-token comparison can never be the one that fails |
| ModelEvidence.AggregateCoherent | ditto/api_models/coding_inference.py:1150-1196 | accepted aggregates are sums over terminal receipts alone, total is prompt plus completion, a terminal receipt exists, retries are bounded per request |
| ModelEvidence.EvidenceNeverIncoherent | ditto/api_models/coding_inference.py:1011-1031 | building the evidence record never fails its own validation, for any inputs |
| ModelEvidence.DerivedEvidence | ditto/api_models/coding_inference.py:1348-1491 | derived evidence passes its accounting check and the digest check; requests, totals, retries, status and receipt-set digest are those of the run |
| ModelEvidence.EvidenceConservesSettlements | ditto/api_models/coding_inference.py:1415-1454 | tokens and cost of the evidence equal the sums over the provider settlements |
| ModelEvidence.InvokedIff | ditto/api_models/coding_inference.py:1348-1454 | evidence of an invoked model is derived exactly when every receipt is backed by its settlement and the run stays within its budgets over terminal receipts; the other checks are implied |
| ModelEvidence.NotInvokedIff | ditto/api_models/coding_inference.py:1364-1397 | evidence of a model that was not invoked is derived exactly when the binding fits the policy and nothing was settled |
| ModelEvidence.SettlementsDetermineReceipts | ditto/api_models/coding_inference.py:1213-1345 | under one policy and binding the settlements determine the receipt set |
| ModelEvidence.ReceiptsDetermineSettlements | ditto/api_models/coding_inference.py:1213-1345 | one policy, binding and receipt set admits one list of settlements only, whatever the settlement digest is worth |
| ModelEvidence.EvidenceCommits | ditto/api_models/coding_inference.py:1348-1454 | unless policy or receipt-set digests collide, equal evidence means the same policy, binding, receipts and settlements |
| GraderChain.ExpectedFollowsPlan | ditto/api_models/coding.py:1876-1890 | the expected executions are the build if required and then the groups of the execution order, each with the command and total of the group of that name |
| GraderChain.ReceiptRoot | ditto/api_models/coding.py:1867-1915 | the replay returns the hash of the last receipt (or the initial root) exactly for lists that follow the plan, name one executor and link by hash |
| GraderChain.AcceptedIff | ditto/api_models/coding.py:1876-1913 | a chain is accepted exactly when every receipt is the execution the plan calls for at its place: phase, group, command id, command digest and total of the group of that name, sequence, executor and link |
| GraderChain.CommandsDistinct | ditto/api_models/coding.py:271-284 | no command runs twice in an accepted chain |
| GraderChain.PrefixAccepted | ditto/api_models/coding.py:1895-1915 | every prefix of an accepted list is accepted |
| GraderChain.SameRootOrBrokenHash | ditto/api_models/coding.py:1867-1915 | two different accepted lists with one root contain a hash collision or a receipt hashing to the initial root; nothing is assumed of the hash |
| GraderChain.RootDeterminesReceipts | ditto/api_models/coding.py:1867-1915 | without such a collision the root determines the whole list |
| RunEvidence.AggregateIsCoherent | ditto/api_models/coding.py:765-820 | the counting loop accepts exactly sorted, unique results with consistent scores, true counts and the floored share of resolved among scoreable results |
| RunEvidence.CountIsNumber | ditto/api_models/coding.py:773-809 | each count is the number of results with its domain |
| RunEvidence.CountsPartition | ditto/api_models/coding.py:773-809 | the six counts add up to the number of results, and the scoreable ones are all but infrastructure, invalid and control-plane results |
| RunEvidence.MeanIsFloor | ditto/api_models/coding.py:810-819 | the mean is the share of resolved among scoreable results rounded down to millionths, and one million exactly when all of them are resolved |
| RunEvidence.TaskAcceptedIff | ditto/api_models/coding.py:687-746 | which task evidence is accepted for a manifest and a ticket, field by field; only resolved evidence scores, and what it needs |
| RunEvidence.EvidenceCoversManifest | ditto/api_models/coding.py:2060-2077 | accepted per-task evidence is in bijection with the manifest: every lookup finds the evidence of exactly that manifest entry |
| RunEvidence.ValidateRunEvidence | ditto/api_models/coding.py:2032-2085 | the replay accepts exactly when every check holds, and its missing-evidence branch is unreachable |
| RunEvidence.AcceptedRunIsDetermined | ditto/api_models/coding.py:2032-2085 | the accepted run evidence is exactly the one computed from manifest, ticket and per-task evidence |
| RunEvidence.ScoreIsEarned | ditto/api_models/coding.py:659-722 | every positive score of an accepted run rests on named evidence with an intact repair, a passed build if required, all tests of all five groups, an unchanged grader and a receipt for every execution |
| RunEvidence.AtMostOneRun | ditto/api_models/coding.py:2032-2085 | no two different run evidences are accepted for the same inputs |
| RunEvidence.AcceptanceIgnoresOrder | ditto/api_models/coding.py:2065-2085 | permuting the per-task evidence does not change acceptance |
| Ceremony.NextKeepsInv | scripts/collector_delegate_key.py:188-260 | every step of every process, kill, late upload and power loss keeps the protocol invariant |
| Ceremony.AtMostOneUpload | scripts/collector_delegate_key.py:204-260 | over any interleaving, at most one key is ever generated and at most one upload is ever sent |
| Ceremony.IntentBeforeKey | scripts/collector_delegate_key.py:239-250 | once a key exists, no power loss can remove receipt.json |
| Ceremony.UploadIsReceipted | scripts/collector_delegate_key.py:251-260 | once an upload is sent, receipt.json holds, now and after any power loss, pending-upload or stored with exactly the uploaded key's address, which was not forbidden |
| Ceremony.StoredMeansLanded | scripts/collector_delegate_key.py:256-260 | a receipt marked stored, now or after any power loss, means that version 1 of the secret is the uploaded key |
| Ceremony.VerifiedIsUploaded | scripts/collector_delegate_key.py:217-232 | every verified receipt names the one uploaded key, whose address verify mode was not told to refuse, and version 1 always holds that key when verify mode reads it |
| Ceremony.VerifyExactly | scripts/collector_delegate_key.py:217-232 | from every reachable state with a free lock, an undisturbed verify run returns the receipt, pending-upload or stored, exactly when an upload was sent and landed and its address is not refused; nothing else changes |
| Ceremony.GenerateRefuses | scripts/collector_delegate_key.py:233-238 | generation on anything but a fresh directory and an empty secret changes nothing: no attempt is ever repeated |
| Ceremony.BusyRefuses | scripts/collector_delegate_key.py:213-216 | while the lock is held, a process of either mode ends without effect |
| Ceremony.CeremonyCompletes | scripts/collector_delegate_key.py:204-260 | from every reachable state without receipt, pending receipt and version, every acceptable key can be carried to a stored receipt |
| Crc32c.Crc32c | scripts/collector_delegate_key.py:43-49 | the nested loops compute the checksum function and never leave 32 bits |
| Crc32c.CheckValue | scripts/collector_delegate_key.py:43-49 | the checksum of the digits 1 to 9 is the published check value |
| Crc32c.FeedAppend | scripts/collector_delegate_key.py:45-48 | the running state composes over concatenation |
| Crc32c.FeedPacked | scripts/collector_delegate_key.py:45-48 | up to four bytes act as one XOR followed by bit shifts |
| Crc32c.BurstDetected | scripts/collector_delegate_key.py:43-49 | messages that differ only inside four consecutive bytes have different checksums |
| Crc32c.FiveBytesCollide | scripts/collector_delegate_key.py:43-49 | the bound is exact: around any context, five bytes with another first byte can be completed to the same checksum |
| ReleaseGraph.CycleCheck.Visit | scripts/release-plan.py:106-115 | a visit terminates; success leaves finished components closed under dependencies and cycle-free, refusal means a real cycle |
| ReleaseGraph.AssertAcyclic | scripts/release-plan.py:102-118 | the check passes exactly when no component leads to itself |
| ReleaseGraph.LoadComponents | scripts/release-plan.py:64-91 | the graph is accepted exactly when non-empty, every component has content, dependencies are known and acyclic |
| ReleaseSelection.SelectionPass | scripts/release-plan.py:166-172 | one pass marks only selected components; a pass without change leaves a set closed under dependents |
| ReleaseSelection.SelectComponents | scripts/release-plan.py:131-173 | in any iteration order, marks exactly the components that lead to a directly changed one, or refuses exactly when a path is unmapped |
| ReleaseSelection.SelectionIsLeast | scripts/release-plan.py:164-173 | the selection is the least set that contains what changed and is closed under dependents |
| ReleaseSelection.SelectionMeaning | scripts/release-plan.py:131-173 | down to paths and patterns: a change is refused exactly when one of its paths touches no component and matches no ignore rule, and a component is selected exactly when it leads to a touched one |
| ReleaseSelection.GateMeaning | scripts/release-plan.py:176-196 | when the full and contract gates are due, in terms of reachability and of the named components and files, and when the lookup of the validator stack fails |
| ReleaseSelection.GateOfUnion | scripts/release-plan.py:131-196 | the gate of a union of change sets is the stronger of the two gates, and the union is accounted for when both parts are |
| ReleaseSelection.GateMonotone | scripts/release-plan.py:176-196 | more changed paths never weaken the gate nor make its computation fail |
| CustodyPlans.StepByOne | scripts/check-collector-custody-plan.py:292-315 | along an accepted chain one plan moves a role by zero or one phase |
| CustodyPlans.PhasesAdvance | scripts/check-collector-custody-plan.py:275-315 | roles start at bootstrap, never go back, never skip, and stay sealed |
| CustodyPlans.ProgressionsAccepted | scripts/check-collector-custody-plan.py:275-315 | any two progressions that start at bootstrap and never go back or skip, each role at its own pace, are accepted |
| CustodyPlans.AuthorityIsReviewed | scripts/check-collector-custody-plan.py:117-139 | an accepted plan opens the mailbox only as its eight resources, each once, for the platform account, and RPC egress only as one reviewed rule; both with sealed roles |
| CustodyPlans.NoEarlyAuthority | scripts/check-collector-custody-plan.py:238-254 | RPC egress and the mailbox appear in the fourth plan at the earliest, with both roles sealed from then on |
| CustodyPlans.MailboxOpensIff | scripts/check-collector-custody-plan.py:117-129 | for every pattern of custody flags: some accepted gamma chain with these flags opens the mailbox in its last plan exactly when it has four plans or a plan with custody disabled |
| CustodyPlans.RpcOpensIff | scripts/check-collector-custody-plan.py:238-315 | likewise for RPC egress: exactly when the last plan has custody enabled and the chain has four plans or an earlier plan with custody disabled |
| ManualWorker.Worker.ConsumeQueued | scripts/treasury_manual_worker.py:23-64 | what one mailbox poll does: a request is released exactly when it failed or stayed pending |
| ManualWorker.Worker.RecentSweep | scripts/treasury_manual_worker.py:72-103 | the sweep observes a front part of the candidates not yet known, each after an empty poll, and ends at the eighth, at the last, at a failure or at a request |
| WorkerStories.QuietSweep | scripts/treasury_manual_worker.py:85-95 | without failure or request the sweep observes the first eight of what is to do, or all of it if that is less |
| WorkerStories.TodoMeans | scripts/treasury_manual_worker.py:85-87 | what is to do are the listed candidates that were neither proved nor probed |
| ManualWorker.Worker.CatchUpTurn | scripts/treasury_manual_worker.py:108-137 | one turn takes the smaller of eight and what is left, and catching up goes on exactly after a successful chunk that moved the cursor and left blocks |
| ManualWorker.Worker.ConsumeIteration | scripts/treasury_manual_worker.py:67-137 | the trace tells a complete story: at most one request, nothing observed after it, exact release, archive work within the budget, catching up as long as it is due; an exception leaves it exactly after a failed pull or cursor read outside the sweep |
| WorkerStories.IterationKeepsPromises | scripts/treasury_manual_worker.py:67-137 | every story keeps the promises of an iteration: at most one request with nothing observed after it, exact release, at most four chunks and 32 blocks, a poll for every archive observation |
| WorkerStories.CatchUpContinues | scripts/treasury_manual_worker.py:108-137 | around every chunk of every trace: its size is the smaller of eight and what is left of 32; if it succeeded, moved the cursor and left blocks, a poll comes next and after an empty poll another chunk unless the cursor cannot be read; otherwise the iteration ends |
| WorkerStories.QuietEnd | scripts/treasury_manual_worker.py:119-137 | without request and exception an iteration ends because a chunk failed, did not move the cursor or took the last block |
| WorkerStories.LeftAfter | scripts/treasury_manual_worker.py:107-109 | four chunks always exhaust the blocks, so the number of turns is never what ends catching up |
| CanaryReceipt.Directory.WriteAll | scripts/run-coding-executor-connectivity-canary.py:218-223 | for every schedule of short writes the loop terminates and the pieces concatenate to the encoding |
| CanaryReceipt.Directory.WriteReceipt | scripts/run-coding-executor-connectivity-canary.py:184-240 | refuses exactly what is not safe and otherwise commits exactly when no system call fails; at every point, and after any power loss there, the receipt path holds its previous content or the complete receipt; a commit is durable |
| ClaimMessages.UuidReads | ditto/api_models/coding_claims.py:207-215 | a UUID is written as its 32 digits in groups of 8, 4, 4, 4 and 12 |
| ClaimMessages.UuidTextInjective | ditto/api_models/coding_claims.py:207-215 | different UUIDs have different texts |
| ClaimMessages.UtcReads | ditto/api_models/coding_claims.py:214-214 | a timestamp is written with year, month, day, hour, minute, second and microseconds at fixed places |
| ClaimMessages.UtcTextInjective | ditto/api_models/coding_claims.py:214-214 | different timestamps have different texts |
| ClaimMessages.JoinInjective | ditto/api_models/coding_claims.py:217-217 | NUL-joined fields without NUL can be read back, their number included |
| ClaimMessages.DefinedIff | ditto/api_models/coding_claims.py:177-217 | the builders return a message exactly when run and ticket are not nil, the generation is a positive signed 32-bit number and hotkey and instance can be encoded |
| ClaimMessages.MessageDefined | ditto/api_models/coding_claims.py:177-217 | a validated request always has a message |
| ClaimMessages.MessageReads | ditto/api_models/coding_claims.py:134-217 | what a recipient reads: the bytes are UTF-8 that splits at NUL into the domain of the action, hotkey, instance, run, ticket and generation if any, nonce and time, in this order |
| ClaimMessages.MessagesUnambiguous | ditto/api_models/coding_claims.py:134-217 | equal messages mean equal action and equal signed fields |
| ClaimMessages.UnambiguousIffNulFree | ditto/api_models/coding_claims.py:134-217 | a message that the builders return belongs to one set of arguments alone, over all three actions, exactly when neither hotkey nor instance has a NUL |

## Left out

- JSON floats, their decimal spelling rules and non-finite constants: the decoder model refuses every number with a fraction or an exponent.
- The interpreter's limits on recursion and on the length of integer texts: both only make the code refuse values that the models refuse or that do not round-trip.
- Python's insertion order of dicts: objects are maps, and the stack check visits their values in key order; its verdict does not depend on the order.
- Pydantic parsing, string patterns and the re-parsing of records: a validated record is a datatype with a validity predicate over the fields that the checks use.
- SHA-256, signatures, mnemonic and address derivation: parameters.
- Metadata server, Secret Manager HTTP, file permissions and private-directory checks of the ceremony: a failing one ends the process, which the model allows at every point.
- Ceremony: the protocol is a state machine over values rather than a method on a heap, because its subject is the interleaving of several processes with crashes.
- Deletion of ceremony files by an operator and writers of the secret other than the ceremony: assumed not to happen.
- `fnmatch`, path normalization, TOML parsing, component-name syntax and git calls of the release plan.
- Resource addresses, mailbox delivery rules and the RPC rule body of the custody fence: folded into two flags of a plan; the backend bootstrap fence is not modelled.
- Message and report contents, the journal database and the outer loop of the treasury worker.
- Compose validation, receipt content and the path checks of the canary: the path checks are one flag.
- Unicode categories in identifier rules: claims are proved for every identifier free of ASCII controls, spaces and surrogates, a larger set than the validators admit.
- Leases, grants, capability certification, upload, name-claim, ledger and validator API models, the chain client and the miner CLI: field checks or I/O that a reading of one branch settles.
