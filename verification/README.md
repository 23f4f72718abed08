# oasis-ethwasi-runtime: verified model

A Dafny model of the parts of the Oasis Ethereum/WASI runtime and its web3 gateway
where state, history and several components meet, with proofs that hold for every
batch, chain, run of operations or sequence of polls.

## What is modelled

| files | system part |
|---|---|
| `Runtime.dfy`, `BatchLaws.dfy`, `BatchOutcomes.dfy`, `Prefetch.dfy` | the batch pipeline: decode, abort flag, duplicate and gas checks, the machine, receipts, tags, storage prefetch |
| `LogIndex.dfy`, `IndexLaws.dfy`, `FilterExactness.dfy`, `Views.dfy` | the gateway's log query against the tag index, and its block, transaction and receipt views |
| `PubSub.dfy`, `Polling.dfy` | block notifications, log subscriptions and the `eth_getFilterChanges` polls |
| `Wire.dfy`, `Confidential.dfy`, `EncryptedStore.dfy`, `Sessions.dfy` | the confidential payload format, the confidential context, encrypted contract storage, sessions and nested calls |
| `StateParser.dfy`, `Importer.dfy` | the streaming parser of exported state and the batched genesis import |
| `RateLimit.dfy`, `RateLaws.dfy` | the per-session request counter and the WebSocket rate limit |
| `Basics.dfy` | shared datatypes and sequence functions |

Files that update fields step by step are modelled as classes; each of their methods is
proved equal to a specification function on the old state, and the laws are proved about
those functions over whole runs. Every lemma carries `{:induction false}`, so each induction
is written out in its body. Main results:

- Gas, receipts, tags and the committed state of a batch agree with the results list for
  every batch, abort schedule and lawful machine; every rejection has its exact cause, from the
  raw bytes of the call on; replaying only the successful transactions gives the same state and
  results.
- The log query through the tag index equals a scan of every transaction of every block in
  range, in order; this holds on every chain if and only if the filter has no empty value
  list. The logs it returns are exactly the matching logs of the receipts, and a receipt is what
  the machine answered that call in its block.
- A log subscriber whose filter has no limit and no empty list receives exactly the scan of
  the blocks after its subscription, with no gap or repetition, whatever other events happen
  and at whatever later heights its queries run.
- A filter of a client polls as if it were alone, whatever other filters are installed, polled
  or removed. Without a limit and without empty lists, its polls miss no log; if no block
  arrives during a poll they return the scan exactly.
- The wire format is a bijection between accepted payloads and well-sized parts; what becomes
  of any payload, opened, refused or stopping the program, has its exact condition.
- Encrypted contract storage refines a plain map, over every run of contract switches,
  sessions, writes and block changes. Session nonces never repeat and survive switches and
  refused payloads; every reply asked for is sent, and the peer opens it; storage nonces repeat exactly when two writes have the same
  ordinal in their activations. Nested calls restore their caller's contract and cipher.
- The import parser undoes the printer and accepts exactly well-formed text; the operations of
  an import read back to the exported accounts; the batched import is the same as one big
  commit, for every batch size including zero.
- The rate limit holds per slot if and only if it is below 65535; the answer of the counter
  is exact if and only if its position was not stale when the second began; any window
  shorter than one second lets through at most twice the limit plus one.

### What is assumed of code outside the repository

The transaction machine, the codecs, the index, the ciphers, the key manager, the cut of a
list of logs to a limit and the JSON deserializer are function-valued parameters. What the
proofs need of them is written out as predicates:

- `LawfulMachine`: a receipt's gas is cumulative, and a transaction uses at most its own gas.
  The shape of `ApplyResult` also says that a failed transaction leaves the state as it was.
- `LawfulIndex`: the index returns nothing outside the range, no more transactions than the
  limit, and per round everything that meets the conditions unless that exceeds the limit.
- `LawfulCap`: no log is added, no more than the limit are kept, and all are kept if they do not
  exceed it.
- `LawfulBox` and `LawfulServices`: opening undoes sealing; a public key belongs to its secret
  key.
- `ReadsBack`: a printed item is read back and delimits itself.

`FilterExactness.EmittingMachine`, `FilterExactness.FullIndex`, `Wire.PLAIN_BOX`,
`Sessions.PLAIN_SERVICES` and `StateParser.PLAIN_DESERIALIZER` show that these laws can be met.
The nonce type is an 11-byte tag and a 32-bit counter that is exhausted when it would return to
its start. A filter's value list that is present and empty matches every log, as in Parity's
matcher, while the index condition built from it matches nothing.

### Where the code and its comments disagree

The model follows the code.

- `src/methods.rs:30`: the comment asks for gas below the block limit; the code accepts gas
  equal to it.
- `gateway/src/impls/eth_filter.rs:92-110` excludes the current block when a block filter is
  created, but `gateway/src/impls/eth_filter.rs:139-156` sets the cursor to the latest block,
  so the last block of one poll is returned by the next one too (`BlockReturnedTwiceIff`).
- `gateway/src/impls/eth_filter.rs:161-181`: polling a log filter when no block was added
  asks for a block that does not exist and fails (`LogPollFailsIffNothingNew`).
- `gateway/src/informant.rs:104`: the count is documented as that of the current second, but
  a slot that was skipped keeps counts of an earlier era (`StaleSlotOvercounts`).
- `gateway/src/middleware.rs:181-187`: the counter saturates at 65535, so a limit of 65535 or
  more never rejects (`LimitHoldsIff`).
- `common/src/confidential/confidential_ctx.rs:48-51`: the storage nonce is described as set when
  a transaction starts to execute and incremented after each write; the code sets it at every
  activation, also on the return from a nested call, so counting starts again
  (`StorageNoncesRepeatIff`, `ReactivationRepeatsNonce`).
- `common/src/confidential/confidential_ctx.rs:41-43`: the context is described as activated iff
  a confidential contract was executed; the code also sets the flag when no contract is switched
  to and when the key manager fails (`ActivatedIff`).
- `common/src/confidential/crypto.rs:131-136`: the sum of the lengths can wrap; a wrapped sum
  is never accepted, it panics (`OverflowNeverAccepts`, `PanicsIff`).

## Model

| member | source | states |
|---|---|---|
| Runtime.TxnContext.constructor | src/block.rs:16-25 | a context starts with the given header, mode and store and no tags |
| Runtime.TxnContext.StartBatch | src/block.rs:37-74 | a batch starts with no gas used, no executed hash and the header's environment |
| BatchLaws.TagsDescribeLogs | src/methods.rs:99-113 | a transaction is tagged with an address iff one of its logs comes from it, and with a value at one of the first four topic positions iff one of its logs has it there |
| Runtime.TxnContext.EmitTxTags | src/methods.rs:99-113 | the pending tags grow by the hash tag and, log by log, the address and topic tags |
| Runtime.TxnContext.ExecuteTx | src/methods.rs:53-135 | the new context and the result are those of the step function; a rejected transaction leaves the whole context as it was |
| Runtime.DecodeBatch | src/dispatcher.rs:162-195 | each call of the batch is decoded on its own, or refused if the abort flag was up at that point |
| Runtime.CheckBatch | src/dispatcher.rs:103-149 | the verdict of each transaction is exactly its decoding outcome, and the store does not change |
| Runtime.ProcessCall | src/dispatcher.rs:220-240 | one call's output and tags, and the context after it, for all of abort, decoding error, rejection and success |
| Runtime.ExecuteBatch | src/dispatcher.rs:151-255 | a batch gives the results and the state of the run over its decoded items, for every abort schedule, and commits that state |
| BatchLaws.ItemInvariant | src/dispatcher.rs:220-240 | success adds exactly its gas and its hash and takes its own tags; anything else changes nothing and emits nothing |
| BatchLaws.ItemApplies | src/methods.rs:76-134 | a success reports the receipt's cumulative gas, bloom, logs, status and output, and leaves the machine's store |
| BatchLaws.RunInvariant | src/methods.rs:53-135 | after any batch the gas counter is the sum over successes, the hash set is that of the successes, and no tag is pending |
| BatchLaws.GasConservation | src/methods.rs:69-97 | gas used is the sum of the successes' gas and within the block limit; each cumulative figure is the sum up to its transaction |
| BatchLaws.ConsecutiveReceipts | src/methods.rs:93-97 | between neighbouring successes the cumulative gas grows by the later one's own gas |
| BatchLaws.TagsNeverLeak | src/dispatcher.rs:231-237 | each transaction carries exactly its own tags, and a failed one carries none |
| BatchLaws.HashIndexIsPartialFunction | src/methods.rs:63-67 | a hash tag marks exactly the success with that hash, at most one per batch, and exists iff the hash was executed |
| BatchLaws.NoTwoSuccesses | src/methods.rs:63-67 | no two successes of a batch share a hash |
| BatchLaws.OutcomesAreExact | src/methods.rs:62-88 | duplicate iff an earlier success has the hash; gas limit iff not duplicate and the sum would exceed it; otherwise failure or success as the machine says |
| BatchOutcomes.BatchOutputsAreExact | src/dispatcher.rs:220-240 | for every call of every batch: the abort error iff the flag was up in one of the passes, a decoding error iff the call has it, the check-only success iff the context is check-only and the call was admitted |
| BatchOutcomes.DecodingErrorsShow | src/dispatcher.rs:68-99 | each of the seven decoding errors is the output of a call exactly when its raw bytes have that defect |
| BatchOutcomes.CheckAgreesWithExecution | src/dispatcher.rs:103-149 | checking answers the abort error iff the flag was up, accepts exactly the calls that pass every check, and rejects with the error execution gives |
| BatchOutcomes.TransactionsRunInTheBlock | src/block.rs:57-66 | every transaction runs with the next round, the header's time and hash, the block gas limit and the gas spent before it |
| BatchOutcomes.SuccessIsTheMachines | src/methods.rs:76-134 | a success is the machine's answer on the store the earlier calls reached, in that environment |
| BatchLaws.CommittedStateIsFold | src/block.rs:76-82 | the store that is committed, and the environment, are the machine folded over the successful transactions alone |
| BatchLaws.ReplayOfSuccesses | src/dispatcher.rs:220-240 | a batch of just the successful items gives the same state and the same results |
| BatchLaws.CheckOnlyChangesNothing | src/methods.rs:56-59 | in check mode no run changes any state or emits tags, and decoded calls report success |
| BatchLaws.AbortFreezesState | src/dispatcher.rs:223-230 | once the abort flag stays up, every later result is the abort error and the state no longer moves |
| Prefetch.PrefetchList | src/dispatcher.rs:176-218 | the prefetched keys are strictly sorted and are exactly the wanted keys that are not cached |
| Prefetch.PrefetchedIffAskedFor | src/dispatcher.rs:178-190 | a key is wanted iff it is the metadata key of the sender of a decoded call, or the code or metadata key of the account it calls |
| Prefetch.LessIsLexicographic | src/dispatcher.rs:202 | the sorting order is the lexicographic order of bytes |
| Prefetch.SortPrefixes | src/dispatcher.rs:202 | sorted, and a permutation of what was pushed |
| Prefetch.Dedup | src/dispatcher.rs:203 | on a sorted list, strictly sorted with the same elements |
| Prefetch.Drain | src/dispatcher.rs:205-208 | keeps the order and exactly the keys that are not cached |
| Prefetch.PrefetchIsCanonical | src/dispatcher.rs:176-218 | batches that want the same keys prefetch the same list, whatever their order and repetitions |
| LogIndex.RuntimeDecodesIff | src/methods.rs:27-44 | the runtime accepts a call iff the gateway decodes it and the gas, signature and price checks pass |
| LogIndex.DecodeErrorsAreExact | src/dispatcher.rs:68-85 | each of the seven decoding errors arises exactly under its own condition |
| LogIndex.Conditions | gateway/src/translator.rs:349-386 | the query is the list of conditions of the filter, addresses first and then topics by position |
| LogIndex.ConditionsAreExact | gateway/src/translator.rs:349-386 | that list has exactly the conditions the filter stands for, and each key once |
| LogIndex.RejectedIff | gateway/src/translator.rs:454-456 | a log is filtered out iff some list of the filter has values and not the log's |
| IndexLaws.ScanIsOrdered | gateway/src/translator.rs:444-468 | logs come in strict order of block, call and log index, so none is listed twice |
| LogIndex.SortIsStable | gateway/src/translator.rs:474-478 | sorted by block, a permutation, and the order within each block is kept |
| LogIndex.SortedUnique | gateway/src/translator.rs:474-478 | a stable sort by block is determined by the order within blocks |
| IndexLaws.SuccessIsTagged | src/methods.rs:99-113 | a success decodes at the gateway and carries the tags of its logs; any other result carries none |
| IndexLaws.DecodeIsScan | gateway/src/translator.rs:391-473 | decoding one snapshot gives the matching logs of that transaction |
| IndexLaws.MatchingLogIsIndexed | gateway/src/translator.rs:349-386 | a transaction with a matching log meets every index condition |
| IndexLaws.CandidatesSuffice | gateway/src/translator.rs:345-473 | decoding the index candidates gives the full scan |
| IndexLaws.IndexAgreesWithScan | gateway/src/translator.rs:326-481 | however the index interleaves rounds, the sorted result is the scan in order |
| IndexLaws.AnyOrderSameLogs | gateway/src/translator.rs:474-478 | if the index shuffles freely, the result is still sorted by block and has the scan's logs |
| IndexLaws.PartialAnswerIsSound | gateway/src/translator.rs:391-478 | a partial answer, as with a limit, never yields a log the scan lacks |
| IndexLaws.ResolvesToNamed | gateway/src/translator.rs:79-137 | a block id resolves iff it stands for some block, and then to such a block |
| IndexLaws.QueryIsSound | gateway/src/translator.rs:326-481 | whatever the limit and the lists, a query returns only logs of the scan |
| IndexLaws.QueryIsExact | gateway/src/translator.rs:326-481 | through any lawful index, a query with no limit and no empty list is the scan |
| IndexLaws.SlackLimitIsExact | gateway/src/translator.rs:387 | a limit that the candidates do not exceed changes nothing |
| IndexLaws.LimitBoundsTransactions | gateway/src/translator.rs:387 | a limited query draws its logs from at most that many transactions |
| IndexLaws.Logs | gateway/src/translator.rs:326-481 | errs iff an end of the range is missing when it is resolved; otherwise sorted and sound, and equal to the scan without a limit and with no empty list |
| IndexLaws.ScanSplits | gateway/src/translator.rs:326-481 | two adjoining ranges give together what the whole range gives |
| IndexLaws.ScanIsStable | gateway/src/translator.rs:326-481 | new blocks never change the logs of old ranges |
| IndexLaws.ScanIgnoresEnds | gateway/src/translator.rs:444-468 | the logs of a range depend on the filter's addresses and topics alone |
| FilterExactness.IndexExactIff | gateway/src/translator.rs:349-386 | decoding the index candidates is exact on every chain iff no list the index is asked about is empty |
| FilterExactness.QueryExactIff | gateway/src/translator.rs:326-481 | an unlimited query is the scan on every chain and through every lawful index iff no indexed list is empty |
| Views.ViewDecodes | gateway/src/translator.rs:497-515 | the transaction view exists iff the gateway decodes the call, with its block and position, and each error has its condition |
| Views.FoundByHashHasReceipt | gateway/src/translator.rs:140-148 | a transaction found by hash is the only one of its block, and has a receipt with that hash, position and round, and a contract address iff it creates |
| Views.ReceiptExistsIff | gateway/src/translator.rs:518-574 | a call has a receipt iff it succeeded, and otherwise the answer is that none is available |
| Views.ReceiptIsTheMachines | gateway/src/translator.rs:518-574 | status, bloom, gas and every log of a receipt are the machine's answer to that call in its block, with the block's hash and number and the created address |
| Views.ReceiptGasAddsUp | gateway/src/translator.rs:518-574 | receipts of a block add up: each cumulative figure is the sum of the gas of all successes up to it |
| Views.LogsAreReceiptLogs | gateway/src/translator.rs:518-574 | a log is in the scan iff it is a matching log of the receipt at its own block and position |
| Views.RichTransactions | gateway/src/translator.rs:707-720 | the block view is the specified list of localized transactions |
| Views.BlockListsDecodable | gateway/src/translator.rs:639-650 | that list has exactly the decodable calls, each numbered by its place among them |
| Views.BlockIndexAgreesIff | gateway/src/translator.rs:698-724 | for every decodable call, the number in the block view is at most the one in the transaction and receipt views, and equal iff every earlier call of the block decodes |
| PubSub.Broker.constructor | gateway/src/pubsub.rs:40-49 | a broker starts at block zero with no listener |
| PubSub.Broker.Register | gateway/src/pubsub.rs:51-54 | registering adds one live listener with an empty inbox and changes nothing else |
| PubSub.Broker.SubscribeLogs | gateway/src/impls/eth_pubsub.rs:235-240 | a subscription joins one handler's table with its filter |
| PubSub.Broker.SubscribeToHeads | gateway/src/impls/eth_pubsub.rs:228-231 | the identifier joins the table of header subscriptions |
| PubSub.Broker.SubscribeToCompletions | gateway/src/impls/eth_pubsub.rs:242-245 | the identifier joins the table of transaction subscriptions |
| PubSub.Broker.CancelSubscription | gateway/src/impls/eth_pubsub.rs:254-265 | the identifier leaves all three tables; the answer says whether any had it |
| PubSub.SubscribedIffNotCancelled | gateway/src/impls/eth_pubsub.rs:228-265 | over any events, an identifier is in one of the three tables iff it was subscribed there and not cancelled since |
| PubSub.DroppedListenerGetsNothing | gateway/src/pubsub.rs:78-82 | a handler that is gone is sent nothing more |
| PubSub.Broker.OnTick | gateway/src/pubsub.rs:62-85 | every live listener gets the range after the cursor, the cursor moves to the latest block, and nothing happens without a new block |
| PubSub.NotifySubscribers | gateway/src/impls/eth_pubsub.rs:153-180 | every log subscriber of the handler gets the range once |
| PubSub.ListenerGetsEachBlockOnce | gateway/src/pubsub.rs:62-85 | over any events, the ranges a live listener gets tile the blocks since it joined |
| PubSub.BrokerDeliversEachBlockOnce | gateway/src/pubsub.rs:56-93 | from the first event on, a listener gets each block after its registration exactly once, in order |
| PubSub.SubscriberGetsEachBlockOnce | gateway/src/impls/eth_pubsub.rs:153-187 | the ranges of an undisturbed subscription tile the blocks since it was made, and its filter stays |
| PubSub.CursorIsHighestSeen | gateway/src/pubsub.rs:65-84 | the cursor never goes back and is the highest block number seen |
| PubSub.EarlyQueryIsScan | gateway/src/impls/eth_pubsub.rs:153-180 | a query on an early chain returns only logs the grown chain has in that range, and all of them without a limit or an empty list |
| PubSub.SentIsSound | gateway/src/impls/eth_pubsub.rs:153-180 | for every filter, only matching logs of the range are sent, and with a limit from no more transactions than that |
| PubSub.SubscriberReceivesTheScan | gateway/src/impls/eth_pubsub.rs:153-180 | all logs a subscription delivers, through the index, over all its queries at their own times, are the scan of the blocks since it was made |
| Polling.FilterClient.constructor | gateway/src/impls/eth_filter.rs:57-65 | the client starts with no poll |
| Polling.FilterClient.NewFilter | gateway/src/impls/eth_filter.rs:69-90 | a log poll gets a new id and starts at the latest block |
| Polling.FilterClient.NewBlockFilter | gateway/src/impls/eth_filter.rs:92-110 | a block poll gets a new id and starts after the latest block |
| Polling.FilterClient.NewPendingTransactionFilter | gateway/src/impls/eth_filter.rs:112-121 | a pending poll gets a new id |
| Polling.FilterClient.FilterChanges | gateway/src/impls/eth_filter.rs:123-185 | what each kind of poll returns, the logs through the query and the limit included, where its cursor goes, and that every other poll stays |
| Polling.FilterClient.UninstallFilter | gateway/src/impls/eth_filter.rs:217-223 | the poll is gone, and the answer says whether it existed |
| Polling.FilterIsUndisturbed | gateway/src/impls/eth_filter.rs:123-185 | a filter answers its polls as if it were alone, whatever else the client is asked before and in between |
| Polling.UninstalledIsNeverFound | gateway/src/impls/eth_filter.rs:217-223 | after uninstalling a filter no poll finds it, whatever is installed later |
| Polling.LogPollingLeavesNoGap | gateway/src/impls/eth_filter.rs:161-181 | every block from creation to the latest is covered by some poll |
| Polling.LogPollOverlapIff | gateway/src/impls/eth_filter.rs:161-181 | a covered block is covered again later iff it was added after that poll read the latest block |
| Polling.LogPollFailsIffNothingNew | gateway/src/impls/eth_filter.rs:161-181 | a poll has no range iff it is not the first and the chain has not grown since the one before |
| Polling.PollReturnsItsRange | gateway/src/impls/eth_filter.rs:161-181 | a poll fails iff it has no range; it returns only matching logs of its range and no more than the limit, and all of them without a limit or an empty list |
| Polling.NoLogIsMissed | gateway/src/impls/eth_filter.rs:161-181 | every matching log from creation to the latest block of a poll is returned by that poll or an earlier one, also when blocks arrive during polls |
| Polling.QuietPollsReturnTheScan | gateway/src/impls/eth_filter.rs:161-181 | if no block arrives during a poll, all polls together, through the index, return the scan exactly |
| Polling.InstalledFilterReturnsTheScan | gateway/src/impls/eth_filter.rs:69-185 | the same for a filter installed in a client that serves any other filters as well |
| Polling.BlockPollingLeavesNoGap | gateway/src/impls/eth_filter.rs:139-156 | every block after creation is returned by some poll |
| Polling.BlockPollsAnswerBlockRun | gateway/src/impls/eth_filter.rs:139-156 | a block filter answers with exactly the blocks from its cursor to the latest |
| Polling.InstalledBlockFilterReturnsBlocks | gateway/src/impls/eth_filter.rs:92-156 | an installed block filter returns the blocks after the one at creation, then from the latest of the poll before, up to the latest |
| Polling.PendingFilterReturnsNothing | gateway/src/impls/eth_filter.rs:157-160 | an installed filter for pending transactions never returns anything |
| Polling.BlockReturnedTwiceIff | gateway/src/impls/eth_filter.rs:139-156 | any block is returned twice iff it was the latest block at a poll that was not the last, nor the first if it is the block at creation |
| Polling.CreationBlockReturnedIff | gateway/src/impls/eth_filter.rs:139-156 | the block at creation is returned iff the first poll saw no new block and another one followed |
| Polling.CreationBlockReturnedTwiceIff | gateway/src/impls/eth_filter.rs:139-156 | it is returned twice iff the second poll still saw no new block and a third followed |
| Wire.EncodeEncryption | common/src/confidential/crypto.rs:88-102 | the payload is key, two little-endian lengths, ciphertext, additional data and nonce |
| Wire.EncodeLayout | common/src/confidential/crypto.rs:88-102 | every part stands at its place: key at 0, lengths at 32 and 40, then ciphertext, additional data and nonce |
| Wire.LittleEndianDigit | common/src/confidential/crypto.rs:95-96 | byte i of a length is its digit of weight 256 to the i |
| Wire.OverflowNeverAccepts | common/src/confidential/crypto.rs:131-136 | lengths whose sum wraps to the payload's size end in a panic, not in acceptance |
| Wire.AcceptedReencodes | common/src/confidential/crypto.rs:109-160 | an accepted payload encodes back to itself, and the reported lengths are those of the parts |
| Wire.EncodingIsAccepted | common/src/confidential/crypto.rs:88-160 | every encoding of well-sized parts is accepted and gives the parts back |
| Wire.WireFormatIsBijection | common/src/confidential/crypto.rs:88-160 | a payload is accepted with given parts iff they are well sized and it is their encoding |
| Wire.PanicsIff | common/src/confidential/crypto.rs:109-160 | splitting panics iff the payload is long enough and the lengths overflow, checked or wrapping to its size |
| Wire.OpensIffBoxOpens | common/src/confidential/crypto.rs:51-75 | a well-formed payload opens to a decryption iff the box opens its parts to that text, and is refused iff it does not |
| Wire.DecryptOutcomesAreExact | common/src/confidential/crypto.rs:51-75 | too short, of the wrong size or stopping the program: each under its own condition on the bytes, and otherwise up to the box |
| Wire.AbsentDataIsDefault | common/src/confidential/crypto.rs:52-59 | absent data decrypts to an empty text from the zero key under the zero nonce |
| Wire.DecryptUndoesEncrypt | common/src/confidential/crypto.rs:30-75 | the receiver gets text, nonce, sender key and additional data back, and the payload has its exact length |
| Confidential.NonceRoundTrip | common/src/confidential/confidential_ctx.rs:231-255 | a nonce read from bytes writes the same bytes |
| Confidential.StorageNonceStartsAtZero | common/src/confidential/confidential_ctx.rs:115-142 | a contract's storage nonce is a digest of block hash and address, counting from zero |
| Confidential.ConfidentialCtx.constructor | common/src/confidential/confidential_ctx.rs:60-76 | a context starts inactive, with no peer, contract, cipher or nonce |
| Confidential.ConfidentialCtx.Swap | common/src/confidential/confidential_ctx.rs:115-142 | contract, cipher and storage nonce are replaced together; returns the previous address |
| Confidential.ConfidentialCtx.SwitchTo | common/src/confidential/confidential_ctx.rs:158-179 | activating an address, none, or one without keys, with the new context in each case |
| Confidential.ConfidentialCtx.Close | common/src/confidential/confidential_ctx.rs:181-188 | everything but the block hash is cleared |
| Confidential.ConfidentialCtx.SealSession | common/src/confidential/confidential_ctx.rs:190-229 | a reply and the advanced nonce, or the error and an unchanged context |
| Confidential.ReplyOutcomesAreExact | common/src/confidential/confidential_ctx.rs:190-229 | a reply is sent iff peer, contract and nonce are there, the box seals and a nonce is left; each failure has its error and changes nothing |
| Confidential.ConfidentialCtx.OpenSession | common/src/confidential/confidential_ctx.rs:231-255 | the opened payload, the peer and the next nonce, or the error |
| Confidential.ReceiveOutcomesAreExact | common/src/confidential/confidential_ctx.rs:231-255 | a payload is received iff it decrypts; otherwise the error is passed on and peer and nonce stay |
| Confidential.ReceivedIffBoxOpens | common/src/confidential/confidential_ctx.rs:231-255 | packed parts are received iff the box opens them for the active contract; otherwise no session starts |
| Confidential.ConfidentialCtx.SealStorageValue | common/src/confidential/confidential_ctx.rs:270-293 | the sealed value with its nonce behind it and the advanced storage nonce, or the error |
| Confidential.StorageReadsAreExact | common/src/confidential/confidential_ctx.rs:297-313 | a stored value is read iff it is long enough and opens under the contract's key, its nonce and its slot; each failure has its condition |
| Confidential.SlotOpensToKey | common/src/confidential/confidential_ctx.rs:257-266 | a slot opens under the state key and the zero nonce to its key, and is one tag longer |
| Confidential.ActivatedIff | common/src/confidential/confidential_ctx.rs:146-159 | over any run, the context is activated iff there was a switch since it was last closed, and encrypts iff a contract is active |
| Confidential.StepKeepsInv | common/src/confidential/confidential_ctx.rs:27-57 | every operation keeps contract, cipher and storage nonce together and keyed to the contract |
| Confidential.ReachableKeepsInv | common/src/confidential/confidential_ctx.rs:27-57 | that holds after every run of operations from a new context |
| EncryptedStore.SealedValueOpens | common/src/confidential/confidential_ctx.rs:270-313 | a sealed value opens under its trailing nonce and has its exact length |
| EncryptedStore.SlotsAreInjective | common/src/confidential/confidential_ctx.rs:257-266 | under one contract's key, different keys go to different slots |
| EncryptedStore.EncryptedStoreRefinesMap | common/src/confidential/confidential_ctx.rs:257-313 | after every run, reading a key under the active contract gives the last value that contract wrote to it, or nothing |
| EncryptedStore.CiphertextLength | common/src/confidential/confidential_ctx.rs:270-293 | a slot exists iff it was written, and its length is that of the last value plus tag and nonce |
| EncryptedStore.StorageNoncesCount | common/src/confidential/confidential_ctx.rs:270-293 | while a contract stays active its storage counter is the number of writes, until it is exhausted |
| EncryptedStore.OrdinalIsCounter | common/src/confidential/confidential_ctx.rs:115-142 | over any run, the storage counter is the number of writes since the contract was last activated |
| EncryptedStore.StorageNoncesRepeatIff | common/src/confidential/confidential_ctx.rs:270-293 | two writes of one contract in one block leave the same nonce iff they have the same ordinal in their activations |
| EncryptedStore.ReactivationRepeatsNonce | common/src/confidential/confidential_ctx.rs:115-142 | a write, a switch away and back, and another write: both leave the same nonce |
| Sessions.SessionNoncesSurviveSwitches | common/src/confidential/confidential_ctx.rs:190-255 | the k-th reply of a session uses the received nonce advanced by k and goes to its sender, across switches, writes and refused payloads |
| Sessions.EveryReplyIsSent | common/src/confidential/confidential_ctx.rs:190-229 | every reply asked for while a contract is active is sent, in order, until the nonces are used up |
| Sessions.ConversationIsAnswered | common/src/confidential/confidential_ctx.rs:190-255 | the same after a peer's message |
| Sessions.RepliesNeverReuseNonce | common/src/confidential/confidential_ctx.rs:190-229 | no reply uses the request's nonce or that of another reply |
| Sessions.RepliesOpenAtPeer | common/src/confidential/confidential_ctx.rs:190-229 | each reply opens at the peer to its text, under the key of the contract that sent it |
| Sessions.ReceiveOpensPeerMessage | common/src/confidential/confidential_ctx.rs:231-255 | a peer's message to the active contract opens to text and additional data and starts a session with that peer |
| Sessions.ConversationOpensAtPeer | common/src/confidential/confidential_ctx.rs:190-255 | after a peer's message, the peer opens every reply to its text, under the key of the contract that sent it and the nonce of its turn |
| Sessions.NoReplyAfterClose | common/src/confidential/confidential_ctx.rs:181-188 | after deactivation nothing is sent until another payload is received |
| Sessions.NestedCallsRestoreContract | common/src/confidential/confidential_ctx.rs:158-179 | after any tree of nested calls, contract, cipher and block hash are those from before |
| StateParser.Parser.constructor | genesis/bin/genesis_playback.rs:92-106 | the parser starts behind the opening text, before the first account |
| StateParser.Parser.Next | genesis/bin/genesis_playback.rs:111-157 | one step of the parser: an entry, the end, or a panic, and where it stands then |
| StateParser.ParserUndoesPrinter | genesis/bin/genesis_playback.rs:92-157 | parsing printed entries gives them back in order, whatever follows the closing text |
| StateParser.ParsesIffWellFormed | genesis/bin/genesis_playback.rs:111-157 | entries are parsed iff the input is well-formed text of them; any other input stops the program |
| StateParser.PrinterIsInjective | genesis/bin/genesis_playback.rs:73-76 | different account lists never print the same |
| StateParser.FinishedStaysFinished | genesis/bin/genesis_playback.rs:111-118 | after the end the parser keeps answering that it is finished |
| Importer.PatchDiff | genesis/bin/genesis_playback.rs:242-266 | applying a write log to the committed tree gives the working tree |
| Importer.DiffIsMinimal | genesis/bin/genesis_playback.rs:245-248 | a write log has exactly the keys whose values differ, with their new values |
| Importer.Import.constructor | genesis/bin/genesis_playback.rs:231-241 | an import starts from the genesis tree with nothing committed |
| Importer.Import.Commit | genesis/bin/genesis_playback.rs:242-266 | one apply request from the old root to the new one, with the write log between them |
| Importer.Import.CheckCommit | genesis/bin/genesis_playback.rs:268-275 | one more operation is counted; a full batch commits and restarts the count |
| Importer.Import.InjectStorage | genesis/bin/genesis_playback.rs:305-313 | storing the items is the run of their operations, commits included |
| Importer.Import.ImportAccount | genesis/bin/genesis_playback.rs:289-316 | an account is the run of its own operations and counts once |
| Importer.OperationsReadBack | genesis/bin/genesis_playback.rs:289-316 | the operations of an import read back to the exported accounts: address, balance, nonce, code and storage items, in order |
| Importer.Import.Run | genesis/bin/genesis_playback.rs:289-318 | the import is the run over all entries and a final commit |
| Importer.ImportInvariant | genesis/bin/genesis_playback.rs:242-275 | at any point the tree is the fold of the operations, the requests replay to the committed tree, and the batches account for every operation |
| Importer.BatchedImportEqualsOne | genesis/bin/genesis_playback.rs:277-318 | for every batch size, the requests replay to the same tree and root as one fold; their number follows from the operations |
| Importer.EachBatchIsFull | genesis/bin/genesis_playback.rs:268-275 | the k-th request has the roots before and after the k-th full batch of operations and exactly the writes between them |
| Importer.LastBatchIsTheRest | genesis/bin/genesis_playback.rs:318 | the closing commit pushes exactly the operations that are left |
| RateLimit.RateCalculator.constructor | gateway/src/informant.rs:28-46 | a calculator starts now with empty slots |
| RateLimit.RateCalculator.Tick | gateway/src/informant.rs:53-64 | the array after a tick and the answer, for three clock readings in order |
| RateLimit.RpcStats.OpenSession | gateway/src/informant.rs:93-97 | a session starts with an empty calculator, replacing an old one |
| RateLimit.RpcStats.CloseSession | gateway/src/informant.rs:100-102 | the session is forgotten, and only that one |
| RateLimit.RpcStats.CountRequest | gateway/src/informant.rs:105-111 | a known session is ticked and answered, an unknown one counts zero |
| RateLimit.RpcStats.OnRequest | gateway/src/middleware.rs:171-191 | a request is forwarded iff it is not from a tracked session or its count is within the limit |
| RateLimit.NeverUndercounts | gateway/src/informant.rs:53-64 | the answer is never less than the requests in the current slot, up to saturation |
| RateLimit.SlotLimit | gateway/src/middleware.rs:171-191 | over any run, no slot forwards more than a limit below 65535 |
| RateLimit.LimitHoldsIff | gateway/src/middleware.rs:181-187 | the limit holds in every slot of every run iff it is below 65535 |
| RateLaws.CounterIsSinceClear | gateway/src/informant.rs:53-64 | each counter holds the requests to its position since that was last cleared |
| RateLaws.AnswerIsExactIff | gateway/src/informant.rs:53-64 | the answer is the number of requests in the slot iff, when the slot began, every earlier request at its position had been cleared, or both saturate |
| RateLaws.NothingLeftIff | gateway/src/informant.rs:53-64 | a position is empty iff every earlier request to it was followed by a clearing one |
| RateLaws.ExactInFirstTenSeconds | gateway/src/informant.rs:53-64 | in the first ten seconds the answer is exact |
| RateLaws.StaleSlotOvercounts | gateway/src/informant.rs:53-64 | requests at 5, 10 and 15 seconds: the third is answered 2 though it is alone in its second |
| RateLaws.WindowBound | gateway/src/middleware.rs:171-191 | any window shorter than a second forwards at most twice the limit plus one |

## Left out

- EVM and WASM execution, RLP, CBOR and JSON codecs, cipher internals, the key-value tree and the key manager: parameters with the laws named above.
- RPC servers, metrics, logging, configuration, `simulate_transaction`, `estimate_gas` and the retries of `send_raw_transaction`.
- `filter_logs`, poll expiry, and the batch-size and error-formatting parts of the middleware.
- `notify_heads` and the delivery of new block headers: the same ranges as for logs.
- Asynchronous scheduling: a notification's queries may be answered at any later height, but their replies are taken in the order of the ranges, and failed queries are not modelled.
- PubSub.Broker: the subscriber table of the handler is held in the listener value instead of a separate object.
- PubSub.SubscriberReceivesTheScan: for filters with no limit and no empty value list; the latter is the exact condition of `FilterExactness.QueryExactIff`, and with a limit only `PubSub.EarlyQueryIsScan` holds.
- Polling.QuietPollsReturnTheScan: for polls during which no block arrives, with no limit and no empty value list; `Polling.LogPollOverlapIff` says exactly what is returned again otherwise, and `Polling.NoLogIsMissed` that nothing is lost.
- IndexLaws.Logs: which transactions a limited index query returns is not fixed by the code, so with a limit the result is only sound and sorted.
- Polling.FilterClient: block filters answer with block numbers in place of the hashes looked up for them.
- The header fields of rich blocks and their form with hashes only, and waiting for a block to be indexed.
- The storage expiry of imported accounts, always zero; hex parsing of addresses and numbers in the import, and hashing of storage keys by the state library; the order of an account's storage items is a parameter.
- `current_rate` and the printed request rate: averages that nothing else reads.
- `ConfidentialCtx::decrypt` without a session and its test constructor.
- Storage keys are sealed under a zero nonce by design of the source; what that reveals is not modelled.
