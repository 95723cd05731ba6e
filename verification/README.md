# Verified models of the OpenClaw maintenance scripts

Dafny models of the stateful scripts that keep OpenClaw's translations, releases and configuration in
order, with proofs of what those scripts promise.

- **Translation sync** (`control-ui-i18n.ts`). `RpcClient` is the client of one translation process: an
  event-driven machine with a promise chain, a single pending slot, timers, write errors and process
  events. `Translate` is the retry loop with its recursive split and client resets. `Composition` puts
  translator, a succession of clients and their processes together: `agent_end` events carry no request
  id, so that every answer belongs to its own prompt is a property of the whole. `Session` runs batches and
  whole syncs on that system, down to the texts in the written files. `Batches` is the greedy
  packing. `SyncLocale` is the decision table over existing table, previous fallbacks and translation
  memory, the translation and fallback loops, and the comparison and writing of the four files; `SyncDecisions`
  says of every key what is decided, recorded and written, on the stores alone; `SyncFixpoint` proves that a written sync is a fixpoint. `LocaleTree` is the pair
  `flattenTranslations`/`setNestedValue` on values, `LocaleTable` the latter in place on mutable objects.
- **Source guardrail** (`check-temp-path-guardrails.ts`). `SourceScan` is the quote-aware scanner with its
  parser and printer round trip, `ScanGrammar` the same over a grammar of literal characters, `WorkerPool` the shared-counter reader under every schedule.
- **Command supervisor** (`runCommand`). `CommandRunner` is the timed settle-once machine.
- **Release gate** `Appcast`, **process tree** `ProcessTree`, **schema index** `SchemaIndex`, **label audit**
  `LabelBatches`, **setup wizard** `ConfigMerge` and `ShellProfile`, **marked-block rewriter** `BlockRewrite`.
- `Text`, `OrderedMap`, `Sorting` and `JsonText` hold string operations, JavaScript maps in insertion order, sorting,
  and JSON values with their text.

Code that changes state step by step is a class or a method with loops, proved equal to a specification
function of its inputs or of the old state; what the scripts promise is then proved of that function over
all inputs, all runs or all schedules. Verify everything with `dafny verify dfyconfig.toml`.

## Where the code does less than one would expect

Each of these is proved, by the exact condition under which the promise holds, by a concrete input, or both:

- A written sync need not be a fixpoint when dotted source keys run through one another or start with a
  dot: the rebuild loses a key, and `check` reports a change again (`SyncFixpoint.FixpointExactly`).
- Nor when provider or model change in between, because both are hashed into every cache key
  (`SyncFixpoint.WrittenSyncIsFixpoint`). Even taking away the keys for a `check` can do that: without the
  Anthropic key the provider falls back to OpenAI (`SyncFixpoint.KeylessCheckExactly`).
- Flattening and rebuilding agree with each other for clean tables and rebuildable keys only; besides dots
  in keys and empty nested tables, a nested table under an empty top-level key is lost
  (`LocaleTree.RebuildFlatten`, `LocaleTree.FlattenRebuild`).
- After a time-out whose kill fails at once, the command's promise settles first and the 15 s timer is armed
  afterwards: it stays live, without effect (`CommandRunner.TimerLeftExactly`).
- A client that is not reset after a failed prompt can hand that prompt's late answer to the next one
  (`RpcClient.ClientAloneCanMisattribute`); the composed system cannot.
- A stdout line that is the JSON text `null` makes the line handler throw while a prompt is pending, in a
  promise that nobody awaits (`RpcClient.PiRpcClient.HandleStdoutLine`).
- An empty sub-feed of an accepted appcast is not accepted; an accepted feed need not split at the adoption
  date before a version of a year before 1000 (`Appcast.AcceptedExactly`, `Appcast.SplitsExactly`).
- The merge is not associative when a dictionary meets a plain value and a dictionary again
  (`ConfigMerge.MergeAssociativeExactly`).
- The profile rewrite is not idempotent for values with line breaks, nor where a file with carriage returns is
  first appended to; and the block rewrite not for lines that hold the end marker
  (`ShellProfile.SaveIdempotentExactly`, `BlockRewrite.RewriteIdempotentExactly`).

## Model

| member | source | states |
|---|---|---|
| `Composition.NoStaleAnswer` | openclaw/scripts/control-ui-i18n.ts:1204-1236 | In every possible run of translator, clients and processes in whose log each failed prompt is followed by a reset before the next prompt: every prompt that was resolved, on any client ever created, was resolved by the `agent_end` of the very request sent for it, although the event carries no id. Processes may write at most one `agent_end` per request received; nothing else about them is assumed |
| `Composition.BatchGetsOwnAnswers` | openclaw/scripts/control-ui-i18n.ts:1352-1414 | That condition on the log discharged: nothing in what is possible knows of it, and at every moment of a batch logging as `translateBatch` does, from any resting system, all resolved prompts hold their own answers; when the batch returns, the system rests again, ready for the next one |
| `Composition.ReturnedValuesAreOwn` | openclaw/scripts/control-ui-i18n.ts:1367-1379 | From prompt to value: when a batch returns on the system, the value of each key is the text found under that key in the text of the `agent_end` that answered the very request sent with items holding the key |
| `Session.BatchCanReturn` | openclaw/scripts/control-ui-i18n.ts:1352-1414 | From every resting world and for every batch some possible run, of at most five steps a prompt, ends with the batch returned |
| `Session.Completed` | openclaw/scripts/control-ui-i18n.ts:1352-1414 | The run behind it, built along the retries and splits: at its end the log and the outcomes heard are what the specification of `translateBatch` says of just those outcomes |
| `Session.BatchCanBeAnswered` | openclaw/scripts/control-ui-i18n.ts:1352-1414 | From every resting world, for every batch and every text that parses to a complete reply, a run of at most nine events ends with the batch returned, and what it returns are exactly the texts of that reply |
| `Session.OpenBatchReturns` | openclaw/scripts/control-ui-i18n.ts:1204-1236 | On a client that accepts prompts the run is the ordinary one: sent, begun, accepted by a response, answered by `agent_end`, observed; the batch returns the texts of the reply after that one prompt |
| `Session.AnsweredPrompt` | openclaw/scripts/control-ui-i18n.ts:1204-1236 | The same for any text: the outcome observed is the parse of just the text that `agent_end` brought, and the client stays in use if the reply passes |
| `Session.RefusedPrompt` | openclaw/scripts/control-ui-i18n.ts:1500-1512 | A client that has closed refuses the prompt; the next one goes to a new client |
| `Session.TimerSplitsBatch` | openclaw/scripts/control-ui-i18n.ts:1386-1402 | When the first prompt of a batch of at least two is settled by its own timer, the reset follows, and then a prompt with the first ceil(n/2) items |
| `Session.TimerIsTimeout` | openclaw/scripts/control-ui-i18n.ts:1260-1274 | The message that the timer rejects with is a time-out, whatever stands before and after it |
| `Session.SyncedValuesAreOwn` | openclaw/scripts/control-ui-i18n.ts:1492-1545 | From prompt to file: after a written sync on the system, under each key that had to be translated the locale file holds the text that the request asking for it was answered with, by its own `agent_end`; every memory entry that was not planned before the first prompt holds such a text too |
| `Session.FinalFromAnswers` | openclaw/scripts/control-ui-i18n.ts:1514-1568 | The same of the plan before it is written, over all batches of the run |
| `Session.SessionKeepsProtocol` | openclaw/scripts/control-ui-i18n.ts:1515-1521 | The prompts and resets of all batches one after the other keep the protocol |
| `Composition.StartRests` | openclaw/scripts/control-ui-i18n.ts:1498-1499 | Before the first batch the system rests |
| `Composition.ProtocolThroughout` | openclaw/scripts/control-ui-i18n.ts:1380-1382 | A run whose log ends unbroken was unbroken all along, sends not yet observed included |
| `Composition.RecordsKept` | openclaw/scripts/control-ui-i18n.ts:1367-1379 | Every entry of the translator's log names a settlement it saw, the items of the prompt that was settled, and whether the reply passed |
| `Composition.RunKeeps` | openclaw/scripts/control-ui-i18n.ts:1499-1513 | The composed invariant is kept over every possible run at whose end the log is unbroken: retired clients have nothing left to settle, and in the client in use every request before the awaited one has had its `agent_end` |
| `Composition.ProtocolIsServed` | openclaw/scripts/control-ui-i18n.ts:1241-1274 | While nothing is awaited every send and reset is possible, and from any state an awaited outcome can be observed after at most two steps of the client |
| `Composition.SendTarget` | openclaw/scripts/control-ui-i18n.ts:1500-1512 | A prompt goes to the client in use; at first, and after a reset, which closes that one, to a new one |
| `RpcClient.PromptsAreSerial` | openclaw/scripts/control-ui-i18n.ts:1240-1305 | After any interleaving of calls, lines, write errors, timeouts, process events and closes: prompts settle in call order, each once; one pending slot at most, never overwritten; a prompt starts only when its predecessor has settled; timer and heartbeat are live exactly while it is pending |
| `RpcClient.StepKeeps` | openclaw/scripts/control-ui-i18n.ts:1153-1305 | The client's invariant is kept by each of the eight kinds of event from any state that has it |
| `RpcClient.RunKeeps` | openclaw/scripts/control-ui-i18n.ts:1153-1318 | The same over whole runs |
| `RpcClient.SettledForGood` | openclaw/scripts/control-ui-i18n.ts:1264-1290 | A settled prompt keeps its settlement through any further events, late timers and late write errors included, and a closed client stays closed |
| `RpcClient.NoPromptIsStuck` | openclaw/scripts/control-ui-i18n.ts:1252-1274 | From every reachable state a number of steps bounded by twice the open prompts, only time-outs and turns, settles every prompt asked for |
| `RpcClient.DrainSettlesAll` | openclaw/scripts/control-ui-i18n.ts:1252-1303 | The plan behind it: the pending prompt's own timer is live and settles it, then the next one may begin |
| `RpcClient.ClientAloneCanMisattribute` | openclaw/scripts/control-ui-i18n.ts:1226-1235 | A concrete run in which a client that is not reset after a failure hands the late answer of one prompt to the next |
| `RpcClient.PiRpcClient.SettlePromise` | openclaw/scripts/control-ui-i18n.ts:1282-1290 | Settling a promise has an effect the first time only |
| `RpcClient.PiRpcClient.StopTimers` | openclaw/scripts/control-ui-i18n.ts:1282-1284 | Both timers of the request are stopped, nothing else changes |
| `RpcClient.PiRpcClient.RejectPendingPrompt` | openclaw/scripts/control-ui-i18n.ts:1184-1190 | The pending prompt is rejected and its slot freed; without one nothing happens |
| `RpcClient.PiRpcClient.OnProcessClosed` | openclaw/scripts/control-ui-i18n.ts:1169-1174 | The step of the specification for a closed process |
| `RpcClient.PiRpcClient.HandleStdoutLine` | openclaw/scripts/control-ui-i18n.ts:1192-1238 | The step of the specification for every kind of line: responses match by id, `agent_end` does not; the handler throws exactly for the JSON text `null` while a prompt is pending, and then changes nothing. What that step does to a prompt is stated, branch by branch, by `ResponsesDecide`, `EndsSettle` and `IdleStays` |
| `RpcClient.ResponsesDecide` | openclaw/scripts/control-ui-i18n.ts:1209-1225 | The response to a pending prompt: accepted, it goes on waiting, unsettled and with its timer; refused, it is rejected with the trimmed error or a default text; a response with another id does nothing |
| `RpcClient.EndsSettle` | openclaw/scripts/control-ui-i18n.ts:1226-1235 | An `agent_end` resolves the pending prompt with its text, or rejects it with the failure found instead, and leaves no timer |
| `RpcClient.AnsweredTurn` | openclaw/scripts/control-ui-i18n.ts:1209-1304 | The ordinary course from any idle, open client: asked, begun, accepted and ended with a text, the prompt is resolved with that text under its own request |
| `RpcClient.AcceptedThenAnswered` | openclaw/scripts/control-ui-i18n.ts:1209-1235 | From any state with a pending prompt an accepting response and an `agent_end` resolve it with the text of the latter |
| `RpcClient.FailuresSettle` | openclaw/scripts/control-ui-i18n.ts:1169-1190 | What time-out, write error, process error and closed process reject the pending prompt with; time-out and closed process close the client, the others do not |
| `RpcClient.IdleStays` | openclaw/scripts/control-ui-i18n.ts:1192-1207 | Without a pending prompt no line, timer or error settles anything |
| `RpcClient.TurnComesExactly` | openclaw/scripts/control-ui-i18n.ts:1240-1241 | The next prompt's turn has come if and only if none is pending |
| `RpcClient.TurnSends` | openclaw/scripts/control-ui-i18n.ts:1241-1304 | At its turn a prompt is sent under a new id, or refused by a closed client |
| `RpcClient.PiRpcClient.Prompt` | openclaw/scripts/control-ui-i18n.ts:1240-1241 | A call takes the next place in the chain |
| `RpcClient.PiRpcClient.StartNext` | openclaw/scripts/control-ui-i18n.ts:1241-1304 | The next prompt is refused on a closed client, else gets the next id, both timers and the pending slot |
| `RpcClient.PiRpcClient.OnTimeout` | openclaw/scripts/control-ui-i18n.ts:1260-1274 | A timer settles and closes only if its own request is still pending |
| `RpcClient.PiRpcClient.OnWriteError` | openclaw/scripts/control-ui-i18n.ts:1292-1301 | A write error stops the timers, frees the slot only for its own request and rejects that request's prompt |
| `RpcClient.PiRpcClient.Close` | openclaw/scripts/control-ui-i18n.ts:1307-1318 | Closing is idempotent |
| `Translate.ReturnIsComplete` | openclaw/scripts/control-ui-i18n.ts:1370-1379 | A normal return of `translateBatch` maps exactly the item keys to non-blank strings, each of them what an answered prompt of this run said for that key among its items; the items of the answered prompts, in order, are the items of the batch |
| `Translate.PromptBound` | openclaw/scripts/control-ui-i18n.ts:1362-1413 | For every failure pattern at most 4n - 2 prompts are sent for n >= 1 items (two for none) |
| `Translate.PromptBoundIsTight` | openclaw/scripts/control-ui-i18n.ts:1362-1413 | For every batch some sequence of answers uses exactly 4n - 2 prompts and still succeeds |
| `Translate.DepthBound` | openclaw/scripts/control-ui-i18n.ts:1386-1402 | At most 2^k items are split at most k levels deep, whatever fails |
| `Translate.BatchKeepsProtocol` | openclaw/scripts/control-ui-i18n.ts:1380-1382 | In every run of a batch each failed prompt is followed by a client reset before the next prompt |
| `Translate.CollectDone` | openclaw/scripts/control-ui-i18n.ts:1370-1377 | A reply is accepted if and only if every item key holds a non-blank string, and then gives exactly those |
| `Translate.TranslateBatch` | openclaw/scripts/control-ui-i18n.ts:1352-1414 | The retry loop with recursive halves equals the specification function on result, prompts used and the exact log of prompts and resets; after an error no client is left. Which messages split, and into what, is stated by `TimeoutExactly` and `AfterFirstPrompt` |
| `Translate.TimeoutExactly` | openclaw/scripts/control-ui-i18n.ts:871-873 | A message is a time-out if and only if at some place its letters are those of "timed out", each in upper or lower case |
| `Translate.TimeoutAnywhere` | openclaw/scripts/control-ui-i18n.ts:871-873 | Text before and after does not matter |
| `Translate.AfterFirstPrompt` | openclaw/scripts/control-ui-i18n.ts:1383-1413 | After a failed first prompt and the reset: a time-out is followed by the first half of the items, rounded up, or, for one item, by nothing; any other failure by the same items |
| `Translate.FailureIsLast` | openclaw/scripts/control-ui-i18n.ts:1380-1413 | A batch that fails fails with the error of its last prompt, after which only the client was reset: nothing of a second half is sent after the first has failed |
| `Translate.MissingIsNamed` | openclaw/scripts/control-ui-i18n.ts:1370-1377 | The first key without a non-blank string is named in the error |
| `Translate.ClientAccess.GetClient` | openclaw/scripts/control-ui-i18n.ts:1500-1505 | A client is created only when none is in use |
| `Translate.ClientAccess.Prompt` | openclaw/scripts/control-ui-i18n.ts:1370-1379 | One prompt is used up and logged with the outcome that the outcome function gives it; which settlement that is, is stated in `Composition` |
| `Translate.ClientAccess.ResetClient` | openclaw/scripts/control-ui-i18n.ts:1506-1512 | The client in use is given up; without one nothing happens |
| `Batches.PackIsOptimal` | openclaw/scripts/control-ui-i18n.ts:1085-1109 | No contiguous partition into batches within the same limits uses fewer batches |
| `Batches.PackIsGreedyPartition` | openclaw/scripts/control-ui-i18n.ts:1085-1109 | The batches concatenate to the input in order; each has 1 to 20 items; a batch of several has estimate + 2 per item within the budget; and each batch but the last could not have taken the next item |
| `Batches.GreedyStaysAhead` | openclaw/scripts/control-ui-i18n.ts:1085-1109 | The exchange argument, for a greedy partition of any tail against any partition of the whole |
| `Batches.BuildTranslationBatches` | openclaw/scripts/control-ui-i18n.ts:1085-1109 | The loop with its running character count equals the specification, and the count is the estimate plus two per item |
| `Batches.LimitsInFigures` | openclaw/scripts/control-ui-i18n.ts:897-899 | The limits in figures: 1 to 20 items, and for several at most the budget for 2 and, for each item, the lengths of key and text and 10 |
| `SyncFixpoint.WrittenSyncIsFixpoint` | openclaw/scripts/control-ui-i18n.ts:1423-1664 | From all files and options, and for any provider and model in either run, which are part of every cache key: after a written sync that did not throw, a second run over the same source sends no prompt, reports nothing changed and leaves all four files if and only if the written files are idle for it: with a provider, no fallback is left and the metadata name its provider and model; each memory entry under one of its cache keys agrees with the table; and no old fallback without such an entry finds its text hash in the memory. Otherwise it reports a change or throws. The dotted keys must be rebuildable |
| `SyncFixpoint.SameProviderIsFixpoint` | openclaw/scripts/control-ui-i18n.ts:1423-1664 | Under one provider and model, with or without a key in either run, the second run changes nothing if and only if it has no key, or no fallback is left and the metadata name the provider and model; after a first run with a key that is always so |
| `SyncFixpoint.UnchangedIsSettled` | openclaw/scripts/control-ui-i18n.ts:1449-1490 | A run that reports no change has found the files settled under its own cache keys |
| `SyncFixpoint.LostProviderBreaksFixpoint` | openclaw/scripts/control-ui-i18n.ts:243-268 | When the Anthropic key alone decided on the provider: a written sync with it, from a table with one text and a memory with another one under the default provider, followed by a check without it, which reports a change and no fallback |
| `SyncFixpoint.KeylessCheckExactly` | openclaw/scripts/control-ui-i18n.ts:243-294 | A check without the keys, after any written sync with them, from all files and over all rebuildable sources, reports no change if and only if the provider is set by name or the OpenAI key was among the keys |
| `SyncFixpoint.KeylessProvider` | openclaw/scripts/control-ui-i18n.ts:243-265 | Taking the keys away keeps the configured provider, and then the model, if and only if the provider is set by name, or the OpenAI key was set, or no Anthropic key was |
| `SyncFixpoint.OutdatedChanges` | openclaw/scripts/control-ui-i18n.ts:1582-1632 | A run with a provider over metadata that hold a fallback or name another provider or model reports a change or throws |
| `SyncFixpoint.FixpointExactly` | openclaw/scripts/control-ui-i18n.ts:1423-1664 | Without a provider the fixpoint holds from all files if and only if the source keys are rebuildable: none starts with a dot, none runs through another |
| `SyncFixpoint.LostKeyBreaksFixpoint` | openclaw/scripts/control-ui-i18n.ts:1577-1580 | The other direction, concretely: when a dotted key is lost in the rebuild, the locale that holds just that key is reported as changed again |
| `SyncFixpoint.CleanSourceIsRebuildable` | openclaw/scripts/control-ui-i18n.ts:326-336 | Every source table whose keys are dot-free and whose nested tables are non-empty meets the condition |
| `SyncFixpoint.ProviderLeavesNoFallback` | openclaw/scripts/control-ui-i18n.ts:1492-1611 | With a provider a written sync that returns leaves no fallback, translatedKeys = totalKeys, and in a rebuildable source exactly the source keys have a value |
| `SyncFixpoint.FinalPlanDone` | openclaw/scripts/control-ui-i18n.ts:1449-1568 | When the decision, translation and fallback loops are through, every source key is done: it has a value, its memory entry agrees with it, and its fallback mark is one that recurs |
| `SyncFixpoint.SaveLoad` | openclaw/scripts/control-ui-i18n.ts:484-512 | Writing the memory in cache-key order and loading it back keeps every association |
| `SyncLocale.BuildTranslationMemoryByTextHash` | openclaw/scripts/control-ui-i18n.ts:514-526 | The map holds for each text hash the last eligible entry of the locale, and nothing else. Which one the specification finds is stated by `SyncDecisions.ByTextHashIsLast` |
| `SyncDecisions.ByTextHashIsLast` | openclaw/scripts/control-ui-i18n.ts:514-526 | An entry is found for a text hash if and only if some entry of the memory is for the hash and the locale, and then it is the last such entry |
| `SyncDecisions.LoadKeepsLast` | openclaw/scripts/control-ui-i18n.ts:484-503 | Loading keeps, for each non-empty cache key, the last line with a translation, and nothing else |
| `SyncLocale.Locale.DecideKeys` | openclaw/scripts/control-ui-i18n.ts:1445-1490 | The loop over the source keys equals the decision table: cached, copied by text hash, kept, or pending. What is decided for each key is stated on the stores alone by `SyncDecisions.AllDecided` |
| `SyncDecisions.AllDecided` | openclaw/scripts/control-ui-i18n.ts:1449-1490 | After the first loop, for each source key, with conditions on the stores alone: it has the cached text, or that of the last entry for its text hash with a copy of the entry under its own cache key, or the existing text, with its fallback mark kept in the first and third case; or it is pending with key, text, hash and cache key |
| `SyncDecisions.PendingInOrder` | openclaw/scripts/control-ui-i18n.ts:1483-1488 | The pending keys are in the order of the source |
| `SyncDecisions.FallsBackToEnglish` | openclaw/scripts/control-ui-i18n.ts:1554-1568 | Without a provider a pending key gets its English text and becomes a fallback, whether or not forced; all other keys and the memory stay as decided |
| `SyncDecisions.FallBackSays` | openclaw/scripts/control-ui-i18n.ts:1554-1568 | The last loop for any plan and items of different keys: a key with a value keeps it; an open one keeps its old text, unless forced, and its old fallback mark; otherwise it has its English text and is a fallback |
| `SyncDecisions.PendingAreRecorded` | openclaw/scripts/control-ui-i18n.ts:1522-1541 | After a run with a provider each pending key has a memory entry that holds its text, text hash, key and both languages, provider, model and time of the run, and the translation that is its value |
| `SyncDecisions.MetaSays` | openclaw/scripts/control-ui-i18n.ts:1582-1611 | The new metadata: each fallback once, in order, translatedKeys and fallbacks together all keys; provider and model of the run if it has a provider, else the old ones; and the old date if nothing else differs |
| `SyncDecisions.FilesSay` | openclaw/scripts/control-ui-i18n.ts:1577-1632 | The other files to be there: each source key with its value, the glossary kept unless missing or empty, every memory entry, in the order of the cache keys |
| `SyncDecisions.SyncSays` | openclaw/scripts/control-ui-i18n.ts:1570-1664 | A sync throws if and only if a batch does or some text and its value have different placeholders; otherwise it reports a change exactly when the expected files differ, and writes them exactly when asked to and not only checking |
| `SyncDecisions.VariablesSay` | openclaw/scripts/control-ui-i18n.ts:243-268 | Which provider and model the environment variables give, by name |
| `SyncLocale.Locale.ApplyTranslations` | openclaw/scripts/control-ui-i18n.ts:1522-1541 | Each translated item gets its value and a memory entry of its own |
| `SyncLocale.Locale.TranslatePending` | openclaw/scripts/control-ui-i18n.ts:1492-1545 | All batches in order on one client access; an error ends the run; in every case no client is left |
| `SyncLocale.Locale.FallBackToSource` | openclaw/scripts/control-ui-i18n.ts:1554-1568 | The loop over pending keys equals its specification: an open key keeps its old text or becomes an English fallback |
| `SyncLocale.Locale.MakePlan` | openclaw/scripts/control-ui-i18n.ts:1445-1568 | The three phases in sequence |
| `SyncLocale.Locale.SyncLocale` | openclaw/scripts/control-ui-i18n.ts:1423-1664 | The whole run equals the specification function on outcome, files and prompts used |
| `SyncLocale.Locale.Finish` | openclaw/scripts/control-ui-i18n.ts:1577-1664 | Files are compared with the expected ones and written exactly when changed, asked to and not only checking |
| `LocaleTree.RebuildFlatten` | openclaw/scripts/control-ui-i18n.ts:326-354 | `setNestedValue` folded over `flattenTranslations(t)` gives t back, key order included, if and only if t is clean: dot-free keys, no empty nested table, no nested table under an empty top-level key |
| `LocaleTree.FlattenRebuild` | openclaw/scripts/control-ui-i18n.ts:1577-1580 | Flattening the rebuild of a dotted map gives the map back, whatever the insertion order, if and only if its keys are rebuildable |
| `LocaleTree.SetPathLookup` | openclaw/scripts/control-ui-i18n.ts:338-354 | After one `setNestedValue` the new leaf is found, every leaf above or below its path is gone, all others are as before |
| `LocaleTree.RebuildLookup` | openclaw/scripts/control-ui-i18n.ts:1577-1580 | Each path of a rebuilt table reads the map's value for its dotted key, and no other path has one |
| `LocaleTree.KeptKeysRebuildable` | openclaw/scripts/control-ui-i18n.ts:1577-1580 | If every key of a map survives the rebuild, its keys are rebuildable |
| `LocaleTree.FlattenClean` | openclaw/scripts/control-ui-i18n.ts:326-336 | Flattening a clean table lists its leaves under distinct dotted keys, and reading by dotted key is lookup by path |
| `LocaleTree.Replay` | openclaw/scripts/control-ui-i18n.ts:338-354 | Setting the leaves of a table one by one after disjoint entries appends that very table |
| `LocaleTree.FlattenTranslations` | openclaw/scripts/control-ui-i18n.ts:326-336 | The recursive loop into a shared map equals the specification, for any prefix and any map to start with |
| `LocaleTree.DotsBetweenKeys` | openclaw/scripts/control-ui-i18n.ts:326-336 | Nested keys are joined by dots |
| `LocaleTable.SetNestedValue` | openclaw/scripts/control-ui-i18n.ts:338-354 | In place, on mutable nested objects: the walk with its cursor, replacing what is missing or a string by a new object, leaves the whole table as the value-level `setNestedValue` says; no object stands in two places before or after, and only new objects join |
| `LocaleTable.Enter` | openclaw/scripts/control-ui-i18n.ts:342-352 | One round of the walk leads the cursor one key further and does not change what the final assignment will give |
| `LocaleTable.AssignAt` | openclaw/scripts/control-ui-i18n.ts:347-353 | One assignment at the cursor changes the root table at the cursor's path and nowhere else |
| `LocaleTable.GraftHolds` | openclaw/scripts/control-ui-i18n.ts:353-353 | The heap argument for it: all tables but the cursor's untouched, the root is laid out as before with the cursor's new layout at its path |
| `LocaleTable.GraftView` | openclaw/scripts/control-ui-i18n.ts:353-353 | The value argument: what is set through the cursor is set in the whole table |
| `LocaleTable.BuildNextMap` | openclaw/scripts/control-ui-i18n.ts:1577-1580 | The loop of in-place `setNestedValue` calls from an empty object gives the fold over values |
| `LocaleTable.Render` | openclaw/scripts/control-ui-i18n.ts:428-446 | Reading the mutable table out entry by entry gives the table as a value |
| `Text.TrimBlank` | openclaw/scripts/control-ui-i18n.ts:1372-1374 | `!value.trim()` holds exactly for texts of white space only |
| `Text.TrimExactly` | openclaw/scripts/control-ui-i18n.ts:1215-1218 | Trimming takes white space off both ends and nothing else |
| `Text.AsciiSpaces` | openclaw/scripts/control-ui-i18n.ts:1372-1374 | Of the ASCII characters the blank and those from tab to carriage return are white space |
| `Text.LowerAscii` | openclaw/scripts/control-ui-i18n.ts:871-873 | Of the ASCII characters the 26 capital letters change in lower case |
| `Sorting.SortCanonical` | openclaw/scripts/control-ui-i18n.ts:505-507 | Two maps with the same associations sort to the same list, whatever order they were filled in |
| `SourceScan.ScanUndoesPrint` | openclaw/scripts/check-temp-path-guardrails.ts:72-162 | For all prefixes, suffixes and lists of trimmed, non-blank, quote-closed, balanced arguments without top-level commas: scanning `pre(a,b,...)post` finds the call's own closing parenthesis and splits back to the same list. Which texts are self-contained is stated in literal characters by `ScanGrammar.SelfContainedExactly` |
| `ScanGrammar.ScanUndoesGrammar` | openclaw/scripts/check-temp-path-guardrails.ts:72-162 | The round trip over a grammar of literal characters that does not mention the scanner: arguments are sequences of plain characters and quoted sections with escapes, with each kind of bracket balanced for itself and commas within brackets only |
| `ScanGrammar.SelfContainedExactly` | openclaw/scripts/check-temp-path-guardrails.ts:46-162 | The texts that the scanner passes over as one argument are exactly those of the grammar |
| `ScanGrammar.QuotedIsSelfContained` | openclaw/scripts/check-temp-path-guardrails.ts:46-70 | Anything without the quote and a backslash between two equal quotes, of any of the three kinds, is self-contained |
| `ScanGrammar.EscapedIsSelfContained` | openclaw/scripts/check-temp-path-guardrails.ts:54-70 | So it is with a backslash and any character in it |
| `ScanGrammar.BracketedIsSelfContained` | openclaw/scripts/check-temp-path-guardrails.ts:115-150 | A self-contained text in brackets of any of the three kinds is self-contained, commas then allowed |
| `ScanGrammar.ConcatenationIsSelfContained` | openclaw/scripts/check-temp-path-guardrails.ts:97-162 | Two self-contained texts one after the other are self-contained |
| `ScanGrammar.TopCommaIsNot` | openclaw/scripts/check-temp-path-guardrails.ts:151-155 | A text with a comma between two self-contained texts, or with a bracket that is not closed or not opened, is not self-contained |
| `SourceScan.CallIsClosed` | openclaw/scripts/check-temp-path-guardrails.ts:72-95 | The parenthesis found is at exactly the end of the joined arguments |
| `SourceScan.PiecesOfJoin` | openclaw/scripts/check-temp-path-guardrails.ts:97-162 | Splitting undoes joining for self-contained pieces |
| `SourceScan.JoinPieces` | openclaw/scripts/check-temp-path-guardrails.ts:97-162 | For every text at all, and from every state of the scanner, the untrimmed pieces joined by commas are the text: splitting loses and invents nothing |
| `SourceScan.FindMatchingParen` | openclaw/scripts/check-temp-path-guardrails.ts:72-95 | The loop equals the recursive scan from the opening parenthesis, -1 included |
| `SourceScan.SplitTopLevelArguments` | openclaw/scripts/check-temp-path-guardrails.ts:97-162 | The loop equals trimming the pieces, a blank last one dropped. Where it splits is stated in literal characters by `ScanGrammar` |
| `SourceScan.QuoteScanState.BeginQuotedSection` | openclaw/scripts/check-temp-path-guardrails.ts:46-52 | Only the three quote characters begin a section, as `ScanGrammar.QuotedIsSelfContained` states for each of them |
| `SourceScan.QuoteScanState.ConsumeQuotedChar` | openclaw/scripts/check-temp-path-guardrails.ts:54-70 | Escapes and closing quotes; nothing is consumed outside a section |
| `WorkerPool.ScheduleIndependent` | openclaw/scripts/check-temp-path-guardrails.ts:223-263 | For every schedule of the workers' atomic steps: once all have returned, the result is the sequential in-order read of the readable paths |
| `WorkerPool.SequentialExactly` | openclaw/scripts/check-temp-path-guardrails.ts:239-254 | Read are exactly the non-empty paths that can be read, each with its text |
| `WorkerPool.WorkersAre` | openclaw/scripts/check-temp-path-guardrails.ts:257-261 | One worker a path, but at least one and at most 24 |
| `WorkerPool.EachIndexClaimedOnce` | openclaw/scripts/check-temp-path-guardrails.ts:232-238 | Along every schedule the indices are claimed in order, each exactly once |
| `WorkerPool.RunKeeps` | openclaw/scripts/check-temp-path-guardrails.ts:232-255 | Over every schedule: each claimed index is in flight with exactly one worker or written with what its path reads |
| `WorkerPool.StepsRunOut` | openclaw/scripts/check-temp-path-guardrails.ts:232-255 | Every step of a worker that has not returned uses up a finite number of steps: no schedule runs for ever |
| `WorkerPool.SharedPool.Resume` | openclaw/scripts/check-temp-path-guardrails.ts:232-255 | One worker's code from an await to the next, on the shared counter and array, equals the step of the specification |
| `CommandRunner.SettlesOnceAndInTime` | openclaw/scripts/openclaw-cross-os-release-checks.ts:3362-3477 | Over every event order: settled at most once; with a finite time-out settled by its delay + 15000 ms; never resolved after the time-out fired, nor with a checked non-zero exit; once settled the time-out is not live, and the heartbeat is live exactly until then. In milliseconds: `TimeoutInMilliseconds` |
| `CommandRunner.TimeoutInMilliseconds` | openclaw/scripts/openclaw-cross-os-release-checks.ts:3403-3421 | In milliseconds: with a time-out T from 1 to 2^31 - 1 no run is unsettled after T + 15000, settles later than that, or times out before T, and a refused termination settles at T + 15000 exactly; without a finite, non-zero time-out none times out |
| `CommandRunner.SettledWith` | openclaw/scripts/openclaw-cross-os-release-checks.ts:3448-3475 | What each event settles an unsettled command with, told from the events before it: error, time-out, refused termination, exit code, or the result with all output |
| `CommandRunner.ResolvesOnlyOnGoodClose` | openclaw/scripts/openclaw-cross-os-release-checks.ts:3452-3475 | A step resolves the promise if and only if it is the close of an unsettled command that has not timed out, with exit code zero or unchecked; the result is that code, a missing one as 1, and all that was written to stdout and to stderr so far |
| `CommandRunner.OutcomeIsFinal` | openclaw/scripts/openclaw-cross-os-release-checks.ts:3374-3382 | No further event changes a settled outcome |
| `CommandRunner.OutputCollected` | openclaw/scripts/openclaw-cross-os-release-checks.ts:3437-3446 | At every point the collected stdout and stderr are everything the child wrote to each, in order |
| `CommandRunner.TimerLeftExactly` | openclaw/scripts/openclaw-cross-os-release-checks.ts:3374-3420 | After any run a settled command has a live timer if and only if at some event the time-out fired on the unsettled command, its kill made the child emit an error before `kill` returned, and the second timer, armed after that, has not fired since |
| `CommandRunner.TimerMayOutliveSettling` | openclaw/scripts/openclaw-cross-os-release-checks.ts:3410-3419 | The concrete run: the promise is settled before the second timer is armed, and that timer stays |
| `CommandRunner.RunKeeps` | openclaw/scripts/openclaw-cross-os-release-checks.ts:3342-3477 | The invariant behind it over every legal run |
| `CommandRunner.Command.Settle` | openclaw/scripts/openclaw-cross-os-release-checks.ts:3374-3382 | Settling has an effect once, and then clears all timers |
| `CommandRunner.Command.OnTimeout` | openclaw/scripts/openclaw-cross-os-release-checks.ts:3405-3420 | The kill comes before the second timer is armed |
| `CommandRunner.Command.OnKillWait` | openclaw/scripts/openclaw-cross-os-release-checks.ts:3411-3419 | The second timer rejects if nothing else has settled |
| `CommandRunner.Command.OnClose` | openclaw/scripts/openclaw-cross-os-release-checks.ts:3452-3475 | Timed out, failed or resolved, in that order; a missing exit code counts as 1 |
| `CommandRunner.Command.OnError` | openclaw/scripts/openclaw-cross-os-release-checks.ts:3448-3450 | A child error rejects |
| `Appcast.AcceptedFeedSplits` | openclaw/scripts/release-check.ts:642-661 | For years from 1000 on, in an accepted feed every dated build before the adoption date is below 10^9 and every one on or after it is not: all earlier builds are strictly smaller than all later ones |
| `Appcast.SplitsExactly` | openclaw/scripts/release-check.ts:642-661 | For any two versions of different dates: every accepted feed adopted between the two dates has the smaller build at the earlier one, if and only if the later version is of the year 1000 or after |
| `Appcast.EarlyYearsNeedNotSplit` | openclaw/scripts/release-check.ts:642-661 | For every later version before the year 1000 there is an accepted feed of three items that does not split |
| `Appcast.SubfeedAccepted` | openclaw/scripts/release-check.ts:607-664 | Every non-empty sub-collection of an accepted feed is accepted, though its adoption date may be later |
| `Appcast.AcceptedExactly` | openclaw/scripts/release-check.ts:607-664 | No errors if and only if there are items, all with numeric builds, and every dated one reaches the floor that the adoption date gives it |
| `Appcast.ErrorsExactly` | openclaw/scripts/release-check.ts:607-664 | Which errors are reported, each if and only if an item says so: no items, a missing or non-numeric build with its title, a build below its floor with both numbers and the kind of floor |
| `Appcast.AdoptionIsEarliest` | openclaw/scripts/release-check.ts:642-649 | The adoption date is the least of the fixed one and the dates of the builds in the lane range |
| `Appcast.CanonicalReleaseKeepsFeed` | openclaw/scripts/sparkle-build.ts:55-57 | Adding a release dated on or after the adoption date with its canonical build keeps a feed accepted |
| `Appcast.CanonicalBuildPasses` | openclaw/scripts/sparkle-build.ts:55-57 | The canonical build passes under every adoption date |
| `Appcast.FloorsAreLexicographic` | openclaw/scripts/sparkle-build.ts:37-52 | Lane floors order versions by year, month, day and lane; legacyFloor < 10^9 up to year 9999 and 10^9 <= laneFloor from year 1000 |
| `Appcast.FloorsAreDecimal` | openclaw/scripts/sparkle-build.ts:37-52 | The floors are the numbers whose digits are year, two-digit month and day, followed by nothing, a zero, or the two-digit lane |
| `Appcast.LaneSays` | openclaw/scripts/sparkle-build.ts:40-49 | A release without suffix is in lane 90, above all others; a suffix that ends in a number is in that lane, at most 89; any other in lane 1 |
| `Appcast.VersionWithoutDate` | openclaw/scripts/sparkle-build.ts:17-35 | A version that is not dated, or has no such month or day, has no floors |
| `Appcast.CollectAppcastSparkleVersionErrors` | openclaw/scripts/release-check.ts:607-664 | The two loops report exactly the specified errors in order |
| `ProcessTree.ReadProcessTreeCpuMs` | openclaw/scripts/bench-gateway-startup.ts:636-673 | For every list of rows, cyclic or with repeated pids: the sum of CPU times over the set of non-zero pids reachable from the root, each once; nothing for an unknown root |
| `ProcessTree.SumTree` | openclaw/scripts/bench-gateway-startup.ts:658-672 | The stack loop terminates and sums exactly that set |
| `ProcessTree.IndexRows` | openclaw/scripts/bench-gateway-startup.ts:636-653 | The child lists and the CPU map hold exactly the parent relation and each pid's last row |
| `ProcessTree.CpuIsLast` | openclaw/scripts/bench-gateway-startup.ts:649-649 | The CPU time of a pid is that of its last row |
| `ProcessTree.TreeIsLeast` | openclaw/scripts/bench-gateway-startup.ts:658-671 | The tree is the least set of pids that holds the root and, with the parent of a row, the row's own pid; pid 0 is not in it |
| `ProcessTree.TotalSplits` | openclaw/scripts/bench-gateway-startup.ts:667-667 | The sum is each pid's CPU time for single pids, and adds up over disjoint sets |
| `ProcessTree.ClosedIsTree` | openclaw/scripts/bench-gateway-startup.ts:661-671 | A set of reachable pids that is closed under children and holds the root is the whole tree |
| `SchemaIndex.SignatureIgnoresKeyOrder` | openclaw/scripts/protocol-gen-swift.ts:89-106 | Two schemas share a signature, which is the JSON text of the value with sorted keys, if and only if they are equal up to the order of object keys, at every depth |
| `JsonText.PrintInjective` | openclaw/scripts/protocol-gen-swift.ts:104-106 | The JSON text of a value, with escaped strings, determines the value |
| `JsonText.Unique` | openclaw/scripts/protocol-gen-swift.ts:104-106 | Wherever a text goes on as JSON does after a value, it begins with the text of one value only |
| `JsonText.ArraySays` | openclaw/scripts/protocol-gen-swift.ts:104-106 | An array of two is written with brackets and a comma |
| `JsonText.ObjectSays` | openclaw/scripts/protocol-gen-swift.ts:104-106 | An object of two fields is written with braces, quoted names, colons and a comma |
| `JsonText.EscapedSays` | openclaw/scripts/protocol-gen-swift.ts:104-106 | How each character of a string is written |
| `SchemaIndex.IndexIsExact` | openclaw/scripts/protocol-gen-swift.ts:108-120 | After any registrations a signature names something if and only if exactly one registration has it, and then that one's name; the duplicates are exactly the signatures seen twice or more |
| `SchemaIndex.StructuralNameIsUnique` | openclaw/scripts/protocol-gen-swift.ts:122-127 | An unregistered object is named structurally if and only if exactly one registered schema equals it up to key order, by that one's name |
| `SchemaIndex.NameByIdentity` | openclaw/scripts/protocol-gen-swift.ts:108-127 | A registered object goes by the name of its last registration, whatever its schema; an unregistered one has no name where structural names are not allowed |
| `SchemaIndex.Registry.RegisterNamedSchema` | openclaw/scripts/protocol-gen-swift.ts:108-120 | The three updates of the index equal the specification's step |
| `LabelBatches.FetchOpenLabelItemBatches` | openclaw/scripts/label-open-issues.ts:426-486 | For all pages that reach as far as the loop asks, to a last page or to the limit, and all limits, fractional ones included: the batches concatenate to the first ceil(limit) items of the pages, all but the last hold 500, the last is not empty, indices run from 1 and fetchedCount is the running prefix length |
| `LabelBatches.CollectPage` | openclaw/scripts/label-open-issues.ts:452-468 | Within a page items are taken until the limit, and only full batches are yielded |
| `LabelBatches.RunAccounts` | openclaw/scripts/label-open-issues.ts:733-790 | Over a full run scanned = processed + skipped = items fetched, the final state is the initial one plus all scanned numbers, and what was saved last is that state |
| `LabelBatches.ResumeProcessesNothing` | openclaw/scripts/label-open-issues.ts:733-790 | A second run over the same items, however batched, from the saved state processes nothing and keeps the state |
| `LabelBatches.KnownAreSkipped` | openclaw/scripts/label-open-issues.ts:738-740 | A run over items whose numbers are all known only skips |
| `LabelBatches.PendingIsFilter` | openclaw/scripts/label-open-issues.ts:738-738 | The pending items of a batch are those whose number is not in the state, in their order |
| `LabelBatches.CeilingExactly` | openclaw/scripts/label-open-issues.ts:441-486 | The limit rounded up is the number of items below the limit |
| `LabelBatches.CutExactly` | openclaw/scripts/label-open-issues.ts:441-468 | An item is taken if and only if fewer items than the limit come before it |
| `LabelBatches.BatchesInFigures` | openclaw/scripts/label-open-issues.ts:441-486 | All batches but the last hold 500 items, the last 1 to 500 |
| `LabelBatches.LastPageEnds` | openclaw/scripts/label-open-issues.ts:441-486 | The items are those of all pages up to the first one without a successor |
| `LabelBatches.ProcessItems` | openclaw/scripts/label-open-issues.ts:733-790 | The nested loops equal the specified tally |
| `ConfigMerge.RerunIsNoOp` | setup/setup_wizard.py:801-805 | Running the wizard again with the same answers writes the same configuration |
| `ConfigMerge.OtherSettingsStay` | setup/setup_wizard.py:801-805 | Every plain setting that the answers do not determine keeps its value through a run |
| `ConfigMerge.MergeTakes` | setup/setup_wizard.py:387-397 | At every path a merge holds the new plain value where the new settings determine the path, else the old one |
| `ConfigMerge.MergeIdempotent` | setup/setup_wizard.py:387-397 | merge(merge(a, b), b) = merge(a, b) |
| `ConfigMerge.MergeAssociativeExactly` | setup/setup_wizard.py:387-397 | Merging three configurations is associative if and only if nowhere a dictionary of the first meets a plain value of the second and a dictionary of the third that does not overwrite all of it |
| `ConfigMerge.AbsorbedExactly` | setup/setup_wizard.py:387-397 | merge(a, c) = c if and only if c overwrites everything in a |
| `ConfigMerge.OverlayCommutes` | setup/setup_wizard.py:400-435 | Overlaying `meta`, `mcp` and `channels` commutes with merging settings that do not hold those keys |
| `ConfigMerge.OverlayTwice` | setup/setup_wizard.py:400-435 | The overlay is idempotent |
| `ConfigMerge.FallbacksAreTheOthers` | setup/setup_wizard.py:367-370 | The fallbacks are exactly the provider's models other than the primary |
| `ConfigMerge.CreateProviderConfig` | setup/setup_wizard.py:316-372 | The loop over the models equals the specified configuration |
| `ConfigMerge.AgentsSay` | setup/setup_wizard.py:316-372 | The settings for agents: primary, fallbacks, and an empty entry for the primary and for each model of the provider |
| `ConfigMerge.EntrySays` | setup/setup_wizard.py:316-372 | The provider's entry under its name: key, interface, models, and an address only where it has one |
| `ConfigMerge.AuthSays` | setup/setup_wizard.py:340-347 | The one profile, under the provider's name and `:default` |
| `ConfigMerge.ModelsSay` | setup/setup_wizard.py:353-366 | Each model's entry, in order: id without vendor, name, and images only for names that mention them |
| `ConfigMerge.LastPartSays` | setup/setup_wizard.py:357-357 | An id without its vendor is what follows the last slash |
| `ConfigMerge.OverlaySays` | setup/setup_wizard.py:400-435 | The overlay sets `meta` and `mcp`, `channels` only for Telegram settings, and leaves everything else |
| `ConfigMerge.ServerSays` | setup/setup_wizard.py:400-435 | The server's address, token, and a refresh token only where one was given |
| `ConfigMerge.MergeConfigs` | setup/setup_wizard.py:387-397 | The loop, in any key order, equals the merge |
| `ShellProfile.SaveIdempotentExactly` | setup/setup_wizard.py:262-310 | Saving the same variable twice is the same as once if and only if the value has neither line feed nor carriage return, and the profile is absent, or exports the variable already, or holds no carriage return |
| `ShellProfile.CarriageReturnIsLost` | setup/setup_wizard.py:278-304 | The concrete profile with a carriage return: the first save appends to it, the second rewrites it |
| `ShellProfile.OtherLinesStay` | setup/setup_wizard.py:281-304 | Without a line break in the value, with lines as text mode reads them: every line that does not export the variable stays in its place and every line that does becomes the export line; if there is none the file is kept as it is, byte for byte, and the export follows it |
| `ShellProfile.NotMentioned` | setup/setup_wizard.py:281-281 | The quick test on the whole text is sound: without the name no line exports it |
| `ShellProfile.SaveToShellProfile` | setup/setup_wizard.py:262-310 | The loop over the lines as read, with its found flag, equals the specification in all four branches |
| `ShellProfile.ExportsSay` | setup/setup_wizard.py:275-310 | What an exporting line begins with, and what a new profile holds, to the character |
| `ShellProfile.AppendedSays` | setup/setup_wizard.py:294-304 | A profile without the variable gets a blank line and what a new one would hold |
| `ShellProfile.ReadSays` | setup/setup_wizard.py:279-280 | Reading in text mode: text without a carriage return is unchanged, and a carriage return, with a line feed after it or alone, is a line feed |
| `BlockRewrite.RewriteIdempotentExactly` | openclaw/scripts/sync-moonshot-docs.ts:15-51 | A rewrite that succeeds gives the same text when run again if and only if the end marker occurs neither in the start marker nor in any line as it is written, indentation included |
| `BlockRewrite.OutsideStays` | openclaw/scripts/sync-moonshot-docs.ts:34-50 | The text before the start marker's line and the text after the end marker's line are unchanged |
| `BlockRewrite.RunOn` | openclaw/scripts/sync-moonshot-docs.ts:15-51 | On any text that opens with a block, what a run replaces and what it writes; a missing end marker is an error |
| `BlockRewrite.RewriteSays` | openclaw/scripts/sync-moonshot-docs.ts:15-51 | Every successful rewrite: the text before the first start marker's line, its indentation and the first end marker from there on; written are the same beginning, the block, and on a new line what follows the end marker's line |
| `BlockRewrite.BlockLines` | openclaw/scripts/sync-moonshot-docs.ts:40-46 | The lines of a block: indented start marker, the lines in order, each indented, and the indented end marker |
| `BlockRewrite.LineEndExactly` | openclaw/scripts/sync-moonshot-docs.ts:34-38 | A line ends behind the next line break, or with the text |

## Left out

- Freshness: an existing translation is kept when its source text changes, so nothing is claimed about it.
- Keys that JavaScript would reorder (integer-like ones), `__proto__` and inherited properties.
- Hashing, JSON text, formatting and module import: `hashText` is any function, `cacheKey` any function of provider,
  model, key and text hash that is never empty and, under one provider and model, injective in the key; rendering and
  reading back a file is the identity on what it holds. The placeholders of a text are any function of it. A glossary
  file is a list of pairs.
- `localeCompare`: sorting is by a fixed total order on strings, the first differing character deciding, so that
  languages and keys that collate as equal are not modelled. Lower case is modelled for ASCII letters.
- RpcClient.NoPromptIsStuck: an existence claim over time-outs and turns; that real timers fire is the
  platform's part.
- Spawning a process, boot delay, stdin `error` events, heartbeat log lines, message suffixes and the text
  extraction of `agent_end` (its result, or its error, is a parameter of the event).
- Composition.NoStaleAnswer: a failed process start counts as a failed prompt without a client; processes that
  write `agent_end` for a request they never received, or twice, are excluded.
- Translate.ClientAccess.Prompt: takes its outcome from a function of the prompt's number; `Composition` relates
  those outcomes to the settlements of clients and the texts of `agent_end` events.
- RpcClient.PiRpcClient.HandleStdoutLine: what the platform does about a rejection that nobody handles. By default
  Node ends the whole script; then a run simply stops there.
- Retry delays and progress output of `translateBatch`. Of the environment variables those for provider, model and
  keys are modelled, as trimmed values; locale, paths and the functions for hashing and placeholders are the same in
  both runs of a fixpoint.
- SyncFixpoint.KeylessCheckExactly: takes for granted that different providers give different cache keys, and three
  one-letter texts the same placeholders.
- CommandRunner.SettlesOnceAndInTime: timers are punctual (time does not pass a live timer); the Windows kill
  through `taskkill`, the log stream and fractional delays are not part of this model.
- `stripCommentsForScan`, the prefilter and the checks built on the scanner; the raw-copy scan over syntax trees.
- `path.relative` and file reads of the worker pool: a read is a function of the path.
- Appcast.CollectAppcastSparkleVersionErrors: starts from the fields of each item; XML extraction, the version
  pattern and rounding of numbers beyond 2^53 are not modelled.
- ProcessTree.ReadProcessTreeCpuMs: starts from parsed rows; running and parsing `ps` is not modelled.
- SchemaIndex.SignatureIgnoresKeyOrder: schemas with undefined fields, and strings with lone surrogates. Keys are sorted
  by one fixed order.
- The generator of label batches is modelled by the list it yields, and its pages by a list that reaches far
  enough; totals reported by the server, classification and labelling, and the second, identical loop over pull
  requests are left out.
- Aliasing between a configuration and its shallow copy, dictionary order, prompts and network of the setup
  wizard. `save_to_shell_profile` that cannot read or write only prints a hint; text encodings, and line ends other
  than the line feed on writing, are not modelled.
- BlockRewrite.RewriteIdempotentExactly: the theorems need markers that are not empty and hold no line break, as
  all callers pass; the function itself is defined for all.
- Argument parsers, metadata writers, installers and release lanes: sequential I/O without interesting state.
