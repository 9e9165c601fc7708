# Magic Stack: models and proofs

A Dafny model of the parts of Magic Stack that carry state, and proofs of what they promise. Each
component is given as a specification on values, as the imperative code that refines it (classes with
the original's fields, loops with invariants), and as theorems about the specification over all inputs,
all cuttings of a stream, or all runs.

- **Translation.** `Translator`, `StreamTranslator` model the incremental translator from the OpenAI
  chat stream to the Anthropic messages stream; `ChatStream`, `MessagesStream` the readings capture
  gives of the two wire formats. `TranslatorMeaning`, `TranslatorGrammar`, `TranslatorChunking` and
  `Wire` prove that translation preserves meaning, that its output is one well-formed message, and
  that neither depends on how the bytes arrive; `TranslatorSays` states input and output in plain words; `Blanks`, `EventText`, `EventSays` and `WireText` when
  the two readers of one text, capture by events and the translator by lines, find the same chunks in
  it. `UsageExtractor` and `UsageLanes` model the usage scanner, in front of and behind the translator;
  `UsageCounts` says what each counter ends as on each wire.
- **Configuration commit.** `ConfigState`, `ConfigAtomicity`, `ConfigKeychain`: two files, a redo journal and
  a keychain, with a failure or the end of the process before any step.
- **HTTP proxy.** `HttpFramer`, `HttpHead`, `HttpProxy`, `ProxyAttribution`: message framing (sections
  6.3 and 7.1 of RFC 9112) and the keep-alive loop that attributes requests to upstream connections.
  `FramingSays` states what heads and header lines declare, `ProxyDelivery` what an upstream finds in what
  it was written, `ProxyService` what the client is served.
- **Thread-owning runtime.** `AsyncRuntime`: callers and worker threads interleaved at the points where
  the lock is taken or released. `RuntimeSignals`: what stopping does, and what an undisturbed start comes to.
- **System proxy.** `SystemProxy`, `SystemProxySafety`, `NetworkHost`: snapshot, journal, apply,
  compare and restore, over commands that work, fail, take effect and are reported as failed, or are
  the last thing before the end of the process. `ProxyController`: the controller above; `ProxyConverges`: where its syncs arrive.
  `ProxyLives`: whole lives of it, with deaths, failed rollbacks, refused recoveries and restarts.
- **Mounts.** `MountMachine`, `MountCoordinator`: ticks, wishes and worker jobs; the coordinator is proved
  to be one small state machine per mount, and the run invariants are proved of that machine.
- **Capture budget.** `CaptureBudget`: one budget per flow and a cut at a character boundary (RFC 3629).
- **Replay, routing, roles.** `Replay`, `ReplaySays`: responses that come back as history. `TierRules`, `Router`,
  `RoleEnv`: prefix rules, the routing decision, and the role table as environment variables.
- **Configuration and statistics.** `ConfigIds`, `ConfigMerge`, `ConfigReads`, `UsageStats`.

`Prelude` and `ByteLines` hold the shared vocabulary. Bytes are `seq<char>` with one character per byte,
except in `CaptureBudget`, where they are numbers below 256. What a step outside the program does (a
disk write, a command, a dial, a clock) is an input: a list of fates, a function, or a parameter.

## Where the code is narrower than its comments

These are stated as theorems with the exact condition, or as a lemma with a concrete input.

- Capture joins the data lines of an event and reads on behind the end marker; the translator does
  neither. What texts they read alike: `WireText.SameChunksWhenReadAlike`.
- After an error chunk, `feed` goes on with lines it already holds, so the pieces of the stream matter
  there: `TranslatorChunking.ErrorMakesPiecesMatter`.
- Argument fragments of an earlier tool can target a block that is closed:
  `TranslatorGrammar.OneCompleteMessage`. Tool indices out of order, or names split or changed, change
  what capture lists: `TranslatorMeaning.OrderMatters`, `TranslatorMeaning.SameToolCalls`.
- The line-end replacement for frames that end in two carriage returns never applies:
  `UsageExtractor.CrFrameUnchanged`.
- A commit reported as failed is installed by the next recovery when its journal survived:
  `ConfigAtomicity.CrashAtomicity`. A commit does not recover an older journal first,
  which is safe exactly over settled files: `ConfigAtomicity.CommitOverJournalIsAtomicWhenSettled`.
- A client that names a framing header in `Connection` changes the framing of its own request:
  `ProxyAttribution.FramingSurvivesForwarding`.
- Two starts at once overlap, even if neither began between the claim and the spawn of the other:
  `AsyncRuntime.ConcurrentStartsOverlap`, `AsyncRuntime.EarlierStartsOverlap`.
- A crash between two commands of an apply is not recovered: `SystemProxySafety.CrashInsideApplyIsRefused`.
  The next sync then captures the half set settings and writes them over the journal that held the
  user's: `ProxyLives.CrashThenSyncLosesSettings`, and exactly when: `ProxyLives.KeptWhenCapturesAreTheUsers`.
  A retarget whose journal cannot be written forgets the snapshot: `ProxyController.FailedRetargetForgets`.
- The offer to fix a failed mount outlives the next dispatch: `MountMachine.OffersOutliveDispatch`.
  Quitting submits jobs beside running ones: `MountMachine.QuitEndsInvariant`.
- A cut exactly behind a character of several bytes keeps half of it: `CaptureBudget.CutKeepsCharacters`.
- Empty tool arguments other than {} come back as {}: `Replay.ArgumentsSurvive`.
- An inline route that is dropped for a working subagent tag is not announced: `Router.AnnouncedWhen`.
- Role models with a suffix of their own do not always survive the environment: `RoleEnv.TableRoundTrip`.
- Rules in front of a tier's own rule make derived roles differ: `TierRules.DerivedAgain`.
- A third server of one identity never gets an id, and the ids given before the failure stay in memory:
  `ConfigIds.ThirdOfOneIdentityFails`, `ConfigIds.AssignStableIds`. A file without ids loses its proxy
  role in the migration unless the first server had it: `ConfigIds.NoIdsLoseRole`.

## Model

| member | source | states |
|---|---|---|
| ChatStream.ReassembleOpenAi | capture/ai_capture_addon.py:243-276 | the loop that reads a chat stream computes the specification of its reading: text, tool calls sorted by index, last finish reason, last usage |
| ChatStream.MergeToolCalls | capture/ai_capture_addon.py:265-271 | merging the tool deltas of one chunk is the fold of the single merges |
| ChatStream.SortedSetMembers | capture/ai_capture_addon.py:239-240 | sorting tool indices lists each of them once, in ascending order |
| MessagesStream.ReassembleMessages | capture/ai_capture_addon.py:279-317 | the loop that reads a messages stream computes the specification of its reading, blocks in index order |
| MessagesStream.PositionAppend | suanpan/compat.py:487-588 | the event grammar reads a concatenation as one part after the other |
| Translator.ChunksAreAtoms | suanpan/compat.py:487-556 | without an error chunk, chunk boundaries do not matter: translating chunk by chunk equals applying the effects of all of them in a row |
| TranslatorMeaning.Simulation | suanpan/compat.py:487-565 | after every prefix, what capture has read out of the output so far corresponds to what it has read out of the input: text, and per tool its block, name and arguments, even when deltas interleave |
| TranslatorMeaning.TranslationMeaning | suanpan/compat.py:487-588 | for every error-free stream capture reads the same text, the mapped finish reason, the mapped usage, and the tools in order of first mention under the name of their first mention |
| TranslatorMeaning.SameToolCalls | suanpan/compat.py:532-556 | with indices first appearing in ascending order, both sides list the same tool calls if and only if each tool's last non-empty name is the one of its first mention |
| TranslatorMeaning.LastNameIsRead | capture/ai_capture_addon.py:265-271 | the name capture lists for a tool is the last non-empty one the stream gives for its index |
| TranslatorMeaning.OrderMatters | suanpan/compat.py:532-556 | with names whole and apart, both sides list the same tool calls if and only if indices first appear in ascending order |
| TranslatorMeaning.MeaningPreserved | suanpan/compat.py:430-588 | under both conditions the whole reading of the translation equals the reading of the source, with finish reason and usage mapped |
| TranslatorMeaning.WholeNamesSurvive | capture/ai_capture_addon.py:265-271 | names that come whole with the first mention are the names capture ends up with |
| TranslatorGrammar.OneCompleteMessage | suanpan/compat.py:487-588 | every error-free stream translates to exactly one complete message, blocks numbered from 0, each opened and closed once; every argument fragment targets the open block if and only if tool deltas do not interleave |
| TranslatorGrammar.PrefixesAreWellFormed | suanpan/compat.py:487-588 | every prefix of an accepted output is well formed so far |
| TranslatorSays.WhatIsRead | capture/ai_capture_addon.py:243-276 | for every list of chunks, without the fold that reads it: the text is that of all deltas in order, finish reason and usage are the last ones given, and a tool is there when a delta is about it, under the last name given for it, with its arguments in order |
| TranslatorSays.RecordSays | capture/ai_capture_addon.py:239-276 | the record lists those tools, each once, by ascending index |
| TranslatorSays.ToolsAnnounced | suanpan/compat.py:532-556 | for every error-free stream each tool gets exactly one block, in order of first mention, under the id and name of its first delta |
| TranslatorSays.StopReasonSays | suanpan/compat.py:164-170 | for every error-free stream, by the last non-empty finish reason in the input: the message ends by "tool_use" if and only if that is "tool_calls" or "function_call", "max_tokens" if and only if "length", "refusal" if and only if "content_filter", "end_turn" otherwise; and its usage is the last counts given, prompt, completion and cached each in its place |
| TranslatorSays.LineSays | suanpan/compat.py:457-470 | a line without its carriage returns carries data if it begins with "data:", one space behind that not counting, and ends the stream if that is [DONE] between blanks |
| TranslatorSays.ErrorSays | suanpan/compat.py:487-493 | the first error chunk: what went before is translated, then the error is passed on with its type and message, and nothing follows |
| StreamTranslator.OpenAIChatToAnthropicSSE.Feed | suanpan/compat.py:452-478 | one call with arbitrary bytes refines the one-pass specification: lines complete, their events out, the rest kept |
| StreamTranslator.OpenAIChatToAnthropicSSE.Finish | suanpan/compat.py:480-485 | the end closes what is open, once, and drops an unfinished line |
| StreamTranslator.OpenAIChatToAnthropicSSE.OnChunk | suanpan/compat.py:487-515 | the object's own fields go through the same step as the specification of one chunk |
| StreamTranslator.OpenAIChatToAnthropicSSE.OnToolCall | suanpan/compat.py:532-556 | a tool delta opens a block on first mention and sends its fragment to that block |
| StreamTranslator.OpenAIChatToAnthropicSSE.CloseBlock | suanpan/compat.py:559-565 | closes the open block and nothing else |
| StreamTranslator.OpenAIChatToAnthropicSSE.Close | suanpan/compat.py:567-588 | opens the message if nothing was sent, closes the block, sends finish reason and usage, and marks the object done |
| StreamTranslator.RunLinesAppend | suanpan/compat.py:457-478 | running over two stretches of lines is running over one after the other, up to the end marker |
| TranslatorChunking.PiecesDoNotMatter | suanpan/compat.py:452-484 | unless a complete line before the end marker is an error chunk, the client receives the same events however the bytes are cut |
| TranslatorChunking.ReceivedIsTranslation | suanpan/compat.py:452-484 | what is received is the translation of the chunks the bytes encode |
| TranslatorChunking.FailsSomewhere | suanpan/compat.py:457-478 | every line list either meets no error chunk before the end marker or has a first line that is one |
| TranslatorChunking.ErrorMakesPiecesMatter | suanpan/compat.py:457-478 | with an error chunk, all cuttings are received alike if and only if no line behind it carries anything for the client; feed goes on with lines it already holds |
| Wire.FramesIter | capture/ai_capture_addon.py:217-231 | frames written one after the other are read back as their items, one each |
| Wire.StreamRoundTrip | capture/ai_capture_addon.py:217-276 | a framed chunk stream is decoded by capture to the chunks it was written from |
| Wire.MeaningOnTheWire | suanpan/compat.py:424-484 | end to end over frames of one data line: whatever the cutting, what capture reads out of the client's text is what it reads out of the upstream's text, mapped |
| WireText.SameChunksWhenReadAlike | capture/ai_capture_addon.py:217-251 | over arbitrary bytes: for every parser that passes over blanks, capture's events and the translator's lines carry the same chunks if and only if no event has two data lines with something on them, payloads before the end marker begin as JSON does, and nothing else stands behind the marker or on an unfinished line |
| WireText.LinesDecoded | suanpan/compat.py:452-478 | the chunks the translator takes from its lines are those of the payloads before the first end marker, without their blanks |
| WireText.MeaningOfAnyText | suanpan/compat.py:424-484 | for every such text without an error chunk, with comments, other fields, any blanks and line ends, in any pieces, tool names whole and indices in order: what the client's text means to capture is what the upstream's text means to it, mapped |
| EventText.BlocksLosePayloads | capture/ai_capture_addon.py:224-231 | splitting a text into events first neither loses, adds nor reorders a data line |
| EventText.CrlfLines | capture/ai_capture_addon.py:224 | replacing CRLF by LF drops one CR from every complete line and changes nothing else |
| EventSays.JoinSaid | capture/ai_capture_addon.py:226-231 | joining the data lines of an event in which at most one carries something says what that line says |
| UsageExtractor.EarliestEnds | suanpan/usage_extractor.py:63-91 | the separator that starts first also ends first, for the three separators together |
| UsageExtractor.NextSepStable | suanpan/usage_extractor.py:63-91 | a separator found in a prefix is never revised by later bytes |
| UsageExtractor.ScanAppend | suanpan/usage_extractor.py:63-91 | scanning a concatenation is scanning the first part, then its rest with the second |
| UsageExtractor.CrFrameUnchanged | suanpan/usage_extractor.py:87-91 | the replacement made in frames that end in two carriage returns never finds anything to replace |
| UsageExtractor.Extractor.ConsumeSse | suanpan/usage_extractor.py:63-91 | the loop with a moving position hands on exactly the scanned frames and keeps the rest, or drops everything beyond the limit |
| UsageExtractor.Extractor.ConsumeEvent | suanpan/usage_extractor.py:103-149 | every payload line of a frame is merged into the counters |
| UsageExtractor.Extractor.Feed | suanpan/usage_extractor.py:50-62 | one call refines the specification of a feed, in stream and in document mode |
| UsageExtractor.FeedsAreOneScan | suanpan/usage_extractor.py:50-91 | within the limit, any pieces leave the counters and the buffer of one scan over all bytes |
| UsageExtractor.ScanningPieces | suanpan/usage_extractor.py:50-91 | for a stream one feed does not truncate: all cuttings agree on counters, buffer and flag if and only if no prefix leaves an unterminated stretch over the limit |
| UsageLanes.ChatLane | suanpan/usage_extractor.py:168-190 | on the raw stream each counter is the maximum of all values seen |
| UsageLanes.TranslatedLane | suanpan/compat.py:567-588 | on the translated stream the counters are those of the last usage object |
| UsageLanes.LanesAgree | suanpan/usage_extractor.py:103-190 | for every error-free stream the two lanes end with equal counters if and only if no usage object exceeds the last one |
| UsageLanes.CumulativeLanesAgree | suanpan/usage_extractor.py:168-190 | usage that never falls counts alike in both lanes |
| UsageLanes.LanesAgreeOnTheWire | suanpan/usage_extractor.py:50-190 | the same over bytes, each lane fed in pieces of its own |
| UsageCounts.CountersAreGreatest | suanpan/usage_extractor.py:103-190 | for any documents on any wire each of the four counters ends as the greatest of 0 and all values of its own field: of the start and delta usage on the messages wire, of the completed and incomplete usage with its cached detail on the responses wire, of every usage on the chat wire |
| UsageCounts.StreamCounts | suanpan/usage_extractor.py:50-149 | over bytes, in any pieces within the limit: the greatest values in the documents of the complete frames |
| UsageCounts.BlankLineEnds | suanpan/usage_extractor.py:63-91 | the first blank line, in any of the three line ends, ends a frame, which is handed on with LF lines |
| UsageCounts.NoBlankLineNoFrame | suanpan/usage_extractor.py:63-91 | without a blank line no frame is handed on and all bytes are kept |
| UsageCounts.OverLimitEnds | suanpan/usage_extractor.py:80-91 | more than four mebibytes without a blank line end the counting, with the counters as they were |
| UsageCounts.DocumentCounts | suanpan/usage_extractor.py:50-101 | a document in any pieces counts the values of its own usage once it is whole; beyond eight mebibytes nothing is counted |
| ConfigState.ConfigStateStore.CommitPlan | mpconf/config_state.py:304-381 | the commit, step by step over files, journal and keychain, with a failure or the end of the process at any step, refines its specification |
| ConfigState.ConfigStateStore.RollBack | mpconf/config_state.py:283-302 | the rollback puts back what was installed and then drops the journal, or leaves it |
| ConfigState.ConfigStateStore.RecoverPending | mpconf/config_state.py:383-407 | recovery installs the journalled candidates again and then removes the journal |
| ConfigState.ConfigStateStore.KeychainSets | mpconf/config_state.py:342-348 | passwords are stored in order until one fails |
| ConfigState.ConfigStateStore.KeychainDels | mpconf/config_state.py:349-367 | deletions are attempted after all sets |
| ConfigAtomicity.CommitIsRecoverable | mpconf/config_state.py:304-381 | whatever fails or dies in a commit that found no journal: the disk is settled, or the journal still holds the transaction and every file is old or new; saved means all new |
| ConfigAtomicity.RecoverKeeps | mpconf/config_state.py:383-407 | recovery keeps that, and settles it when it succeeds |
| ConfigAtomicity.CrashAtomicity | mpconf/config_state.py:283-407 | after any commit and any cut-short recoveries, a successful recovery leaves all files old or all new, the others untouched, and recovering again changes nothing; a reported failure ends up installed exactly when its journal survived |
| ConfigAtomicity.RunsAreAtomic | mpconf/config_state.py:283-407 | over a whole run of commits and recoveries, each cut short anywhere, commits over left-over journals included as long as the files beside them are settled: once a recovery works, the files are what applying some of the plans as wholes gives, every saved one among them |
| ConfigAtomicity.RecoveryMakesFiles | mpconf/config_state.py:383-407 | a recovery that works leaves exactly those files |
| ConfigAtomicity.CommitOverJournalIsAtomicWhenSettled | mpconf/config_state.py:304-381 | over a journal a cut-short commit left, every further commit, with any plan and any failures, leaves both plans whole or not there if and only if the files were all old or all new when it began |
| ConfigAtomicity.CommitOverJournalLosesAtomicity | mpconf/config_state.py:304-338 | files that are neither are there to be met: a crash, then a commit whose journal cannot be written, leave for good a pair of files of neither plan |
| ConfigKeychain.SavedIsWhole | mpconf/config_state.py:342-370 | of the commit itself: one that answers "saved" with a keychain has carried out exactly a set for every account in order, then a delete for every account; without a keychain it has touched none |
| ConfigKeychain.SetsUntilTrouble | mpconf/config_state.py:342-348 | the first password that is not stored: those before it are stored, nothing is deleted, and the commit is refused at the keychain or the process is gone |
| ConfigKeychain.DeletesFollowSets | mpconf/config_state.py:349-370 | with all passwords stored, every delete is attempted up to the end, or the end of the process; those whose step works are carried out, and one that fails refuses the commit |
| ConfigKeychain.NoFilesNoKeychain | mpconf/config_state.py:304-340 | without a keychain, or with files that could not be installed, the keychain is left alone |
| ConfigKeychain.OldPasswordsOutliveFailures | mpconf/config_state.py:339-370 | however a commit ends: no password is deleted unless every new one was stored before |
| HttpFramer.RelayFixed | tunnel/http_framer.py:88-96 | writes exactly the bytes it consumes, `length` of them or all there are |
| HttpFramer.RelayChunked | tunnel/http_framer.py:99-128 | writes exactly the bytes it consumes, in every outcome, and stops behind the last chunk's trailers |
| HttpFramer.RelayUntilEof | tunnel/http_framer.py:131-137 | writes everything that is left |
| HttpHead.ReadHeadFrom | tunnel/http_framer.py:37-59 | reads one head and leaves everything behind it |
| HttpHead.HeadExact | tunnel/http_framer.py:37-59 | a well-formed head is read as it is, and not a byte more |
| HttpHead.HeadReadBack | tunnel/http_framer.py:37-59 | what was read is, byte for byte, what was consumed |
| HttpHead.ParseFramingOf | tunnel/http_framer.py:62-85 | the loop over the headers computes the framing, or refuses |
| HttpHead.BadStays | tunnel/http_framer.py:62-85 | once a length is refused no later header makes it good |
| HttpHead.WellFormedChunkedExact | tunnel/http_framer.py:99-128 | on a stream that starts with a well-formed chunked body (section 7.1 of RFC 9112) the relay takes exactly that body and succeeds |
| FramingSays.HeadSays | tunnel/http_framer.py:37-59 | for every text: a head is read if and only if the text begins with one of at most 65536 bytes, and it is that one; otherwise it is too long when there are more bytes than that, and cut off when there are not |
| FramingSays.FieldReads | tunnel/http_framer.py:29-34 | a header line is the name before its first colon in lower case and the value behind it, without the white space around either |
| FramingSays.LengthReads | tunnel/http_framer.py:70-75 | a length is read if and only if what stands between blanks is decimal digits, a sign and single underscores allowed, and as the number they write |
| FramingSays.DeclaredFraming | tunnel/http_framer.py:62-85 | for all header lines, without the loop: there is no framing if and only if a length is given twice, cannot be read, or stands beside chunking; otherwise length, chunking and closing are what the headers say |
| HttpProxy.RelayOneResponse | tunnel/proxy.py:346-414 | relays any number of interim replies and one final reply, and says whether the connection goes on |
| HttpProxy.ExchangeOn | tunnel/proxy.py:300-332 | sends one request to the current upstream and relays its reply |
| HttpProxy.ServeRound | tunnel/proxy.py:239-332 | one turn of the loop: head, target, framing, upstream by origin, exchange |
| HttpProxy.HandleHttp | tunnel/proxy.py:229-343 | the whole loop refines the specification of a client connection |
| HttpProxy.RoundProgress | tunnel/proxy.py:239-332 | a turn after which the loop goes on has consumed input |
| ProxyAttribution.KeptReplyComplete | tunnel/proxy.py:346-414 | a connection is used again only after one complete, self-delimited final reply, to the byte |
| ProxyAttribution.RequestsAreAttributed | tunnel/proxy.py:239-338 | for every sequence of proper requests: the forwarded ones are the first ones in order and whole, each went to a connection of its own host and port, each connection got exactly its own requests, and all but the last were answered completely |
| ProxyAttribution.ServeAttributes | tunnel/proxy.py:239-338 | the k-th forwarded head and body come exactly from the k-th request |
| ProxyAttribution.ServeBooks | tunnel/proxy.py:286-338 | bytes sent and received are accounted for connection by connection |
| ProxyAttribution.FramingSurvivesForwarding | tunnel/proxy.py:262-286 | the framing a request arrives with is the one it is forwarded with if and only if the client's own Connection header does not name the header that carries it |
| ProxyDelivery.WordsAreListed | tunnel/proxy.py:262-275 | the names a Connection header lists are the words between its commas, in lower case |
| ProxyDelivery.ForwardedAreChosen | tunnel/proxy.py:262-275 | the forwarded header lines are, in order, exactly those whose names are neither hop-by-hop nor named by a Connection header |
| ProxyDelivery.SentHeadReads | tunnel/proxy.py:274-311 | what an upstream is sent for a request is read back as method, path and version in the first line, exactly those header lines, and the body behind them |
| ProxyDelivery.BodyStaysDelimited | tunnel/proxy.py:262-311 | the headers that arrive delimit the body that arrives if and only if the client has not named the header that does in its Connection header |
| ProxyDelivery.UpstreamsFindTheRequests | tunnel/proxy.py:239-338 | whatever dials and upstreams do: an upstream that reads what it was written by heads and declared lengths finds exactly the requests forwarded to it, one by one |
| ProxyService.ResponseRelayed | tunnel/proxy.py:346-414 | a complete, self-delimited reply is relayed whole, interim replies before it, and nothing behind it |
| ProxyService.RoundServes | tunnel/proxy.py:239-338 | a proper request and a proper reply: the request goes to the current upstream if that is of its origin, else to a new one and the old one is closed; the reply goes to the client, and the session goes on behind both |
| ProxyService.BadRequestSays | tunnel/proxy.py:243-296 | what is no request for a proxy, or has no readable framing, is answered by 400 and ends the connection |
| ProxyService.BadGatewaySays | tunnel/proxy.py:300-316 | an upstream that cannot be reached is answered for by 502 and ends the connection |
| ProxyService.OneOriginServed | tunnel/proxy.py:229-343 | proper requests for one origin with a proper reply to each: one dial, every request forwarded on that connection, every reply received by the client, in order |
| ProxyService.ClosingIsLast | tunnel/proxy.py:278-338 | a request that asks to close, or may have a body nobody can delimit, is the last one forwarded |
| AsyncRuntime.StepKeepsInv | tunnel/async_runtime.py:55-180 | every step of a caller or a worker, a claiming start being the only call in progress until it has spawned, keeps the invariant of generations, fields and places |
| AsyncRuntime.RunKeepsInv | tunnel/async_runtime.py:55-180 | so does every run |
| AsyncRuntime.OneWorkerAtATime | tunnel/async_runtime.py:43-180 | over every run in which only claims are alone, however stops, other starts and workers interleave: at most one worker has not finished its final block, running means a live worker of the current generation, a refused start changed and made nothing, and no awaitable is left neither awaited nor closed |
| AsyncRuntime.ConcurrentStartsOverlap | tunnel/async_runtime.py:134-141 | a concrete run: a start between the claim and the spawn of another leaves two workers alive and a field that names only one |
| AsyncRuntime.EarlierStartsOverlap | tunnel/async_runtime.py:55-73 | a concrete run in which no call begins between a claim and its spawn: two starts that both stopped the worker before them claim one after the other, and two workers are alive |
| RuntimeSignals.ReadEventsAreSignalled | tunnel/async_runtime.py:152-160 | over every run: a call, in `stop` or within a start, that is past its signal step has signalled the event it read |
| RuntimeSignals.StopSilences | tunnel/async_runtime.py:43-48 | from any state, whatever else happens but a new claim: once a stop has taken its signal step the runtime is not running, and stays so |
| RuntimeSignals.SignalledInTime | tunnel/async_runtime.py:76-104 | over every run: a worker signalled before its second check never comes to the loop |
| RuntimeSignals.StartRuns | tunnel/async_runtime.py:76-104 | a spawned worker left to itself, with a factory that works, makes the runtime run |
| RuntimeSignals.RunEnds | tunnel/async_runtime.py:105-141 | when its loop ends nothing shared is held; the runtime is stopped, or failed if it raised |
| RuntimeSignals.FactoryFails | tunnel/async_runtime.py:105-141 | a factory that raises fails the runtime without an awaitable left over |
| RuntimeSignals.FreshStartSpawns | tunnel/async_runtime.py:55-75 | a start with nothing before it claims the next generation and spawns its worker |
| RuntimeSignals.StoppedThenClaims | tunnel/async_runtime.py:143-180 | a start that has stopped the worker before it claims; a failure is not forgotten on the way |
| RuntimeSignals.StuckThenRefused | tunnel/async_runtime.py:55-62 | a start whose join times out over a live worker is refused and changes nothing but its answer |
| RuntimeSignals.StopSays | tunnel/async_runtime.py:152-180 | a stop nobody disturbs, from the lock to its answer: the event is signalled, a failure stays one, without a live thread the runtime is stopped, with one what was starting is stopping and what has no event counts as running |
| RuntimeSignals.SupersededStaysOut | tunnel/async_runtime.py:84-141 | a worker whose generation is over, whatever it does and however it ends, changes nothing shared but that a starting successor counts as running when it enters the loop |
| NetworkHost.Host.Restore | sysctl/system_proxy.py:108-133 | issues every command of every service, whatever became of the ones before |
| NetworkHost.Host.ApplyCommands | sysctl/system_proxy.py:188-203 | stops at the first command that fails |
| NetworkHost.Host.ApplyTransaction | sysctl/system_proxy.py:178-210 | journal first, commands, and on failure a rollback that drops the journal only if it worked |
| NetworkHost.Host.SnapshotServices | sysctl/system_proxy.py:89-105 | captures the readable services and skips the others |
| NetworkHost.Host.ReleaseTransaction | sysctl/system_proxy.py:213-221 | compares, restores, drops the journal |
| NetworkHost.Host.RecoverStale | sysctl/system_proxy.py:224-237 | releases with what the journal holds |
| SystemProxy.RestoresTake | sysctl/system_proxy.py:108-133 | a restore without a failure puts every captured service back, up to the address of a proxy that is off, and touches no other |
| SystemProxy.AppliesTake | sysctl/system_proxy.py:187-203 | an apply without a failure sets every captured service as wanted and touches no other |
| SystemProxy.MatchSays | sysctl/system_proxy.py:165-175 | two captures match if and only if they are of the same services, and of each both proxies are equal in every part and the bypass lists have the same domains, as often, in any order |
| SystemProxySafety.ApplyKeeps | sysctl/system_proxy.py:178-210 | wherever an apply stops, what it changed is covered by the journal on disk; applied means as desired, rolled back means as before |
| SystemProxySafety.ReleaseKeeps | sysctl/system_proxy.py:213-221 | a release changes settings or journal only if every service still is as it was set |
| SystemProxySafety.RecoverIsSafe | sysctl/system_proxy.py:224-237 | so does a recovery; a success leaves no journal and every service as before |
| SystemProxySafety.RecoveryRestores | sysctl/system_proxy.py:213-237 | with steps that work, recovery restores if and only if every service is as the journal says, and otherwise changes nothing |
| SystemProxySafety.CrashAfterApplyRecovers | sysctl/system_proxy.py:178-237 | a crash after a completed apply, then a recovery: every service is as before |
| SystemProxySafety.CrashInsideApplyIsRefused | sysctl/system_proxy.py:190-203 | a concrete run: a crash between two commands leaves settings that recovery refuses to touch |
| ProxyController.SystemProxyController.constructor | sysctl/sys_proxy_controller.py:28-44 | starts from a recovery of what a previous run left |
| ProxyController.SystemProxyController.Sync | sysctl/sys_proxy_controller.py:74-130 | the edge-triggered update of all six fields refines its specification |
| ProxyController.SystemProxyController.Toggle | sysctl/sys_proxy_controller.py:54-59 | flips the wish, clears the error, converges |
| ProxyController.SystemProxyController.QuitCleanup | sysctl/sys_proxy_controller.py:132-142 | lets go if anything is held |
| ProxyController.SyncKeepsLockstep | sysctl/sys_proxy_controller.py:74-130 | one sync keeps lockstep unless a rollback or restore failed, the process died, or a journal could not be written for a new target; a snapshot that is held on stays the same one |
| ProxyController.RunsKeepLockstep | sysctl/sys_proxy_controller.py:54-130 | over every run of toggles, retargets, pauses and disconnects: nothing held and the original settings, or a snapshot of the original and the desired settings, journalled |
| ProxyController.FailedRetargetForgets | sysctl/sys_proxy_controller.py:96-113 | a new target whose journal cannot be written forgets the snapshot; lockstep survives if and only if the original settings were the desired ones |
| ProxyController.QuitRestores | sysctl/sys_proxy_controller.py:132-142 | quitting in lockstep with steps that work restores everything |
| ProxyConverges.SyncConverges | sysctl/sys_proxy_controller.py:74-130 | from any lockstep, with steps that work and services that can be read: after one sync the proxy is set to the wanted port, with the program's host and list, if switch, tunnel, pause and port say so, and is as the user had it otherwise |
| ProxyConverges.SyncRests | sysctl/sys_proxy_controller.py:85-100 | a sync that should be on and already is changes nothing |
| ProxyConverges.SyncLetsGo | sysctl/sys_proxy_controller.py:120-130 | a sync that should be off puts every setting back and drops the journal |
| ProxyConverges.SyncWithoutServices | sysctl/sys_proxy_controller.py:90-96 | where no service can be read nothing is set, and that is said |
| ProxyConverges.ClickSwitches | sysctl/sys_proxy_controller.py:54-59 | a click switches off what is on, and on what is off |
| ProxyConverges.FailuresSay | sysctl/sys_proxy_controller.py:100-130 | a rollback that fails switches off and keeps the snapshot; one that works, or a journal that cannot be written, forgets it; a refused release holds on; all of it is said |
| ProxyLives.KeptWhenCapturesAreTheUsers | sysctl/sys_proxy_controller.py:28-142 | over every life of syncs, clicks, quits, deaths at any command and restarts, the disk has the user's settings throughout, in force or in the journal, if and only if no fresh capture is journalled while settings differ from them |
| ProxyLives.NoJournalNoLoss | sysctl/sys_proxy_controller.py:90-100 | it is enough that no fresh capture is written over a journal |
| ProxyLives.StaleJournalIsOverwritten | sysctl/sys_proxy_controller.py:90-100 | a controller that holds nothing in force writes the settings it finds over any journal at its next wanted sync; if they are not the user's, the disk no longer has those |
| ProxyLives.DeathAtCapture | sysctl/system_proxy.py:178-203 | dying right behind that write leaves exactly the machine it wrote |
| ProxyLives.CrashThenSyncLosesSettings | sysctl/sys_proxy_controller.py:28-100 | a concrete life: death inside the first apply, a refused recovery at the next start, a sync, and the user's settings are gone |
| MountCoordinator.Coordinator.StartMount | mount/coordinator.py:157-166 | one wish step of that mount, no other touched |
| MountCoordinator.Coordinator.StopMount | mount/coordinator.py:168-174 | one step of letting go, the session with the last wish of its tunnel |
| MountCoordinator.Coordinator.ApplyAutostarts | mount/coordinator.py:146-155 | wishes exactly the automatic rows of enabled tunnels |
| MountCoordinator.Coordinator.Tick | mount/coordinator.py:199-294 | one beat of every mount, and sessions exactly for the enabled tunnels of wished mounts, on their ports |
| MountCoordinator.Coordinator.ReconcileSessions | mount/coordinator.py:206-231 | sessions converge to the wished, enabled tunnels |
| MountCoordinator.Coordinator.ReconcileMounts | mount/coordinator.py:233-274 | each wished mount is reconciled once, no other touched |
| MountCoordinator.Coordinator.SweepStaleMounts | mount/coordinator.py:275-294 | unmounts exactly the mounted rows nobody wishes and no job is out for |
| MountCoordinator.Coordinator.FinishMount | mount/coordinator.py:388-402 | the end of a mount job frees its mount, and sets the retry time on failure |
| MountCoordinator.Coordinator.FinishUnmount | mount/coordinator.py:413-427 | the end of an unmount job frees its mount |
| MountCoordinator.TickSubmits | mount/coordinator.py:199-294 | a tick submits a mount if and only if the mount is idle, wished, in the configuration, not mounted, its tunnel connected and its retry time come, and with that row; an unmount if and only if it is idle and mounted, and wished with its tunnel gone, or not wished |
| MountMachine.StepKeepsGood | mount/coordinator.py:157-427 | busy exactly while one job is out, the status naming that job; otherwise unmounted, mounted or failed; messages and offers empty unless failed |
| MountMachine.RunsAreGood | mount/coordinator.py:157-427 | over every run, so mount and unmount never overlap |
| MountMachine.NoEarlyRetry | mount/coordinator.py:233-274 | after a failure no tick submits a mount before the backoff is over, unless the user asks |
| MountMachine.LateMountIsSwept | mount/coordinator.py:168-174 | letting go during a mount submits nothing beside it, and the first tick after its end unmounts |
| MountMachine.OffersOutliveDispatch | mount/coordinator.py:330-336 | the promise of no offer outside a failure is broken by exactly the events that dispatch a job for a mount that is not busy and has one |
| MountMachine.QuitEndsInvariant | mount/coordinator.py:182-197 | quitting keeps the invariant for exactly the mounts it submits no job for |
| MountMachine.SubmittedExactlyWhen | mount/coordinator.py:157-357 | over every event, with or without an offer: a mount is submitted exactly when it is asked for, with the row that is given; so is an unmount; and nothing else is |
| MountMachine.RetryComes | mount/coordinator.py:233-274 | a failed mount still wished is submitted again at the first tick, thirty seconds on, that finds it connected |
| MountMachine.WishIsFulfilled | mount/coordinator.py:157-166 | a wish left alone is mounted when its job ends well, and stays so |
| MountMachine.LetGoIsFulfilled | mount/coordinator.py:168-174 | letting go of what is mounted unmounts it, and it stays so |
| MountMachine.TickShows | mount/coordinator.py:233-274 | a tick that submits nothing shows an idle mount as it finds it, mounted or unmounted, unless a retry is still to come |
| MountMachine.FailureIsShown | mount/coordinator.py:388-402 | one that fails is shown with its error and offer, and due again thirty seconds later |
| CaptureBudget.CaptureAccumulator.TeeChunk | capture/ai_capture_addon.py:682-693 | bytes go through unchanged; what there is room for is kept |
| CaptureBudget.CaptureAccumulator.ReserveRequestSnapshot | capture/ai_capture_addon.py:675-680 | the request takes its share of the budget |
| CaptureBudget.CaptureAccumulator.Captured | capture/ai_capture_addon.py:699-714 | steps back over trailing continuation bytes as specified |
| CaptureBudget.BudgetIsAPrefix | capture/ai_capture_addon.py:668-693 | however the response is chunked, the buffer is the prefix the budget leaves room for, never beyond it; truncated exactly when bytes were dropped or an empty chunk came when the room was used up |
| CaptureBudget.TruncatedMeansDropped | capture/ai_capture_addon.py:675-693 | with non-empty chunks truncated means bytes were dropped |
| CaptureBudget.CutKeepsCharacters | capture/ai_capture_addon.py:699-714 | the longest prefix of whole characters is kept if and only if the cut is not exactly behind a character of several bytes; then its first byte is kept and the others are lost |
| CaptureBudget.CapturedCharacters | capture/ai_capture_addon.py:668-714 | both together, for any chunking of a response that is well formed by section 4 of RFC 3629 |
| CaptureBudget.WholeIsLongest | capture/ai_capture_addon.py:699-714 | the number of whole characters within a byte count is the largest one |
| Replay.ResponseToBlocks | suanpan/compat.py:370-392 | the loops over parts and tool calls build the blocks of the specification |
| Replay.AssistantToHistory | suanpan/compat.py:251-284 | the loop over blocks builds the message of the specification |
| Replay.ReplayReturns | suanpan/compat.py:251-284 | with a printer that undoes the parser on what the parser returns, a response turned into blocks and back has the same text and the same calls in order, with ids, names and parsed arguments |
| Replay.ArgumentsSurvive | suanpan/compat.py:275-276 | parsed arguments survive if and only if they are not an empty value, or are {} |
| Replay.UnparsedArgumentsAreKept | suanpan/compat.py:386-389 | arguments that do not parse come back inside an object |
| Replay.SecondRoundNormalises | suanpan/compat.py:251-284 | blocks sent back and answered with come out as one text, then the tools |
| Replay.NormalFormIsStable | suanpan/compat.py:251-284 | from the second round on nothing changes |
| ReplaySays.ToolBlocksSay | suanpan/compat.py:380-391 | the tool blocks are the calls that are dictionaries, in order, each with its id, name and arguments |
| ReplaySays.ResponseSays | suanpan/compat.py:370-392 | a response is its text, a string as one block and a list part by part, and then its tools |
| ReplaySays.HistoryCallsSay | suanpan/compat.py:251-284 | the calls of a history message are its tool blocks, in order |
| ReplaySays.HistoryTextSays | suanpan/compat.py:251-284 | the text of a history message is that of all its text blocks, in order, one newline between each two; it is absent exactly when there are tools and no text block |
| TierRules.CommonExtension | suanpan/router.py:89-107 | some model name starts with both prefixes if and only if one of them starts with the other |
| TierRules.FirstTierRoute | suanpan/router.py:89-107 | finds the target of the first rule, with a prefix and a target, that some model of the tier would hit; none exactly when there is no such rule |
| TierRules.PlanRuleChanges | services/claude_code_setup.py:241-271 | the copy and the edits wish by wish compute the specification of plan and changes |
| TierRules.PlanKeepsRules | services/claude_code_setup.py:241-271 | no rule is moved or dropped; only the first rule of a wished prefix gets a new target; what is new is appended, and only for prefixes without a rule |
| TierRules.PlanSettles | services/claude_code_setup.py:241-271 | after the plan every wish is the target of its first rule |
| TierRules.NothingPlanned | services/claude_code_setup.py:241-271 | nothing is planned if and only if every wish is settled |
| TierRules.PlanIsIdempotent | services/claude_code_setup.py:241-271 | planning again plans nothing |
| TierRules.ChangesSay | services/claude_code_setup.py:254-270 | the reported changes are one for each wish that is not settled, in order, each with what is replaced and by what, or what is added |
| TierRules.TiersAreApart | services/claude_code_setup.py:36-46 | the four tier prefixes are pairwise incomparable |
| TierRules.DerivedAgain | services/claude_code_setup.py:65-101 | roles derived again from the written rules plan nothing if and only if every tier agrees with the rules as they were: with a target, when the first rule that can route the tier or is its own is its own, has a blank target or leads there; without one, when the tier has no rule of its own, or what is derived is nothing or that rule's target |
| TierRules.DerivedAgainTidy | services/claude_code_setup.py:65-101 | so it is among rules that are a tier's own or no tier's concern |
| TierRules.BroadRuleChangesRoles | services/claude_code_setup.py:65-101 | a broader rule in front is enough to make them plan a change, for a tier that was given a target and for one that was not |
| Router.DecideRoute | suanpan/router.py:126-173 | the decision is the first usable of: inline model, subagent tag, matching rules in order, default; and its provider is known and enabled |
| Router.MakeDecision | suanpan/router.py:110-123 | a slot decides if it is set and its provider is known and enabled |
| Router.AnnouncedWhen | suanpan/router.py:126-173 | an explicit wish that was not followed is announced exactly when the request went by rule or default; an inline wish dropped for a working tag is not |
| Router.TargetSays | suanpan/router.py:73-86 | provider and model of a target are apart at its first slash, without a slash at its first comma, and without either all of it is the provider; and there is no other reading |
| Router.RouteSays | suanpan/router.py:126-173 | over targets, prefixes and switched-on providers alone: an inline model that is live, else a live tag, else the first rule whose prefix the model starts with and whose target is live, else a live default, else no route |
| Router.AnnouncementSays | suanpan/router.py:126-173 | what is announced as not followed is the inline model, or the tag where there is none or it cleans to nothing |
| Router.SeedIsRouted | suanpan/router.py:89-107 | the target seeded for a tier is where the router sends a model of that tier |
| RoleEnv.RolesToEnv | services/claude_code_setup.py:206-229 | the loop over the roles writes the variables of the specification |
| RoleEnv.EnvToRoles | services/claude_code_setup.py:104-131 | the loop over the roles reads them as specified |
| RoleEnv.ModelRoundTrip | services/claude_code_setup.py:104-131 | a written model reads and writes as itself if and only if it carries no suffix, or what is left without it is a name that ends in no blank and in no further suffix |
| RoleEnv.TableRoundTrip | services/claude_code_setup.py:104-131 | reading the written table and writing it again is the identity if and only if every model does so |
| RoleEnv.VariablesSay | services/claude_code_setup.py:206-229 | a role with a model has a variable, and a tier one more; the model is stripped and carries the suffix once where it is asked for, and the name is the role's own or the model |
| RoleEnv.RolesSay | services/claude_code_setup.py:104-131 | a role is read if and only if its variable holds more than blanks and the suffix; the suffix is the switch, and the name that of a tier's second variable |
| ConfigIds.AssignStableIds | mpconf/config.py:205-238 | in place: succeeds if and only if no intended id repeats; fails at the first that does, with the rows up to it already changed |
| ConfigIds.AssignmentSettles | mpconf/config.py:205-238 | after a success ids are there and distinct, given ones are kept, and assigning again counts and changes nothing |
| ConfigIds.ThirdOfOneIdentityFails | mpconf/config.py:224-236 | a third row of one identity never gets an id |
| ConfigIds.Migrate | mpconf/config.py:310-367 | one server per tunnel with its id, the role by the code's order, and every plaintext password taken out |
| ConfigIds.RoleKeptWhen | mpconf/config.py:356-364 | the migrated role stands for the same server if and only if the first one had it, or it was held by id, or the server at the index has an id no earlier one has and not both no id was given and some server has none |
| ConfigIds.DistinctIdsKeepRole | mpconf/config.py:356-364 | with ids present and distinct the role is always kept |
| ConfigIds.NoIdsLoseRole | mpconf/config.py:241-253 | ids are assigned after the migration: a file without ids keeps its role only if the first server had it, whatever id the role names |
| ConfigIds.SweptAre | mpconf/config.py:310-367 | swept are, in order, exactly the non-empty passwords, each with the id of its tunnel |
| ConfigIds.IdsSay | mpconf/config.py:205-238 | a given id stays; the first row of an identity gets the derived id, and every later one the same with "#2" |
| ConfigMerge.MergeConfig | mpconf/config.py:448-497 | key by key over a copy of the defaults, computes the specification |
| ConfigMerge.MergePorts | mpconf/config.py:474-481 | each port that is a number in range is kept, every other becomes its default |
| ConfigMerge.FindRole | mpconf/config.py:181-190 | the first server with the id, else the first |
| ConfigMerge.ServerTwice | mpconf/config.py:415-445 | a normalised server, written and read, is itself |
| ConfigMerge.MergeTwice | mpconf/config.py:448-497 | merging what was merged changes nothing |
| ConfigMerge.RoleExists | mpconf/config.py:485-488 | the role written is the id of a server that is kept, and asking for it finds that server again |
| ConfigReads.PortSays | mpconf/config.py:81-87 | a port is the number the value is taken for if that is from 1 to 65535, else the fallback |
| ConfigReads.ServerAsItStands | mpconf/config.py:415-445 | a well-formed server is read field by field as it stands |
| ConfigReads.EmptyServer | mpconf/config.py:415-445 | nothing at all reads as a server without a name that is switched off, with the usual ports |
| ConfigReads.SwitchesSay | mpconf/config.py:90-145 | which switches are on unless the value is false, and which are off unless it is true |
| ConfigReads.TextsSay | mpconf/config.py:90-145 | texts are read without the blanks around them, an id as it stands, and a blank host as this machine |
| ConfigReads.ForwardsInOrder | mpconf/config.py:108-115 | of a list of forwards exactly the rows that are dictionaries are read, in order |
| ConfigReads.MountsInOrder | mpconf/config.py:129-145 | so it is with mounts |
| ConfigReads.FileAsItStands | mpconf/config.py:448-497 | the settings of a file whose numbers and switches are well formed are read as they stand |
| ConfigReads.EmptyFile | mpconf/config.py:448-497 | an empty file means the defaults, each by its value |
| ConfigReads.WrongNumbers | mpconf/config.py:474-497 | a number out of range, or none, means the default; a negative retention means none |
| ConfigReads.OldListenAddress | mpconf/config.py:462-481 | the old listen address counts only where there is no port of its own |
| ConfigReads.ServersInOrder | mpconf/config.py:448-497 | servers keep their number and order |
| UsageStats.FetchUsage | services/usage_stats.py:103-152 | one pass: in every family one bucket a key, holding just the entries of its key, together holding every entry in range once |
| UsageStats.AddKeepsRight | services/usage_stats.py:39-46 | adding an entry to a family keeps that |
| UsageStats.TotalsAreTallies | services/usage_stats.py:39-46 | every field of a bucket is that figure added up over its entries, errors counting the statuses from 400 |
| UsageStats.FamiliesAddUp | services/usage_stats.py:131-152 | providers, scenarios, agents and days each add up to the total, field by field |
| UsageStats.DailyAddsUp | services/usage_stats.py:155-158 | the daily list is the day buckets in order, and still adds up |
| UsageStats.AverageIsHalfEven | services/usage_stats.py:58-70 | whether sums are integers or fractions, the average is the exact quotient rounded half to even, and no other integer is |
| UsageStats.HitRateIsProportion | services/usage_stats.py:49-57 | the hit rate is absent exactly when nothing was billed, and otherwise the quotient of what was read from the cache and what was billed, between 0 and 1 |
| UsageStats.RangesSay | services/usage_stats.py:103-128 | today is one date, seven days are today and the six before it, a month ends today; both ends count |
| UsageStats.KeptAre | services/usage_stats.py:103-128 | the valid entries in range are kept, all of them, in order |
| UsageStats.TotalsSay | services/usage_stats.py:39-46 | calls are counted, tokens and latencies added up field by field, and errors are the statuses from 400 on |

## Left out

- AsyncRuntime.OneWorkerAtATime: stated of a transition system over values, not of a class, because what matters is the interleaving of threads between lock sections; the fields keep their names.
- HttpProxy.HandleHttp: a timeout is an early end of the stream, `drain` never fails, and the 64 KiB line limit of the stream reader is not modelled; splitting the request line and the URL is a parameter, as is the status code of a status line; the first request line is part of the input.
- ProxyDelivery.SentHeadReads: takes the split request line as three words of one line, no longer together than the line they came from; the split itself is a parameter.
- ProxyService.RoundServes: a reply that ends with its connection, or asks to close, ends the session and is covered by ProxyAttribution.RequestsAreAttributed only.
- FramingSays.LengthReads: decimal lengths; of chunk sizes only well-formed ones are stated, in HttpHead.WellFormedChunkedExact.
- HttpProxy.RelayOneResponse: bytes an upstream sends are fixed in advance, one text per connection.
- StreamTranslator.OpenAIChatToAnthropicSSE.Feed: lines are matched as bytes and JSON text is a parsing parameter; that a line which is not valid UTF-8 is decoded with replacement characters is not modelled.
- Wire.MeaningOnTheWire: chunks and events are printed and parsed by parameters that are inverse to each other and print objects without line breaks.
- WireText.SameChunksWhenReadAlike: text is taken as bytes, so the spaces beyond ASCII that capture strips from decoded text are not modelled; JSON that is not an object counts as not parsed.
- ChatStream.ReassembleOpenAi: the reasoning text and the count of events in the record are left out.
- MessagesStream.ReassembleMessages: the thinking text and the count of events in the record are left out.
- TranslatorMeaning.TranslationMeaning: reasoning text, the message id and the model name in the opening event are not modelled; nothing in the reading of text and tools depends on them.
- UsageLanes.LanesAgree: the usage object holds the three counts the translator passes on.
- ConfigState.ConfigStateStore.CommitPlan: the contents of a plan (its validation, masked fields, serialisation) and the callback after a success are not modelled, and the keychain is a list of operations.
- ConfigState.ConfigStateStore.KeychainDels: deleting a password together with its slot for sudo is one operation, and the legacy mode without a keychain is left out.
- NetworkHost.Host.SnapshotServices: reading one service is one step, and parsing the output of the commands is not modelled; a service that is listed twice is not either.
- SystemProxySafety.ApplyKeeps: excludes a bypass list that consists of the single word "Empty", which the command takes as no list; the list the program applies is another one.
- ProxyController.SystemProxyController.Sync: the monitor, the pause switch, the port and the list of active services are inputs of each call; error texts are reduced to their kind.
- MountCoordinator.Coordinator.Tick: a session is its port; whether its monitor says connected is an input, and reconnecting is not modelled. The order in which a tick visits the mounts is left open.
- MountCoordinator.Coordinator.StartMount: opens the session of an enabled tunnel that has none; reconnecting one that has stopped or failed is left out.
- MountCoordinator.Coordinator.ReconcileSessions: session monitors and the pump of their health are left out.
- MountCoordinator.Coordinator.FinishMount: what happens inside a job (authorisation, mount point, waiting for the tunnel) is its outcome.
- Replay.ReplayReturns: fields of the wrong JSON type other than null are not modelled; printing and parsing JSON are parameters, and numbers are finite; user messages, images and tool results are left out.
- RoleEnv.RolesToEnv: the names of the environment variables are a datatype; values are strings.
- Router.DecideRoute: finding the subagent tag in the system text and cleaning the announced text are parameters; removing the tag from the body is left out.
- ConfigIds.AssignStableIds: the identity string and the derived id are functions of the connection data that are left open, except that a derived id is not empty.
- ConfigIds.Migrate: the flat format before tunnels, and the fields that are copied unchanged (forwards, mounts), are left out.
- ConfigMerge.MergeConfig: keys that are passed through unchanged, infinite numbers, and registered extra fields are left out; path expansion is a parameter that settles after one application.
- UsageStats.FetchUsage: the rounding of floating-point sums and quotients is not modelled (a fraction is a real number), and time stamps are days.
- Reassembly of the two other stream families, non-streaming responses, request normalisation and capture files: string shaping without further state.
- Writing one file atomically: taken as one step that works or changes nothing.
- Menus, windows, the HTTP handlers of the settings page, ssh and sudo scripts, probing of providers: not part of this model.
- The lock between two running instances: it is a check followed by a replacement across processes, for which there is no exclusion to prove.
