# Verified model of an LLM chat server

The server keeps one llama context, serves many chat sessions from it, lets the model call tools, and
streams what it generates. This project models the parts of it that carry state or transform text, in
Dafny, and proves what they are for. Paths are relative to the repository root; every module names the
file it models.

## What is modelled

**Key-value cache of sessions** (`LlamaContext`, `KvTrim`, `TokenPrefix`, `SessionPark`, `DiskGc`,
`SessionKvStore`, `ParkedSessions`, `Turn`, `LlamaEngine`). One context holds one live sequence. The other sessions
are parked as a pair of tokens and state, in RAM under a byte budget or on disk. A turn keeps the longest
common prefix of the live sequence and the prompt, decodes the rest and samples. The engine is a class with
the fields of `LlamaEngine`; its methods run the branches of the source, failures included. The inference
library and the file system are classes whose every permitted answer is an unconstrained choice:

- A sequence is two parts, the attention cells and (for hybrid and recurrent models) the recurrent state.
- Dropping a suffix may be refused. When it reports success, the attention cells are cut, and the recurrent
  state may have fallen behind the cut; it is never ahead of it.
- A failed decode may leave any prefix of its batch behind, the same in both parts. (What `Trim` makes of
  parts with different surplus is stated for `Trim` itself.)
- A state copy is exact or fails. A failed load leaves anything behind, with both parts in step.
- A saved file is replaced as a whole or left alone. A copy is made in place and asks only for a file, so one
  that fails, or copies a broken file, may break the file it was to replace; a broken file counts as none.
  Writes, copies, removals and reads may fail. The directory may hold files of an earlier process.
- What model, tokenizer and caller answer in a turn (the tokens drawn, whether they have text, whether to stop)
  is an input: any answers at all. The end of the turn and its response are told from them.
- How large a file is and when it was written the file system says, and the clock only goes on.
- `steady`, `writesWork`, `readsWork` and `removesWork` say that the library or the file system carries out
  every such call. They are free parameters: nothing is assumed of them, and clauses that need one name it.

**Editing files by patch** (`TextLines`, `PatchParser`, `PatchReading`, `HunkPlacement`, `Splice`, `PatchPrinter`,
`PatchRoundTrip`, `PatchReapply`, `EditFile`, `EditLaws`, `AnswerExamples`). A unified diff is parsed, each hunk is
placed at the unique match nearest to its hint, overlapping hunks are refused, the spans are spliced in from
the last to the first, and the answer is a diff. The result of `edit_file` is a value: the new text and the
diff, or the error.

**Streaming text** (`DeltaFilter`, `FilterLaw`, `Utf8Stream`). The filter that hides tool-call markup, splits off
reasoning and holds back what may become a marker; and the buffer that releases whole UTF-8 code points
(RFC 3629, sections 3 and 4). A `char` stands for a byte.

**Tool calls and tool responses** (`JsonText`, `JsonScan`, `DevstralCalls`, `QwenCalls`, `CallLaws`, `ToolTags`,
`ToolHistory`, `HistoryLaws`, `ShrinkExamples`). The scanner that finds the end of a JSON value, against JSON text as sections 2 to 7 of
RFC 8259 define it; the readers of the two call layouts; and the shrinking of old tool responses to one
line.

**Jobs** (`TokenBuffer`, `Jobs`, `JobRuns`, `JobEndings`, `JobOrder`, `JobStreams`). One worker, any number of cancelling threads, clients and
consumers. A step is one critical section, one atomic access or one callback; a schedule is any sequence of
steps.

**Sessions and eviction** (`Sessions`, `SessionLaws`, `SessionDisk`, `SearchText`, `SearchLaws`). The turn state machine of a
conversation, the planner that keeps stored sessions under a size limit, and wildcard search.

`Strings`, `Trimming`, `TextSearch` and `Ordering` hold what several modules share. Methods that change state are
specified by a function of the old state; what the source promises is then proved about that function. The
modules `Turn`, `PatchReading`, `JobEndings`, `JobOrder`, `JobStreams` and those named `...Law` or `...Laws` say what comes
out without the functions that compute it: with the marks, names, limits and bytes written out, or from the
schedule or the answers alone.

## Where the code differs from what it says

- The marker table of the filter notes that the longest match wins when one marker is a prefix of another
  (`src/server/responses/responses.cpp:466`). No marker is a prefix of another, and no two can match at the
  same place (`DeltaFilter.StartsAreRigid`), so the tie-break of `earliest_marker` never decides anything.
- A parameter whose key ends in `</function` does not come back from the call layout the prompt shows, nor
  does a value that ends in a carriage return. For replies whose calls have parameters and give no key twice,
  `QwenCalls.ReplyReadsExactly` says exactly when they come back; `QwenCalls.QwenKeyIsLost` gives one that
  does not.
- A diff `edit_file` prints in full, for a path without a newline, is not read back when a line ends in a
  carriage return, a removed line starts with `-- `, an added line starts with `++ `, or the path that is read
  of its file headers (without what follows a tab, without quotes or a carriage return around it) does not
  name the file; and only then (`PatchRoundTrip.DiffReadsBack`). Paths as they mostly are do
  (`PatchRoundTrip.PlainPathCarried`), one in quotes does not (`AnswerExamples.QuotedPathNotCarried`). Exactly
  when a diff is not read back, some hunk of it does not come to its own place again
  (`EditFile.AnswerReapplies`). `AnswerExamples.MarkedAnswerDiffers` gives a patch whose answer makes another
  edit. It takes carriage returns in the file and two places for an answer that is not read back to make the
  same edit all the same (`EditFile.AnswerRepeatsExactly`), and `AnswerExamples.TwinAnswerRepeats` gives such
  a case: two hunks that come to each other's places.
- Shrinking tool responses a second time changes the text exactly when what stands for some body is over 240
  characters or three lines, is not taken for a record, and would be given another number of lines than the
  body was (`ToolHistory.ShrinkLocalAndIdempotent`). Tags the server prints never lead there
  (`ToolHistory.PrintedIsTame`); `ShrinkExamples.BrokenTagShrinksOn` gives one that does.
- What the stream buffer releases depends on how the stream was cut exactly when more tail bytes stand at
  the end than the byte in front of them announces (`Utf8Stream.CutsMatterExactly`). That never happens to
  what can become UTF-8; it does happen to other bytes (`Utf8Stream.MalformedDependsOnCuts`), though not to
  all of them (`Utf8Stream.StrayTailsDoNot`). `flush` never releases what is held
  (`Utf8Stream.FlushReleasesNothing`).
- The tail check of the cache sees only the shorter part of a hybrid sequence. It is wrong exactly when one
  part stands on the token count and the other goes on behind it (`KvTrim.TailCheckIsExact`), and trimming
  leaves the wrong sequence exactly when there is nothing to drop in such a state (`KvTrim.Trim`).
- Copying a session from file to file is not atomic and does not look into the source: a copy that fails, or
  one of a broken file, may cost the target the file it had (`SessionKvStore.KvStore.Copy`).
- The new range in the header of a printed hunk does not count the lines that earlier hunks add or take away,
  as it does in a unified diff: from the second hunk on it is off by as many (`EditLaws.RangesStand`). The
  parser does not look at it.
- A stop request that comes in between taking a job off the queue and looking for the request makes the
  worker leave the job behind, queued nowhere and never finished (`JobRuns.NoneForgotten`).

## Model

| member | source | states |
|---|---|---|
| KvTrim.TailCheckIsExact | src/server/llm/kv_match.hpp:6-17 | For every state whose parts are fronts or continuations of the tokens: the check accepts exactly the right sequence, unless one part of a hybrid sequence stands on the tokens and the other has a surplus, and then it accepts the wrong one |
| KvTrim.ClearSequence | src/server/llm/kv_trim.cpp:16-24 | Both parts are empty afterwards, whether or not the library grants the removal |
| KvTrim.DropSuffix | src/server/llm/kv_trim.cpp:27-40 | Success means the live sequence is exactly the kept tokens, although the library may report success with the recurrent state behind; a steady library always succeeds |
| KvTrim.Trim | src/server/llm/kv_trim.cpp:55-97 | From a sequence whose parts may each hold surplus of a failed decode: the live sequence is the kept prefix or empty, unless there was nothing to drop and only one part had a surplus; a whole sequence is kept without a call, and a shorter prefix is kept whenever the library allows it |
| TokenPrefix.CommonPrefixIs | src/common/span_prefix.hpp:7-19 | Agreement up to `n` and difference or end at `n` determine the common prefix length |
| TokenPrefix.CommonPrefixLength | src/common/span_prefix.hpp:7-19 | The loop computes the longest common prefix |
| TokenPrefix.CheckpointFromOffsets | src/server/llm/token_offset.hpp:11-40 | The scan that skips over stored message ends computes the plain longest common prefix, whatever the stored ends hold |
| SessionPark.ParkedSessionBytes | src/server/llm/session_park.cpp:8-21 | The size of a snapshot, exact whenever it fits 64 bits |
| SessionPark.UsedBytes | src/server/llm/session_park.cpp:31-40 | Sums the parked sizes and saturates exactly when the true sum is 2^64 or more |
| SessionPark.PlanMemoryAdmit | src/server/llm/session_park.cpp:23-58 | The newcomer is kept iff it is non-empty and within the limit; the spilled ids are the shortest oldest-first prefix that makes room for it |
| SessionPark.SessionMemory.constructor | src/server/llm/session_park.cpp:124-126 | Starts empty, with its counter exact |
| SessionPark.SessionMemory.Find | src/server/llm/session_park.cpp:128-144 | The snapshot parked under the id, or none |
| SessionPark.SessionMemory.Take | src/server/llm/session_park.cpp:156-174 | Hands out the snapshot, leaves every other id alone and lowers the counter by exactly its size, so the clamp at zero never fires |
| SessionPark.SessionMemory.Erase | src/server/llm/session_park.cpp:176-179 | Forgets one id and no other, with the counter still the sum of sizes |
| SessionPark.SessionMemory.Insert | src/server/llm/session_park.cpp:181-197 | Replaces the id by a newest entry; the counter stays the exact sum unless the true sum exceeds 64 bits |
| SessionPark.SessionMemory.Plan | src/server/llm/session_park.cpp:199-212 | Under the budget invariant the plan leaves out the id being replaced, and what remains after the spills plus the newcomer fits the limit; one spill fewer would not |
| SessionPark.SessionMemory.IdsOldestFirst | src/server/llm/session_park.cpp:214-223 | All ids in parking order |
| DiskGc.PlanSessionDiskGc | src/server/llm/session_park.cpp:60-122 | Nothing goes while the files fit or expiry is off; otherwise only expired files go, oldest first, the fewest that make the rest fit or all of them |
| DiskGc.PlanIsDetermined | src/server/llm/session_park.cpp:60-122 | The plan does not depend on the order in which the directory lists its files |
| DiskGc.AgeIs | src/server/llm/session_park.cpp:83-104 | A file is old enough when it is older than so many days of 24 hours; the oldest goes first, and of equally old ones the one with the smaller name |
| DiskGc.TidyAfter | src/server/llm/session_park.cpp:60-122 | When all files were seen and the planned ones are gone, the files that are left fit, or none of them is old enough to go |
| SessionPark.WithoutKeepsOthers | src/server/llm/session_park.cpp:156-179 | Removing an id changes no other lookup, keeps ids distinct and never raises the total |
| SessionKvStore.KvStore.Save | src/server/llm/session_kv_store.cpp:93-116 | Writes the live sequence under the id or changes nothing; every other file is untouched |
| SessionKvStore.KvStore.SaveCaptured | src/server/llm/session_kv_store.cpp:173-212 | Writes the snapshot under the id or changes nothing |
| SessionKvStore.KvStore.TokenCount | src/server/llm/session_kv_store.cpp:143-155 | A count is that of the stored tokens, and there is one for every readable file |
| SessionKvStore.KvStore.Load | src/server/llm/session_kv_store.cpp:118-141 | Success puts exactly the stored tokens and state into the context; failure leaves the context alone or in step |
| SessionKvStore.StorableIs | src/server/llm/session_kv_store.cpp:70-86 | A file holds 1 to 2^20 tokens under a name of 1 to 120 letters, digits, dots, dashes and underscores that is not `.` or `..`; a captured state needs at least the eight bytes it begins with |
| SessionKvStore.KvStore.Copy | src/server/llm/session_kv_store.cpp:157-171 | A readable source becomes the target's file, or nothing changes, or a copy that fails, or one of a broken source, costs the target the file it had; every other file is untouched |
| SessionKvStore.KvStore.Remove | src/server/llm/session_kv_store.cpp:269-276 | At most the one file goes |
| SessionKvStore.KvStore.Scan | src/server/llm/session_kv_store.cpp:214-262 | The directory is listed without doubles, every file as it is, and all of them when reads work |
| SessionKvStore.KvStore.TrimExpired | src/server/llm/session_kv_store.cpp:214-267 | Only files the expiry plan names for this moment are deleted, each old enough to go, and none while expiry is off or the files fit; when reads and removals work the files that are left fit, or no old one is left, unless more than 64 bits of bytes were counted |
| ParkedSessions.WriteToDisk | src/server/llm/llm_engine.cpp:488-549 | Erasing an id in RAM and writing its file keeps every parked state faithful, every other id found as before, the id found as written, and no id in two places |
| ParkedSessions.MoveToDisk | src/server/llm/llm_engine.cpp:444-463 | Spilling changes where a session is found, never what is found |
| ParkedSessions.Forget | src/server/llm/llm_engine.cpp:380-389 | Dropping one id keeps all others |
| ParkedSessions.PutInRam | src/server/llm/llm_engine.cpp:532-536 | A snapshot put into RAM is what its id is restored from, whether or not its old file could be removed |
| ParkedSessions.WithoutCommutes | src/server/llm/llm_engine.cpp:506-531 | Removing two ids in either order leaves the same entries, so spilling other sessions does not disturb the plan made without the id being parked |
| LlamaEngine.ClipMessageEnds | src/server/llm/llm_engine.cpp:89-95 | The longest prefix of the message ends that lies within the cut, still nondecreasing |
| LlamaEngine.Engine.constructor | src/server/llm/llm_engine.cpp:197-308 | On a directory with any files of an earlier process a new engine meets the invariant: nothing live, nothing in RAM, every stored session found as it was unless it expires, and the directory tidy when reads and removals work |
| LlamaEngine.Engine.TrimKvTo | src/server/llm/llm_engine.cpp:391-413 | Afterwards the live sequence is exactly `active`, the first `n` of the old tokens or nothing, and the message ends fit it, even if a failed decode had left surplus cells; kept whenever the library allows it |
| LlamaEngine.Engine.Reset | src/server/llm/llm_engine.cpp:310-313 | The live sequence is empty in cache and books alike |
| LlamaEngine.Engine.CaptureLiveSequence | src/server/llm/llm_engine.cpp:465-486 | A snapshot holds the live tokens with the state that encodes them; a steady library yields one for every non-empty sequence |
| LlamaEngine.Engine.StoreSnapshot | src/server/llm/llm_engine.cpp:488-537 | With any pattern of failed writes no other id loses its snapshot and the RAM budget holds; success means the id is found as given. A snapshot that fits the budget is kept in RAM whenever there is room for it beside the others, or the others can be written out; the fewest oldest of them are; one that does not fit never is |
| LlamaEngine.Engine.MakeRoom | src/server/llm/llm_engine.cpp:506-531 | Room is made by spilling the oldest sessions, no more than it takes, and it is made whenever the snapshot fits the budget and the others can be written or need not be |
| LlamaEngine.Engine.SpillEach | src/server/llm/llm_engine.cpp:508-531 | The planned sessions leave RAM in order until a write fails; none of them stops being found |
| LlamaEngine.Engine.SaveToDisk | src/server/llm/llm_engine.cpp:494-504 | The id is found as written or its file is unchanged; others are untouched; succeeds whenever the write does, and leaves the directory tidy |
| LlamaEngine.Engine.WriteLiveToDisk | src/server/llm/llm_engine.cpp:539-549 | The live sequence is what the id is restored from, unless the write failed, and the directory is tidy |
| LlamaEngine.Engine.TrimSessionDisk | src/server/llm/llm_engine.cpp:551-563 | Expiry with the configured limits: whole files only, only those old enough, none while it is off or the files fit, and what is left fits or is not old enough, when reads and removals work |
| LlamaEngine.Engine.ParkActiveSession | src/server/llm/llm_engine.cpp:415-442 | No other session is lost, whichever of capture, spill and write fails; when writes work the parked session is found as it was live. With a RAM budget and a steady library it is captured as it is live, and the capture is what RAM holds whenever it fits and room can be made; without a capture it is in no RAM entry |
| LlamaEngine.Engine.FlushEach | src/server/llm/llm_engine.cpp:446-461 | Every session stays found as it was; while writes work, what RAM still holds of the named sessions could not be written to a file |
| LlamaEngine.Engine.FlushParkedSessions | src/server/llm/llm_engine.cpp:444-463 | Every session is found as before; a failed write leaves its session in RAM, and when writes work RAM holds only what no file can hold |
| LlamaEngine.Engine.Shutdown | src/server/jobs/jobs.cpp:616-625 | While writes work, every session that a file can hold is found on disk alone as it was, the live one as it was live |
| LlamaEngine.Engine.ReleaseSession | src/server/llm/llm_engine.cpp:380-389 | Only the released id is forgotten, in RAM always and on disk when removals work; the live sequence is dropped iff it was the id's |
| LlamaEngine.Engine.CloneSession | src/server/llm/llm_engine.cpp:315-378 | A target that RAM does not hold is left alone or becomes an exact copy of the source, live or parked, and becomes one when writes work; a source in RAM, or a live one that can be captured, is copied into RAM whenever it fits and room can be made; only a copy from file to file that fails or copies a broken file may cost the target its old file; every other id is kept |
| LlamaEngine.Engine.UnparkSession | src/server/llm/llm_engine.cpp:565-602 | Success makes the live sequence exactly what the id was parked with; failure puts a RAM snapshot back and leaves the live tokens empty |
| LlamaEngine.Engine.ActivateSession | src/server/llm/llm_engine.cpp:604-623 | The live sequence is what the session was parked with, or empty, and never another session's; it does come back when loads and reads work; the session left behind is parked, in RAM when it fits and room can be made, and all others are kept |
| LlamaEngine.Engine.SwitchTo | src/server/llm/llm_engine.cpp:609-622 | The context goes over to the session with what it was parked with, or empty; it does come back when loads and reads work |
| LlamaEngine.Engine.LeaveAndReturn | src/server/llm/llm_engine.cpp:604-623 | Activating another session and then the first again restores its live sequence token for token when nothing fails |
| LlamaEngine.Engine.DecodeTokens | src/server/llm/llm_engine.cpp:852-881 | All tokens are in, in order, in the fewest batches of the allowed size, with the stop question asked before each and answered no; or it is answered yes, the context is full, or the library refused a batch, and then a prefix of whole batches is in, with the cache holding at least that much |
| LlamaEngine.Engine.MessageTokenEnds | src/server/llm/llm_engine.cpp:883-922 | Ends are nondecreasing and within the prompt, each measures a rendering that is a prefix of it, stored ends are reused iff they still match, and measuring stops only at a rendering that does not fit |
| LlamaEngine.Engine.SampleTokens | src/server/llm/llm_engine.cpp:992-1050 | The loop ends, without a token budget too, and as the answers of model, tokenizer and caller have it: the tokens go in one by one up to the first that does not, and what keeps that one from going decides how sampling ends, unless the library refuses a decode |
| LlamaEngine.Engine.DecodeAndSample | src/server/llm/llm_engine.cpp:981-1050 | A turn ends as the answers have it unless the library refuses a decode, which a steady one never does; a finished one leaves old sequence, tail and response in the cache |
| Turn.OneEnd | src/server/llm/llm_engine.cpp:981-1064 | The answers of model, tokenizer and caller leave a turn one end and one response |
| Turn.Causes | src/server/llm/llm_engine.cpp:981-1064 | A finished turn used up its budget or was ended by the model, with the tokens the model drew; an abort, a full context and an error each have their own cause |
| Turn.FinishesExactly | src/server/llm/llm_engine.cpp:981-1064 | A turn finishes iff all tokens up to some number go and then the budget is used up, or the model ends it unstopped with room left; those are the response |
| Turn.Finishes | src/server/llm/llm_engine.cpp:981-1064 | Without a stop question and a callback, with text for every token, a turn finishes when budget or model end it before the context is full |
| LlamaEngine.Engine.RunTurn | src/server/llm/llm_engine.cpp:971-1075 | Cached prefill refines full prefill: a finished turn leaves prompt followed by response and nothing else, and decoded exactly what the longest common prefix did not cover; it finishes, aborts or fails exactly as the answers have it, unless the library refuses a decode; a failed one leaves that common prefix or nothing, and the common prefix when the library is steady |
| LlamaEngine.Engine.GenerateTokens | src/server/llm/llm_engine.cpp:934-1076 | The same across a session switch: end, response and cache do not depend on what was cached; other sessions keep their snapshots; an empty or too long prompt ends the turn without touching the sequence |
| LlamaEngine.Engine.Chat | src/server/llm/llm_engine.cpp:1078-1090 | The same for a chat turn, whose message ends are measured on its own prompt; it keeps the engine's invariant and leaves prompt and response, the switched-in sequence, or its shared prefix, and the shared prefix when the library is steady; other sessions keep their snapshots and the one left behind is parked |
| LlamaEngine.AnyRun | src/server/llm/llm_engine.cpp:197-1090 | From any directory and after every sequence of generate, chat, release, clone, park, flush and reset, with any answers of library and disk: the live sequence is exactly `active`, every parked state encodes its tokens, ids in RAM are distinct and their exact total is within the budget; sessions no call names are found as they were stored; and while removals work and clones go to ids no earlier call named, no id is both in RAM and on disk |
| LlamaEngine.Restart | src/server/llm/llm_engine.cpp:197-463 | A new engine on the directory of one that shut down finds every session that a file can hold as it was, the live one included, while writes work and nothing expires |
| LlamaEngine.RestartAndReturn | src/server/llm/llm_engine.cpp:197-602 | A conversation goes on after a restart with the same live tokens when nothing fails |
| DeltaFilter.ReadLosesNothing | src/server/responses/responses.cpp:821-898 | In the reference reading every byte is text, reasoning or markup, once and in order |
| DeltaFilter.StartsAreRigid | src/server/responses/responses.cpp:466-474 | No two start markers overlap and none is a prefix of another |
| DeltaFilter.HoldSuffix | src/server/responses/responses.cpp:476-496 | The longest suffix that is a proper beginning of a marker |
| DeltaFilter.HoldIsEnough | src/server/responses/responses.cpp:476-496 | Whatever comes next, no marker begins before the held suffix |
| DeltaFilter.EarliestMarker | src/server/responses/responses.cpp:504-520 | The leftmost occurrence of any marker, or the proof that there is none |
| DeltaFilter.HitIsStable | src/server/responses/responses.cpp:504-520 | A marker found in a buffer stays the first one whatever follows, and is the only one at its place |
| DeltaFilter.ResponsesDeltaFilter.Feed | src/server/responses/responses.cpp:810-814 | What is released is the reading of the bytes so far for every continuation of the stream; what is pending is a proper beginning of a marker the mode awaits |
| DeltaFilter.ResponsesDeltaFilter.Finish | src/server/responses/responses.cpp:816-819 | Releases the reading of what is left and returns to the initial state |
| DeltaFilter.ResponsesDeltaFilter.Drain | src/server/responses/responses.cpp:821-898 | The loop over rounds ends and releases exactly what every continuation of the stream agrees on |
| DeltaFilter.FilterStream | src/server/responses/responses.cpp:810-898 | Chunk invariance: for every way of cutting the stream, all text and all reasoning together are those of the reference reading of the whole |
| FilterLaw.PiecesShown | src/server/responses/responses.cpp:467-474 | With the marks written out: of text, closed blocks and an open end, the answer is the text between the blocks and the reasoning what think blocks hold; a list of calls hides all behind it |
| FilterLaw.EveryStream | src/server/responses/responses.cpp:821-898 | Every stream is such a sequence of text and blocks |
| FilterLaw.StreamShown | src/server/responses/responses.cpp:801-898 | So the answer and the reasoning of every stream are told by its marks alone |
| FilterLaw.HeldIsShort | src/server/responses/responses.cpp:476-496 | Between two pieces nothing is kept back but a proper beginning of an opening mark, or inside a block of its closing one |
| DeltaFilter.ResponsesVisibleText | src/server/responses/responses.cpp:801-808 | The stored answer is the text the stream showed |
| TextLines.SplitLines | src/common/tools/tool_edit_file.cpp:38-63 | Cuts at newlines; a final newline is recorded and starts no line |
| TextLines.JoinLines | src/common/tools/tool_edit_file.cpp:65-81 | Joins with newlines, with a final one iff recorded |
| TextLines.JoinSplit | src/common/tools/tool_edit_file.cpp:38-81 | Joining what was split gives every file back byte for byte |
| TextLines.PatchLines | src/common/tools/tool_edit_file.cpp:83-103 | The lines of a patch, each without one final carriage return |
| TextLines.LinesOfUnlines | src/common/tools/tool_edit_file.cpp:83-103 | Printed lines are read back as the same lines |
| PatchParser.ReadInt | src/common/tools/tool_edit_file.cpp:105-119 | The run of digits, its value and where it ends |
| PatchParser.ParsePatch | src/common/tools/tool_edit_file.cpp:215-334 | The loop gives the hunks, or the error, of a line-by-line reading of the patch |
| PatchParser.ParseAppend | src/common/tools/tool_edit_file.cpp:215-334 | Reading two stretches of a patch is reading the second in the state the first left, and the first error wins |
| PatchParser.TargetIs | src/common/tools/tool_edit_file.cpp:191-206 | A header names the file iff, without one leading `a/` or `b/`, it is the path or a tail of it behind a slash, and neither empty nor `/dev/null` |
| PatchParser.OtherFileRefused | src/common/tools/tool_edit_file.cpp:269-332 | A patch whose `+++` line names any other path is refused |
| PatchReading.HeaderReadsExactly | src/common/tools/tool_edit_file.cpp:121-170 | A line is a hunk header iff it is `@@`, any spaces, `-`, a number with or without a count, ` +`, and the same again; what follows does not matter |
| PatchReading.HeaderIsRead | src/common/tools/tool_edit_file.cpp:121-170 | Such a line gives its old start and count, a missing count being one |
| PatchReading.HeaderPathIs | src/common/tools/tool_edit_file.cpp:172-189 | The path of a file header is what stands behind the mark up to a tab, without the quotes around it |
| PatchReading.PatchReadsExactly | src/common/tools/tool_edit_file.cpp:215-334 | A patch is read iff it has a hunk, every hunk has a proper header and lines that are all marked, there is at most one `diff --git` and one `+++` line, and that means the file; its hunks are then those of its lines in order, and it is for a new file iff a `---` line names `/dev/null` |
| PatchRoundTrip.HeaderReads | src/common/tools/tool_edit_file.cpp:121-170 | Every printed hunk header is read back with its old start and count |
| HunkPlacement.LocateHunk | src/common/tools/tool_edit_file.cpp:378-409 | The unique match nearest to the hint, a tie reported as ambiguous, or the fact that nothing matches |
| HunkPlacement.LocateHint | src/common/tools/tool_edit_file.cpp:378-409 | A match on the hint itself is never ambiguous |
| HunkPlacement.NoUniqueNearest | src/common/tools/tool_edit_file.cpp:391-404 | Two nearest matches leave no unique one |
| HunkPlacement.MeasureContext | src/common/tools/tool_edit_file.cpp:602-611 | The opening and closing context lines, as many as there are |
| HunkPlacement.PlaceHunk | src/common/tools/tool_edit_file.cpp:599-660 | The span a hunk replaces, or the error of its placement |
| HunkPlacement.SpanMeansHunk | src/common/tools/tool_edit_file.cpp:599-660 | Replacing only the changed middle of the match does what replacing all quoted lines by the new side would, and removes only lines the patch quoted |
| HunkPlacement.PlaceHunks | src/common/tools/tool_edit_file.cpp:597-669 | All spans in hunk order or the first error; accepted spans lie within the file and do not overlap |
| HunkPlacement.PlacedApart | src/common/tools/tool_edit_file.cpp:597-669 | Adding placed hunks to spans that do not overlap keeps them so |
| HunkPlacement.PlacedFromHunks | src/common/tools/tool_edit_file.cpp:597-669 | Every span comes from a hunk of the patch |
| Splice.ApartChains | src/common/tools/tool_edit_file.cpp:411-426 | Sorting spans that do not overlap yields a chain from top to bottom |
| Splice.SameOrder | src/common/tools/tool_edit_file.cpp:671-674 | The order of such spans is determined, so the unstable sort has one result |
| Splice.SpliceAll | src/common/tools/tool_edit_file.cpp:671-679 | Erasing and inserting from the last span to the first is the left-to-right merge, in whatever order the hunks came |
| Splice.MergeLength | src/common/tools/tool_edit_file.cpp:671-679 | The length changes by exactly the lines added less the lines removed |
| PatchPrinter.FormatHunk | src/common/tools/tool_edit_file.cpp:459-489 | One printed hunk: header, context, removed, added, context |
| PatchPrinter.FormatDiff | src/common/tools/tool_edit_file.cpp:447-496 | The whole diff in file order, cut at the output limit |
| PatchPrinter.RangesAgree | src/common/tools/tool_edit_file.cpp:461-470 | Context stays between the neighbouring spans and is at most three lines |
| EditLaws.RangesStand | src/common/tools/tool_edit_file.cpp:447-496 | The printed old range is where the old side stands in the file; the new one has the right length, and stands as many lines further on as earlier spans add |
| PatchRoundTrip.RereadSafe | src/common/tools/tool_edit_file.cpp:215-334 | What is read of a printed hunk is the hunk iff all its lines are safe |
| PatchRoundTrip.HunksReread | src/common/tools/tool_edit_file.cpp:215-334 | Printed hunks that are read at all are each read up to their first line that looks like a file header, and every line without one carriage return; without such lines they are always read |
| PatchRoundTrip.PlainPathCarried | src/common/tools/tool_edit_file.cpp:172-205 | A path without a tab, quotes around it or a carriage return at its end, with a name behind a leading `a/` or `b/`, is read back from the file headers and names the file |
| PatchRoundTrip.DiffReadsBack | src/common/tools/tool_edit_file.cpp:172-334 | For any path without a newline, a printed diff parses to its hunks iff no line ends in a carriage return, no removed line starts with `-- ` and no added one with `++ `, and the path read of its file headers names the file or is empty |
| PatchReapply.SpanReturns | src/common/tools/tool_edit_file.cpp:447-496 | A printed hunk is found on its own hint and placing it gives the span it was printed from |
| PatchReapply.SpanNeedsSafety | src/common/tools/tool_edit_file.cpp:599-660 | A hunk with an unsafe line, as it is read, never comes to its own span |
| PatchReapply.DiffReapplies | src/common/tools/tool_edit_file.cpp:597-679 | The diff parses back iff its lines are safe and its file headers carry the path, its printed hunks place to exactly the spans that were applied, and what is read of it places to those spans, in order, iff the same holds |
| PatchReapply.DiffTells | src/common/tools/tool_edit_file.cpp:447-496 | Two edits of one file with the same diff replace the same spans |
| PatchReapply.SameSpansNeedSafety | src/common/tools/tool_edit_file.cpp:597-669 | In a file without carriage returns at line ends, what is read of the diff comes to the same spans, in any order, only if its lines are safe |
| EditFile.Run | src/common/tools/tool_edit_file.cpp:524-705 | New text and diff, or the error, of a patch against a file or none |
| EditFile.CreateFile | src/common/tools/tool_edit_file.cpp:563-593 | A new file holds the added lines of all hunks, and its diff adds them |
| EditFile.ChangeFile | src/common/tools/tool_edit_file.cpp:671-705 | The merged lines joined as the file was, refused when nothing changed |
| EditLaws.OverlapIs | src/common/tools/tool_edit_file.cpp:411-426 | Spans overlap iff they cover a common line, where a span that removes nothing covers the line it goes in front of |
| EditLaws.PlacedExactly | src/common/tools/tool_edit_file.cpp:597-669 | The hunks are accepted iff each has its place and no two cover a line, and then as their spans in order without the idle ones |
| EditLaws.AcceptsExactly | src/common/tools/tool_edit_file.cpp:539-688 | A readable patch is accepted for an existing file iff it asks for no new file, its hunks are accepted and the text changes |
| EditLaws.OtherFileNotEdited | src/common/tools/tool_edit_file.cpp:191-334 | A patch meant for another file edits none and creates none |
| EditLaws.FinalNewline | src/common/tools/tool_edit_file.cpp:681-686 | What is left ends in a newline when the file did or was empty, and otherwise only when its last line is empty |
| EditLaws.CreatedText | src/common/tools/tool_edit_file.cpp:559-573 | A created file is the added lines of the patch, each with a newline, and there are no other lines in it |
| EditLaws.AnswerIsDiff | src/common/tools/tool_edit_file.cpp:447-496 | The answer is the whole diff of the edit up to 8000 characters, cut there with a note when it is longer |
| EditLaws.CreationIsDiff | src/common/tools/tool_edit_file.cpp:591-593 | And so is the answer for a created file |
| EditFile.PatchTidy | src/common/tools/tool_edit_file.cpp:215-334 | A parsed patch has hunks, none of them empty, and no text with a newline |
| EditFile.PlannedGood | src/common/tools/tool_edit_file.cpp:597-679 | An accepted patch has at least one span, spans apart and in the file, and all printable |
| EditFile.AnswerRepeatsEdit | src/common/tools/tool_edit_file.cpp:524-705 | Giving the untruncated diff back to `edit_file` for the same file makes the same edit and the same diff when all its lines can be read back and it names the file |
| EditFile.AnswerReapplies | src/common/tools/tool_edit_file.cpp:597-679 | Each hunk of the untruncated diff comes to its own span in the old file again iff the diff shows no line that cannot be read back and names the file |
| EditFile.AnswerRepeatsBySpans | src/common/tools/tool_edit_file.cpp:524-705 | In any file the untruncated diff makes the same edit with the same diff iff what is read of it comes to the same spans, in whatever order |
| EditFile.AnswerRepeatsExactly | src/common/tools/tool_edit_file.cpp:524-705 | For an edit of one place, and for any edit of a file without carriage returns at line ends, the untruncated diff makes the same edit with the same diff iff it shows no line that cannot be read back and names the file |
| AnswerExamples.MarkedAnswerDiffers | src/common/tools/tool_edit_file.cpp:253-263 | A patch that takes out `a` and `c` around `-- b` is accepted, and its answer makes another edit or none |
| AnswerExamples.TwinAnswerRepeats | src/common/tools/tool_edit_file.cpp:378-409 | In a file with carriage returns a patch with two hunks has an answer that is not read back, and still makes the same edit |
| AnswerExamples.QuotedPathNotCarried | src/common/tools/tool_edit_file.cpp:172-205 | A file with quotes around its name is not named by the headers of its diff |
| EditFile.AnswerRepeatsCreation | src/common/tools/tool_edit_file.cpp:563-593 | The untruncated diff of a created file creates it again iff no line ends in a carriage return, none starts with `++ ` and it names the file |
| JsonText.ScalarInert | src/common/devstral_call.hpp:14-86 | Literals and numbers hold no character the scanner reacts to |
| JsonScan.JsonValueEnd | src/common/devstral_call.hpp:14-86 | The scanning loop, with its counters and flags, computes the end defined step by step |
| JsonScan.ValueEndExact | src/common/devstral_call.hpp:14-86 | For every well-formed object or array, in any text and with any strings inside, the end found is exactly its end |
| JsonScan.UnfinishedValue | src/common/devstral_call.hpp:14-86 | Every proper front of such a value has no end |
| DevstralCalls.DevstralCallEnd | src/common/devstral_call.hpp:89-115 | Where the call whose marker stands here ends |
| DevstralCalls.AppendDevstralCalls | src/server/agent/model_adapter.cpp:192-289 | The calls of a reply in order |
| DevstralCalls.CallReads | src/server/agent/model_adapter.cpp:263-289 | A written call gives its name, without its id, and its payload |
| DevstralCalls.ReplyReads | src/server/agent/model_adapter.cpp:192-289 | Any list of calls with plain names, among text without the marker, is read back as the same list, even when string values contain markers |
| CallLaws.NamedReads | src/server/agent/model_adapter.cpp:192-289 | With the marks written out: one call with a name, maybe an id, and a JSON object is read with its name and the text of the object |
| CallLaws.BareReads | src/server/agent/model_adapter.cpp:192-289 | A list or an object right behind the mark is read whole, and reading goes on behind it |
| CallLaws.UnfinishedIsDropped | src/server/agent/model_adapter.cpp:192-289 | A call whose arguments are not finished is not read |
| QwenCalls.UnwrapExact | src/server/agent/model_adapter.cpp:27-50 | A wrapped value is unwrapped to itself iff it does not end in a carriage return |
| QwenCalls.ReadParameters | src/server/agent/model_adapter.cpp:90-117 | The parameters of a body, a later one over an earlier one of the same name |
| QwenCalls.AppendFunctionParameterCalls | src/server/agent/model_adapter.cpp:67-140 | The named calls of a reply in order |
| QwenCalls.WriteCall | src/server/agent/model_adapter.cpp:291-313 | The layout the prompt shows |
| QwenCalls.ParametersRead | src/server/agent/model_adapter.cpp:90-117 | Written parameters are read one by one, even in front of an unfinished tag |
| QwenCalls.CallsCarried | src/server/agent/model_adapter.cpp:67-140 | Whatever the text, names and keys that are read are trimmed, non-empty and free of `>`, and values hold no closing tag |
| QwenCalls.ReplyReads | src/server/agent/model_adapter.cpp:67-140 | Calls in the prompt's layout come back with names and key-value maps, among any text without an opening tag |
| QwenCalls.ReplyReadsExactly | src/server/agent/model_adapter.cpp:67-140 | For replies whose calls all have parameters and give no key twice: they come back iff names and keys are trimmed, non-empty and free of `>`, no key with a `>` behind it contains a closing tag, and no value holds a closing tag or ends in a carriage return |
| QwenCalls.QwenKeyIsLost | src/server/agent/model_adapter.cpp:67-140 | The key `</function` does not come back |
| CallLaws.FunctionReads | src/server/agent/model_adapter.cpp:67-140 | With the tags written out: a call with parameters is read with its name and, for each key, the value given last |
| CallLaws.BreaksTaken | src/server/agent/model_adapter.cpp:27-52 | A value loses one line break of either kind at each end and nothing else |
| CallLaws.FallbackReads | src/server/agent/model_adapter.cpp:126-133 | The body of a call without parameters goes to the JSON library without the blanks around it |
| ToolTags.SanitizeDetail | src/server/sessions/tool_history.cpp:69-101 | The first line of the text, cut at the limit, with quotes, angles and edges cleaned |
| ToolTags.SanitizedClean | src/server/sessions/tool_history.cpp:69-101 | Every sanitized detail is short and free of quotes, angles, line breaks and outer spaces |
| ToolTags.ToolResponseOpen | src/server/sessions/tool_history.cpp:171-190 | The opening tag for a name and a detail |
| ToolTags.AttributesReadBack | src/server/sessions/tool_history.cpp:103-118 | From every printed tag the safe name and the sanitized detail are read back, even when the detail imitates an attribute |
| HistoryLaws.DetailShown | src/server/sessions/tool_history.cpp:69-101 | The first 160 characters of the first line, with quotes, angles and tabs as spaces |
| HistoryLaws.TagPrinted | src/server/sessions/tool_history.cpp:171-190 | With the tag written out: the name is shown iff it is 1 to 64 letters, digits, dashes and underscores, the detail iff any is left |
| ToolHistory.CountLines | src/server/sessions/tool_history.cpp:32-51 | The number of lines |
| ToolHistory.ShrinkToolResponses | src/server/sessions/tool_history.cpp:192-238 | The loop shrinks each response of the text and copies the rest |
| ToolHistory.ShrinkOne | src/server/sessions/tool_history.cpp:205-233 | Which bodies are kept and what replaces the others |
| HistoryLaws.LinesCounted | src/server/sessions/tool_history.cpp:32-51 | A text has as many lines as it was joined from |
| HistoryLaws.ResponseShrinks | src/server/sessions/tool_history.cpp:192-238 | With tags, limits and names written out, for any response behind any text: its tag and the text before it stay; the body stays when it has at most 240 characters and three lines, comes from one of the twelve sub-agent names or is an earlier record, and otherwise becomes the line that names tool, target and line window or line count; what follows is shrunk by itself |
| HistoryLaws.UnclosedStays | src/server/sessions/tool_history.cpp:205-213 | A response that is not closed, and all behind it, stays as it is |
| ToolHistory.SplitRenders | src/server/sessions/tool_history.cpp:192-238 | Cutting a text into gaps, tags and bodies loses nothing |
| ToolHistory.RenderSplits | src/server/sessions/tool_history.cpp:192-238 | Parts that could have been cut from a text are cut the same way again |
| ToolHistory.RecordShape | src/server/sessions/tool_history.cpp:149-167 | A record is one line that starts with its label |
| ToolHistory.RecordKept | src/server/sessions/tool_history.cpp:131-147 | What is left of a record after trimming is recognised as one |
| ToolHistory.ShrunkTwice | src/server/sessions/tool_history.cpp:131-167 | A body shrunk twice is the body shrunk once iff it is kept, or its line is, or that line counts the same lines |
| ToolHistory.ShrunkWithout | src/server/sessions/tool_history.cpp:149-167 | Shrinking never brings in a closing tag, whatever the tag says |
| ToolHistory.ShrinkLocalAndIdempotent | src/server/sessions/tool_history.cpp:192-238 | Of every text, shrinking keeps all text outside the bodies and every opening tag; shrinking again changes nothing iff every body settles as above |
| ToolHistory.PrintedIsTame | src/server/sessions/tool_history.cpp:171-190 | Tags printed by `tool_response_open` have one-line attributes that start with no blank, whatever they were printed for |
| ToolHistory.ShrunkAgain | src/server/sessions/tool_history.cpp:192-238 | A history shrinks no further iff every body settles, and behind such tags every body does |
| ShrinkExamples.BrokenTagShrinksOn | src/server/sessions/tool_history.cpp:192-238 | A response whose tag spreads its detail over four lines goes on changing when shrunk again |
| TokenBuffer.StepsKeepOrder | src/server/jobs/token_buffer.hpp:17-95 | After any operation, pulled pieces followed by the waiting ones are the accepted ones, in order |
| TokenBuffer.EndIsFinal | src/server/jobs/token_buffer.hpp:66-81 | End of stream means all accepted pieces were pulled, and nothing is accepted or pulled after it |
| TokenBuffer.RunDelivers | src/server/jobs/token_buffer.hpp:17-95 | Whatever is done to a buffer in whatever order: what came out and what waits are the pieces pushed before it was closed, in their order |
| TokenBuffer.PullsHandOut | src/server/jobs/token_buffer.hpp:66-95 | A pull hands out the oldest waiting piece, and none only when none waits; what is handed out no longer waits |
| TokenBuffer.Buffer.PushPiece | src/server/jobs/token_buffer.hpp:17-28 | Accepts a piece unless the stream is done or cancelled |
| TokenBuffer.Buffer.Finish | src/server/jobs/token_buffer.hpp:30-37 | Closes the stream for the producer |
| TokenBuffer.Buffer.CancelStream | src/server/jobs/token_buffer.hpp:39-47 | Closes the stream early |
| TokenBuffer.Buffer.WaitPull | src/server/jobs/token_buffer.hpp:66-81 | The oldest waiting piece, or the end |
| TokenBuffer.Buffer.PullAvailable | src/server/jobs/token_buffer.hpp:83-95 | All waiting pieces at once |
| Jobs.Runner.Gc | src/server/jobs/jobs.cpp:221-233 | Forgets exactly the jobs finished longer ago than the limit |
| Jobs.Runner.Enqueue | src/server/jobs/jobs.cpp:244-261 | The job is known and last in the queue |
| Jobs.Runner.FindToCancel | src/server/jobs/jobs.cpp:304-338 | A queued job leaves the queue for the cancelling thread; any other is left as it is |
| Jobs.Runner.PopNext | src/server/jobs/jobs.cpp:412-440 | The first queued job that is still known goes to the worker |
| Jobs.CollectedAre | src/server/jobs/jobs.cpp:221-233 | A job is forgotten iff it has been finished for more than 300 seconds |
| JobRuns.WorkerKeeps | src/server/jobs/jobs.cpp:442-615 | Every step of the worker keeps the invariant |
| JobRuns.CancelKeeps | src/server/jobs/jobs.cpp:277-338 | Every step of a cancelling thread keeps the invariant |
| JobRuns.StepKeeps | src/server/jobs/jobs.cpp:221-615 | Every step of any party does |
| JobRuns.FromTheStart | src/server/jobs/jobs.cpp:221-615 | So it holds in every state that any interleaving reaches |
| JobRuns.OneOwner | src/server/jobs/jobs.cpp:304-440 | In every interleaving a job is with at most one of the queue, the worker and one cancelling thread, and is queued at most once |
| JobRuns.NoneForgotten | src/server/jobs/jobs.cpp:304-450 | A job that is not finished is with the queue, the worker or a cancelling thread, unless the worker left for a stop request right after taking it; then it was never started |
| JobRuns.OneRunning | src/server/jobs/jobs.cpp:442-615 | At most one job is running |
| JobRuns.EndMeansFinished | src/server/jobs/jobs.cpp:64-78 | A consumer that sees the end of a stream nobody asked to cancel finds the job finished, its callback called once and all pieces delivered; the callback is never called twice or before the job is finished |
| JobRuns.ReleasedWhole | src/server/jobs/jobs.cpp:64-78 | A finished job nobody holds has its callback called and its stream closed, cut off if it was cancelled; no stream is cut off that nobody asked to cancel |
| JobEndings.RunTells | src/server/jobs/jobs.cpp:304-606 | In every interleaving the state of a job and the places of the threads tell what was met on the way |
| JobEndings.EndingsAreCaused | src/server/jobs/jobs.cpp:304-606 | In every interleaving: in error iff its generation failed; done iff the worker had its reply and found no request; cancelled iff a request was found at one of the two places where the worker looks, or a canceller took it off the queue, once whoever met it has marked it |
| JobOrder.FirstComeFirstServed | src/server/jobs/jobs.cpp:244-440 | In every interleaving the job the worker takes was handed in before all that stay in the queue, and these wait in the order they came |
| JobOrder.WorkerWakes | src/server/jobs/jobs.cpp:412-455 | A waiting worker takes the head of the queue, and leaves when it is asked to stop |
| JobOrder.WorkerAdvances | src/server/jobs/jobs.cpp:442-615 | Each step of the worker brings it nearer to waiting for the next job |
| JobOrder.WorkerGetsThere | src/server/jobs/jobs.cpp:442-615 | Left to itself it is there after at most eleven steps, with its job finished unless it left for a stop request |
| JobOrder.CancellerAdvances | src/server/jobs/jobs.cpp:304-338 | Each step of a cancelling thread brings it nearer to its return |
| JobOrder.NoneStartsAfterStop | src/server/jobs/jobs.cpp:442-455 | Once a stop is asked for, a worker that has not started a job starts none |
| JobOrder.EndIsDated | src/server/jobs/jobs.cpp:32-163 | The end of a job is dated by the step that brings it, and by no later one |
| JobStreams.RunRequests | src/server/jobs/jobs.cpp:94-101 | A request is set iff some cancelling thread has set it |
| JobStreams.StreamIsSaid | src/server/jobs/jobs.cpp:550-565 | The pieces read and waiting in a job's stream are those the worker pushed while generating that job and its stream was open, in their order |
| JobStreams.NothingCutShort | src/server/jobs/jobs.cpp:550-565 | No piece of a job nobody asked to cancel is lost |
| JobRuns.StepOnlyGoesOn | src/server/jobs/jobs.cpp:221-615 | Final states are never left, requests never withdrawn, streams only grow, and a callback is called only once and only on a finished job |
| SearchText.WildcardContains | src/common/tools/tool_search_text.cpp:102-127 | The loop takes the leftmost place of each literal part in turn |
| SearchText.GreedyFindsAny | src/common/tools/tool_search_text.cpp:102-127 | Any choice of places in order without overlap implies that the leftmost choices succeed |
| SearchText.WildcardComplete | src/common/tools/tool_search_text.cpp:102-127 | The search succeeds iff the literal parts of the pattern occur in order without overlap |
| SearchLaws.SearchIsMatch | src/common/tools/tool_search_text.cpp:102-127 | The search succeeds iff the pattern, read character by character with a star for any run, matches at some place of the text; without regard to case a letter is like the one 32 places away |
| Sessions.Session.constructor | src/server/sessions/sessions.cpp:18-26 | A new session is idle, with nothing pending |
| Sessions.Session.AcceptUserMessage | src/server/sessions/sessions.cpp:258-280 | Refused while generating and then without effect; otherwise the history is shrunk, the message added and the old wait set aside for a rollback |
| Sessions.Session.AcceptToolResults | src/server/sessions/sessions.cpp:286-308 | Refused while generating or when no tools are awaited; otherwise the results are added |
| Sessions.Session.BeginGeneration | src/server/sessions/sessions.cpp:315-331 | The session waits for this job |
| Sessions.Session.CompleteJob | src/server/sessions/sessions.cpp:337-418 | What each outcome of the active job does to messages, wait and note |
| Sessions.Session.RollbackLastTurn | src/server/sessions/sessions.cpp:506-518 | The set-aside wait comes back and the added messages go |
| Sessions.Session.Restore | src/server/sessions/sessions.cpp:50-81 | The session stands where its record was made |
| Sessions.StepKeeps | src/server/sessions/sessions.cpp:258-418 | A job is active iff the session generates, calls are pending iff it awaits tools, and a session awaiting an answer has its question; every operation keeps this |
| Sessions.AnyTurns | src/server/sessions/sessions.cpp:258-418 | And so does every sequence of operations, refused and stale ones included |
| Sessions.StaleChangesNothing | src/server/sessions/sessions.cpp:337-348 | Completing a job that is not active changes nothing, whatever happens before it, unless that job is begun |
| Sessions.CompletesOnce | src/server/sessions/sessions.cpp:337-348 | A job completes once: completing it again later changes nothing |
| Sessions.BusyIgnores | src/server/sessions/sessions.cpp:448-454 | While a job is under way, posts, results, new turns and completions of other jobs change nothing |
| Sessions.RolledBack | src/server/sessions/sessions.cpp:491-518 | A posted turn is taken back iff it overflowed the context and was posted as role user, whatever else is asked of the session in the meantime; state, pending calls and question are then as before, and the messages as before up to shrinking |
| Sessions.ResultsRolledBack | src/server/sessions/sessions.cpp:491-518 | Tool results are taken back iff they overflowed the context, whatever is asked in the meantime, and then state and messages are exactly as before |
| Sessions.WaitSurvives | src/server/sessions/sessions.cpp:28-81 | Recording and restoring keeps messages and wait, except that a generating session comes back idle |
| Sessions.RetrySameHistory | src/server/sessions/sessions.cpp:258-280 | Trying again after an overflow shows the model the same history iff the history was not shrunk or every body in it settles |
| SessionLaws.UserTurn | src/server/sessions/sessions.cpp:258-418 | A whole turn, whatever is asked meanwhile: the conversation with the message behind it, earlier contents shrunk iff the session was idle and is set to; then the reply as an assistant message with content and reasoning, the calls or the question that are awaited; or the error note, with the message taken back iff it overflowed as the user's; or nothing more |
| SessionLaws.ResultsTurn | src/server/sessions/sessions.cpp:286-418 | The same for tool results, which shrink nothing |
| SessionLaws.RefusedAlone | src/server/sessions/sessions.cpp:258-331 | While a job is under way, and for results nobody waits for, a refused request changes nothing |
| SessionLaws.RecordSurvives | src/server/sessions/sessions.cpp:28-81 | Messages, note, settings, usage and wait come back from a record, except a generation under way |
| SessionDisk.CollectLoaded | src/server/sessions/session_disk.cpp:339-442 | One candidate for each loaded session that has an id, the first mention winning |
| SessionDisk.CollectRows | src/server/sessions/session_disk.cpp:339-442 | In whatever order the rows are visited: the stored sessions that are not loaded, the caches without a session, and the exact total of bytes |
| SessionDisk.DropUntilItFits | src/server/sessions/session_disk.cpp:415-440 | The loop drops unpinned candidates in order until the rest fits |
| SessionDisk.PlanSessionCache | src/server/sessions/session_disk.cpp:339-442 | The plan made from the sorted candidate lists; nothing without a limit |
| SessionDisk.ListsUnique | src/server/sessions/session_disk.cpp:339-442 | The sorted lists are determined, so the plan does not depend on map iteration order |
| SessionDisk.ListsMean | src/server/sessions/session_disk.cpp:372-415 | Who is listed and as what: sessions in memory by their first mention, stored ones by their files, caches without a session apart; each with its bytes, oldest first and by id among equally old ones |
| SessionDisk.DropsOldest | src/server/sessions/session_disk.cpp:415-440 | What is dropped is the shortest oldest-first prefix of the unpinned candidates that makes the rest fit |
| SessionDisk.TotalSplits | src/server/sessions/session_disk.cpp:339-442 | Every byte on disk belongs to exactly one session or orphan |
| SessionDisk.PlanIsFair | src/server/sessions/session_disk.cpp:339-442 | Over the limit: no pinned session is dropped, unpinned ones go oldest first and no more than needed, orphans only after all of them, and the plan is still over iff the pinned bytes alone exceed the limit |
| Utf8Stream.CompletePrefixLen | src/server/llm/utf8_stream.hpp:15-56 | The look-back loop finds where the last code point begins and whether it is all there |
| Utf8Stream.StreamBuffer.ProcessPiece | src/server/llm/utf8_stream.hpp:66-77 | What is released and what is held of the bytes so far |
| Utf8Stream.StreamBuffer.Flush | src/server/llm/utf8_stream.hpp:79-91 | Empties the buffer |
| Utf8Stream.NothingLost | src/server/llm/utf8_stream.hpp:66-77 | Released bytes followed by held bytes are the input, for any bytes |
| Utf8Stream.FlushReleasesNothing | src/server/llm/utf8_stream.hpp:79-91 | After any piece, flushing releases nothing |
| Utf8Stream.SettledFeed | src/server/llm/utf8_stream.hpp:15-77 | A stream with no more tail bytes at its end than the byte in front of them announces has one outcome, however it is cut |
| Utf8Stream.UnsettledFeed | src/server/llm/utf8_stream.hpp:15-77 | Any other stream comes out differently whole and cut behind the announced tail bytes |
| Utf8Stream.CutsMatterExactly | src/server/llm/utf8_stream.hpp:15-77 | So the result is independent of the cuts iff the stream is of the first kind |
| Utf8Stream.LeadDecides | src/server/llm/utf8_stream.hpp:15-77 | The same told by the bytes: what `110xxxxx`, `1110xxxx`, `11110xxx` or any other byte in front of the last tail bytes makes of the stream |
| Utf8Stream.WholeCodePoints | src/server/llm/utf8_stream.hpp:15-91 | While the stream can still become well-formed, exactly its whole code points have been released and fewer than four bytes are held |
| Utf8Stream.CutsDoNotMatter | src/server/llm/utf8_stream.hpp:66-77 | A stream that can still become well-formed comes out the same for all cuts |
| Utf8Stream.MalformedDependsOnCuts | src/server/llm/utf8_stream.hpp:15-77 | A malformed stream that comes out differently for two cuts |
| Utf8Stream.StrayTailsDoNot | src/server/llm/utf8_stream.hpp:15-77 | Tail bytes alone are malformed and are held for all cuts |

## Left out

- SessionKvStore.KvStore.TrimExpired: sizes and times of files are what the file system says, and are not tied to the snapshots in them.
- LlamaEngine.AnyRun: a clone onto an id that RAM already holds may write a file beside it, so the clause about two places asks for new targets.
- LlamaEngine.Engine.CloneSession: of a target RAM already holds only what RAM keeps of it is told, and that other ids are not disturbed.
- LlamaEngine.Engine.CaptureLiveSequence: running out of memory is one more way to get no snapshot; elsewhere allocation is assumed to succeed.
- LlamaEngine.Engine.SampleTokens: the response is a sequence of tokens; of the tokenizer only the answer whether a token has text is modelled, and of the token callback whether it goes on.
- EditFile.AnswerRepeatsExactly: for several places in a file with carriage returns at line ends the condition is on the spans (`EditFile.AnswerRepeatsBySpans`), not on the lines shown, since hunks may then come to each other's places.
- PatchRoundTrip.DiffReadsBack: a path that holds a newline, which prints more header lines than two.
- LlamaEngine.Engine.constructor: files already in the directory are taken to hold states of the same model, each encoding its tokens.
- EditFile.Run: reading the file and the atomic write are left to the caller.
- PatchParser.ParsePatch: line numbers are unbounded, while the source's `int` overflows on absurdly long digit runs.
- JsonScan.JsonValueEnd: nesting counters are unbounded.
- QwenCalls.AppendFunctionParameterCalls: a body without parameters goes to the JSON library, of which only the text it is given is modelled.
- DevstralCalls.AppendDevstralCalls: a payload is kept as text; what the JSON library makes of it, and of a payload that names its own calls, is not modelled.
- QwenCalls.ReplyReadsExactly: a call that gives a key twice is left out of the exact condition; a map of arguments never does.
- Sessions.Session.CompleteJob: what a reply parses to is an input, and clock times are not kept.
- SessionDisk.PlanSessionCache: byte totals are unbounded, and scanning the directories is not part of the model.
- JobRuns.StepKeeps: what the scheduler grants each thread is free; progress is stated step by step and for a worker left to itself (`JobOrder.WorkerGetsThere`), not for every fair schedule.
- JobRuns.FromTheStart: which party owns a job is bookkeeping of the model; the code has no such field.
- Session releases, clones and the cache hook that travel through the worker's queue beside jobs, and the record of which job is current for shutdown.
- The two trimmers of `kv_trim.cpp` have the same body and differ in the name they log; there is one `Trim`.
- A null context, which the engine only has before it is set up.
- llama.cpp, sampling, chat templates, the JSON library, HTTP routes, options, directory walking and process handling.
- `response_parse.cpp`, a best-effort clean-up of replies.
