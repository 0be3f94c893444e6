# Workstation contracts: a verified model

This project models the stateful core of the repository in Dafny and proves what its parts promise
together: the hash-chained ledger of inference receipts, the gateway that feeds it, the IPC v0 runner and
its two adapters, and two small decision tools.

- **Values and text.** `Json` holds Python's JSON values, encoder and decoder (RFC 8259, `ensure_ascii` on and off);
  `JsonRoundTrip`, `JsonCanonical`, `JsonPrefix` and `JsonLoaded` are its laws. `JsonSpelling`, `JsonNumbers` and
  `JsonGrammar` are the grammar of JSON texts, written without the decoder, and show that it accepts exactly that.
  `Lines` has the two line splitters of the ledger tools, `Utf8` and `Ndjson` the byte framing of the IPC programs,
  `LineLaws` what these do to a text, and `TextOrder` Python's order on strings.
- **The ledger.** `Receipts` is the InferenceReceipt schema as a predicate, `ReceiptSchema` what it asks of each
  property by name, `Ledger` is `verify_ledger` with its declarative specification and tamper-evidence, `Emitter` is
  `emit_receipt` on a locked file, `EmitterDomain` says which arguments give a receipt the schema allows, and
  `EmitterLaws` what one emit does to any verified, torn or unterminated file. `EmitterRuns` is a state machine for
  any number of concurrent calls with any arguments - open, acquire, read in pieces, decide, write in pieces, release,
  crash - `EmitterRunLaws` is what holds over all its runs, and `EmitterReaders` what `verify_ledger` says at every
  moment of them, in whatever pieces it reads.
- **The gateway.** `Gateway` decides, per request and reply, whether a receipt is due and with which arguments;
  `GatewayLaws` says exactly when, `GatewayWire` what goes to the backend and back to the client; `GatewayRuns`
  interleaves any number of threads over the ledger machine, with an arbitrary backend, and `GatewayProgress` shows
  that they all come to an end.
- **Limits.** `Boundaries` gives, for each promise about the ledger that stops somewhere, an input past the stop.
- **IPC v0.** `IpcRunner` (writer, reader, `handshake`, `invoke`) against arbitrary adapter bytes, with
  `IpcRunnerLaws`; `IpcAdapters` (both adapters' loops) with `IpcAdapterLaws`; `IpcMessages` is what every message of
  either side has under which key; `IpcSystem` joins a runner and an adapter by two bounded byte pipes, and
  `IpcConversation` proves progress, termination and the result for every interleaving.
- **Decisions.** `Timestamps` and `HostInterface` are the deny-by-default grant check and the calendar argument its
  string comparison rests on, with the calendar in closed form in `CalendarLaws`; `Validators` holds the two
  workstation-contract validators and their agreement, `ValidatorLaws` what each asks of a contract.

SHA-256 is an arbitrary function into 64 hexadecimal digits; no lemma assumes it injective. Where a claim
depends on collisions, the lemma returns the two colliding texts instead. Message ids, times, the clock,
the backend, subprocesses, `str.upper` and `str()` of a float, a list or a dict are parameters.

A Python `str` is a Dafny `string`: a `char` is a Unicode scalar value, so strings are free of lone surrogates.
A `dict` is a sequence of fields in insertion order. A float is known by its text, and is
false exactly when that text rounds to zero. `Plain` is the domain of the round trips: distinct keys,
no floats. A ledger is `Chained` when every entry parses, carries its position and the hash of the one before, and
the two line splitters agree on it; it is clean (`CleanFile(Checked(hash), ...)`) when the schema allows its
entries too.

## What the code does and its documents do not say

- `docs/inference-receipt-emitter.md` (lines 11-12) says that mutating any entry breaks the chain. The chain does
  not cover the last entry: `Ledger.LastEntryUnprotected` gives exactly the replacements that stay accepted,
  `Boundaries.TwoLastEntries` two of them, and `Ledger.PrefixAccepted` shows that truncation stays accepted.
- `emit_receipt` checks none of its arguments. `EmitterLaws.DomainIsExact`: on a clean ledger the longer file
  verifies if and only if the arguments are in the schema's domain; otherwise it is rejected at the new entry, and
  by `EmitterReaders.RejectedForever` and `GatewayRuns.GatewayRejectedForever` it stays so for the rest of the run.
  `Boundaries.UnknownTierRejected` is such a call.
- The gateway passes the backend's `usage` counts and the configured digest on unchecked:
  `GatewayLaws.ReceiptInDomainIff` says for which digests and counts the receipt is one the schema allows, and
  `Boundaries.NegativeCountRejected` is a backend that reports a negative count.
- An emit onto a verified file that stops in the middle of a line need not fail: `EmitterLaws.EmitOnVerified` gives the
  outcomes and says when each happens. `Boundaries.GluedEntryRejected`, `Boundaries.StrangeSpaceRejected` and
  `Boundaries.InnerLineEndRaises` are files that meet the last good entry, the new entry, and an exception.
- `grant_valid` compares timestamps as text. `Timestamps.TextOrderIsTimeOrder` shows that this is right between
  timestamps of one zone and one precision, and `Timestamps.FormsAgreeIff` that no two different forms will do;
  `HostInterface.MixedZonesMisjudged` is an accepted allow whose grant expired an hour before.
- `validate_contract` skips a lane with a sentinel digest altogether, its evidence included, so it can accept what
  `validate_workspace_ops` rejects; and it never looks at the workspace-ops schema an agent passport may name.
  `Validators.AgreeIff` says exactly when the two agree, `Validators.SentinelDisagrees` and
  `Validators.PassportDisagrees` are the two ways they do not.

## Model

| member | source | states |
|---|---|---|
| JsonRoundTrip.ScanEscapedChar | tools/inference_receipt_emitter.py:47-48 | the escape of every character, astral ones as surrogate pairs, scans back to that character in front of any text |
| JsonRoundTrip.LoadsDumps | tools/inference_receipt_emitter.py:47-55 | in every output style, loading a dumped float-free value gives the value, also with a line end behind it; what loads and as what is fixed by JsonGrammar.LoadsIff |
| JsonSpelling.LiteralIff | tools/receipt_gateway.py:119 | a quoted text loads as a string exactly when it spells it: each character as itself, as its two-character escape, or as \uXXXX in either hex case, with a surrogate pair for an astral one |
| JsonSpelling.EscapeIsShortest | tools/inference_receipt_emitter.py:48 | of the lower-case spellings of a character, printable ones where that is asked for, the encoder writes the shortest, and there is only one of that length |
| JsonGrammar.LoadsIff | tools/receipt_gateway.py:90 | a text loads as a value exactly when it is white space around a text that denotes it by the grammar of RFC 8259, or is NaN, Infinity or -Infinity in it |
| JsonGrammar.FromPairsFind | tools/inference_receipt_emitter.py:117 | when a text repeats a key, the last of its values is the one found |
| JsonGrammar.FromPairsOrder | tools/inference_receipt_emitter.py:117 | and the keys of a loaded dict come in the order of their first appearance |
| JsonGrammar.CompactIsShortest | tools/inference_receipt_emitter.py:48 | no text that denotes the value is shorter than the one written without spaces |
| JsonGrammar.LoadsPrinted | tools/receipt_gateway.py:189 | in every style a value whose floats are JSON numbers loads back from what is printed |
| JsonCanonical.LoadsCanonical | tools/inference_receipt_emitter.py:47-48 | loading canonical text gives the value with sorted keys, which is equal to the value as a Python dict |
| JsonCanonical.CanonicalSorted | tools/inference_receipt_emitter.py:48 | canonical text loads with the keys of every object, at every depth, in ascending order by code point |
| TextOrder.LessIff | tools/inference_receipt_emitter.py:48 | one text comes before another exactly when it is a proper prefix of it or has the lower character at the first difference |
| JsonCanonical.CanonicalDecidesSame | tools/inference_receipt_emitter.py:47-48 | canonical texts are equal exactly when the values are equal as maps, whatever the insertion order |
| JsonCanonical.CanonicalPrintable | tools/inference_receipt_emitter.py:48 | canonical text uses only U+0020 to U+007E |
| JsonPrefix.TornObjectIsInvalid | tools/inference_receipt_emitter.py:116-119 | no proper prefix of the text of an object is JSON |
| JsonPrefix.LoadsAppend | tools/inference_receipt_emitter.py:55 | after a JSON document only white space may follow: a line end changes nothing, an object is an error |
| JsonLoaded.LoadsKeyedOnce | tools/inference_receipt_emitter.py:117 | every dict that was loaded has distinct keys, however often the text repeats one |
| JsonLoaded.LoadsPlain | tools/inference_receipt_emitter.py:117 | a loaded document can be held by the model exactly when it has no float in it |
| JsonLoaded.ZeroIsFalse | tools/receipt_gateway.py:123 | a float whose digits are all zero is false, so a usage of 0.0 counts as none |
| JsonNumbers.FloatIsFalse | tools/receipt_gateway.py:123 | a float text is false exactly when its digits scaled by its exponent are at most 2^-1075, half of the least positive double |
| JsonNumbers.FalseIff | tools/receipt_gateway.py:123 | of the values without floats, exactly null, false, 0 and the empty text, list and dict are false |
| JsonLoaded.UnderflowIsFalse | tools/receipt_gateway.py:123 | a float text that is not zero but rounds to it is false too |
| Lines.ViewsAgreeIff | tools/inference_receipt_emitter.py:51-55 | file iteration and splitlines give the same entries exactly when no entry has another line end inside |
| Lines.LastFileLine | tools/inference_receipt_emitter.py:54 | splitlines cuts the last non-blank file line on its own, after everything before it |
| LineLaws.BoundaryIff | tools/inference_receipt_emitter.py:111 | `str.splitlines` knows ten line ends |
| LineLaws.StrippedIff | tools/inference_receipt_emitter.py:54 | `str.strip` and `str.split` know 29 white space characters |
| LineLaws.UniversalNewlinesIs | tools/inference_receipt_emitter.py:111 | reading a text file turns a carriage return and the line feed behind it, or a carriage return by itself, into a line feed, and leaves every other character |
| LineLaws.FileLinesIff | tools/inference_receipt_emitter.py:51-55 | iterating over a file cuts it after each line feed and nowhere else, and loses nothing |
| LineLaws.SplitLinesIff | tools/inference_receipt_emitter.py:111 | `str.splitlines` cuts the line ends out, each piece has none inside, and nothing else is lost |
| LineLaws.NonBlankIs | tools/inference_receipt_emitter.py:54 | the lines kept are those with a character that is no white space, in order |
| Ledger.VerifyLedger | tools/inference_receipt_emitter.py:107-130 | the loop computes the verdict of the fold, and reports a missing ledger |
| Ledger.VerifyDecides | tools/inference_receipt_emitter.py:114-130 | acceptance is the declarative specification of every entry, and a rejection names the least failing index |
| Ledger.RejectedFor | tools/inference_receipt_emitter.py:115-129 | a rejection says what is wrong first: no JSON, not allowed by the schema, no `ledgerSeq` to read, another number than the position, or another hash than that of the entry before |
| Ledger.PrefixAccepted | tools/inference_receipt_emitter.py:114-130 | every prefix of an accepted ledger is accepted |
| Ledger.AcceptsOneMore | tools/inference_receipt_emitter.py:115-129 | one more line is judged against the last entry alone |
| Ledger.RejectionStays | tools/inference_receipt_emitter.py:115-129 | a rejected ledger is rejected at the same entry whatever is appended |
| Ledger.EqualEntries | tools/inference_receipt_emitter.py:123-128 | entries with equal canonical text have equal positions and predecessors of equal hash |
| Ledger.LastEntryFixesHistory | tools/inference_receipt_emitter.py:114-129 | two accepted ledgers with equal last entries have equal length and equal entries throughout, or a collision is returned |
| Ledger.ChangeDetected | tools/inference_receipt_emitter.py:123-128 | changing one entry other than the last is rejected there or at the next, or a collision is returned |
| Ledger.LastEntryUnprotected | tools/inference_receipt_emitter.py:123-130 | the last entry may be replaced by exactly the lines that would be a good entry in its place |
| Emitter.LedgerFile.ReadLastEntry | tools/inference_receipt_emitter.py:51-55 | the bounded queue yields the parsed last non-blank line, none, or the parse failure |
| Emitter.LedgerFile.EmitReceipt | tools/inference_receipt_emitter.py:58-104 | returns and appends the receipt built on the last entry, which Emitter.ReceiptIs describes field by field, or raises and leaves every byte; the lock is free either way |
| Emitter.ReceiptValid | tools/inference_receipt_emitter.py:74-98 | for arguments in the schema's domain the receipt meets every property and all three conditional rules, with its sequence number and predecessor hash |
| Emitter.ReceiptIs | tools/inference_receipt_emitter.py:68-98 | on any file: an emit that goes through returns a receipt with the id made of task and number, its type and version, the time of the call, the number after the last entry's, the residency of the device, the call's arguments, and from number 1 on the hash of the last entry; it raises exactly when the tail is no JSON or has no number to go on from |
| Emitter.IdNamesEntry | tools/inference_receipt_emitter.py:75 | task and number can be read off an id |
| Emitter.ReceiptCarries | tools/inference_receipt_emitter.py:74-95 | every argument of the call, the hashes of its two texts, and their counts as given or else the number of their words, are found in the receipt under their own names |
| Emitter.WordCountIs | tools/inference_receipt_emitter.py:87-89 | the estimated token count is the number of places where a word starts |
| Emitter.ValidWhenSorted | tools/inference_receipt_emitter.py:99 | sorting the keys of a receipt changes neither its lookups nor its validity |
| EmitterDomain.SchemaDecides | tools/inference_receipt_emitter.py:74-98 | the receipt built from given arguments meets the schema exactly when the arguments are in its domain |
| ReceiptSchema.ValidIff | schemas/model-plane/InferenceReceipt.schema.json:6-358 | a value meets the schema exactly when it is an object with every required property, each property is allowed as it is, and the three conditional rules hold |
| ReceiptSchema.EmitterProperties | schemas/model-plane/InferenceReceipt.schema.json:22-274 | what may stand under each of the nineteen keys an emitter writes |
| ReceiptSchema.OtherProperties | schemas/model-plane/InferenceReceipt.schema.json:22-274 | what may stand under each of the twelve keys it does not write |
| ReceiptSchema.NoOtherProperties | schemas/model-plane/InferenceReceipt.schema.json:7 | and nothing may stand under any other key |
| EmitterLaws.LastEntryAgrees | tools/inference_receipt_emitter.py:51-55 | on any verified file the last entry is the verifier's last one, or reading raises, exactly when the last line has another line end inside |
| EmitterLaws.EmitAppends | tools/inference_receipt_emitter.py:72-100 | on a clean ledger any plain counts succeed: the receipt is numbered with the count and its line is one more for every reader, accepted or rejected by the schema alone |
| EmitterLaws.EmitChains | tools/inference_receipt_emitter.py:72-100 | whatever the arguments, one emit on a chained ledger leaves a chained ledger of one entry more |
| EmitterLaws.EmitExtends | tools/inference_receipt_emitter.py:72-100 | one emit on a clean verified ledger yields a valid receipt numbered with the count, and a clean verified ledger with that one line more |
| EmitterLaws.DomainIsExact | tools/inference_receipt_emitter.py:72-100 | for all arguments: the longer ledger verifies exactly when they are in the schema's domain, and is rejected at the new entry otherwise |
| EmitterLaws.EmitOnVerified | tools/inference_receipt_emitter.py:68-100 | on any verified file: when the emit raises, and otherwise exactly when the ledger stays verifiable, and where and why it is rejected if not |
| EmitterLaws.TornTailRaises | tools/inference_receipt_emitter.py:51-55 | on a torn entry the next emit raises while parsing the tail |
| EmitterLaws.TornTailVerdict | tools/inference_receipt_emitter.py:115-119 | a reader of a clean ledger with a torn tail rejects exactly the torn entry, as bad JSON |
| EmitterLaws.UnterminatedVerdict | tools/inference_receipt_emitter.py:111-130 | a whole line counts for a reader even before its line end is written, accepted or rejected by the schema |
| EmitterRuns.KeepsInv | tools/inference_receipt_emitter.py:67-104 | every step of every call keeps the invariant: lock held by one call, each whole line what an emit alone would write, text behind them owned by the writer |
| EmitterRuns.RunInv | tools/inference_receipt_emitter.py:67-104 | every state of every run satisfies that invariant |
| EmitterRuns.WholeLines | tools/inference_receipt_emitter.py:99-100 | the whole lines of a run are a chained ledger whose lines are the receipts in order |
| EmitterRunLaws.LogCounts | tools/inference_receipt_emitter.py:99-104 | the recorded lines are one for each call that wrote its line, except calls that crashed after it |
| EmitterRunLaws.LineIs | tools/inference_receipt_emitter.py:67-104 | the k-th new line of a run carries the arguments of the call that wrote it, and its own number, id and time |
| EmitterRunLaws.IdsDiffer | tools/inference_receipt_emitter.py:75 | no two new entries of a run have one id, whatever their tasks |
| EmitterRunLaws.LockFreeLedger | tools/inference_receipt_emitter.py:67-104 | with no piece of an entry in the file the chain is unbroken, has grown by one entry per call that wrote its line, and holds each returned receipt exactly once; without a crash those calls are the ones that returned |
| EmitterRunLaws.NoneRaises | tools/inference_receipt_emitter.py:71-103 | without a crash every call that is over has returned a receipt |
| EmitterReaders.ReaderVerdict | tools/inference_receipt_emitter.py:111-130 | in every reachable state: the first line the schema does not allow is rejected; without one, a lock-free reader accepts the whole lines, or also the one lacking its line end, or rejects exactly the entry after the whole lines |
| EmitterReaders.WholeVerdict | tools/inference_receipt_emitter.py:111-130 | with no piece of an entry in the file the ledger is accepted exactly when the schema allows every line, and is rejected at the first it does not otherwise |
| EmitterReaders.RejectedForever | tools/inference_receipt_emitter.py:115-119 | once a line the schema does not allow is written, every later state of the run is rejected at it |
| EmitterReaders.FreshLedger | tools/inference_receipt_emitter.py:107-130 | a run on a ledger started empty verifies exactly when all calls that wrote had arguments in the schema's domain |
| EmitterReaders.PiecesAreSnapshot | tools/inference_receipt_emitter.py:111 | a reader that reads in pieces while calls write has read the start of the file as it is at its last piece, and the whole of it when it met the end |
| EmitterReaders.PieceReaderVerdict | tools/inference_receipt_emitter.py:111-130 | so it gives the verdict of a reader of that file, for any pieces in any run |
| EmitterRunLaws.EmitAll | tools/inference_receipt_emitter.py:143-145 | a loop of emits leaves what the calls one after the other write |
| EmitterRunLaws.OneByOneExtends | tools/inference_receipt_emitter.py:143-146 | any number of emits with any arguments extends a chained ledger by as many entries, with the old text a prefix |
| EmitterRunLaws.OneByOneVerified | tools/inference_receipt_emitter.py:143-146 | with arguments in the schema's domain the extended ledger is clean |
| EmitterRunLaws.SameAsOneByOne | tools/inference_receipt_emitter.py:64-66 | every run ends as if its calls had been made one after the other in commit order, each returning what it returns there |
| EmitterRunLaws.RealTimeOrder | tools/inference_receipt_emitter.py:67-104 | a call that has written its line before another is opened precedes it in the commit order |
| EmitterRunLaws.AppendOnly | tools/inference_receipt_emitter.py:68-99 | along a run the earlier file is a prefix of the later one |
| EmitterRunLaws.TornForever | tools/inference_receipt_emitter.py:51-103 | once a crash has torn an entry no step of any call changes a byte or commits an entry |
| EmitterRunLaws.EveryStepCounts | tools/inference_receipt_emitter.py:67-104 | every step of a begun call decreases a lexicographic measure |
| EmitterRunLaws.EveryCallCanFinish | tools/inference_receipt_emitter.py:67-104 | no deadlock: from every state all calls can be brought to their end without a crash |
| Gateway.Server.Post | tools/receipt_gateway.py:259-275 | one request appends the receipt of its emission or nothing; it answers 400 to a bad Ollama body, passes an unhandled path through, raises when a shape or the ledger does, and otherwise answers with the reply or its translation, which GatewayWire.Routes, ClientReadsReceiptedText and ClientReadsVectors describe |
| GatewayLaws.EmissionIff | tools/receipt_gateway.py:111-157 | a request leaves a receipt exactly when it has a resolved digest, an inference path, a successful JSON reply and well-shaped bodies, and then under that digest |
| GatewayLaws.ChatReceiptIff | tools/receipt_gateway.py:123-132 | a chat reply is receipted exactly when choices[0].message.content is a string and usage and messages are usable |
| GatewayLaws.EmbedReceiptIff | tools/receipt_gateway.py:133-141 | an embeddings reply is receipted exactly when data is a nonempty list of objects with list embeddings, with the canonical text of the vectors, one for each item in order, as output |
| GatewayLaws.OnlyStringsFind | tools/receipt_gateway.py:71-73 | the configured map keeps exactly the string digests |
| GatewayLaws.EnvironmentDecides | tools/receipt_gateway.py:70-85 | the digest of a model in terms of the environment's text: the single one when that holds no string, else the string under the model's name or none |
| GatewayLaws.MapIsAuthoritative | tools/receipt_gateway.py:78-85 | with a map, a request that leaves a receipt has a string under "model" in its body, and the receipt carries the digest mapped to that string |
| GatewayLaws.AdmittedDigest | tools/receipt_gateway.py:78-92 | the digest a request is admitted with: the single one without a map, else the one mapped to the string under "model" in its body, or none; a list or an object there raises |
| GatewayLaws.TranslatedInput | tools/receipt_gateway.py:165-206 | the receipt of an Ollama request hashes the text of the translated request, read back from the body made for the backend, whatever the translation leaves behind |
| GatewayLaws.GenerateInput | tools/receipt_gateway.py:172-179 | an /api/generate request is receipted as "user: " and its prompt |
| GatewayLaws.ClientReadsReceiptedText | tools/receipt_gateway.py:179-192 | the answer made for the client of a translated chat loads back with exactly the text its receipt hashes, under the model it asked for, done, with the prompt's count and the completion's each in its place and nothing else; floats elsewhere in request and reply do no harm |
| GatewayWire.ClientReadsVectors | tools/receipt_gateway.py:194-206 | the answer made for the client of a translated embedding loads back with the backend's vectors, in order and under the model it asked for, or with the first of them |
| GatewayWire.Routes | tools/receipt_gateway.py:144-206 | which requests go to which backend path and with which body, are answered 400, raise, or are not handled |
| GatewayWire.ChatRequestIs | tools/receipt_gateway.py:165-179 | a translated chat or generate request has the messages, no streaming, the limit of the options exactly when that is true, and nothing else; it raises exactly when the request or its options are no object |
| GatewayWire.EmbedRequestIs | tools/receipt_gateway.py:194-195 | a translated embedding request has the input, else the prompt, else an empty text |
| GatewayWire.MessagesTextIs | tools/receipt_gateway.py:100-101 | the receipted input of a chat is a line of role and content for each message, in order |
| GatewayWire.ShownAs | tools/receipt_gateway.py:101 | what a missing role, a bool, a number or a text reads as inside a text |
| GatewayWire.JoinLaw | tools/receipt_gateway.py:101-108 | lines are put together with one line end between any two |
| GatewayWire.EmbedInputIs | tools/receipt_gateway.py:104-108 | the receipted input of an embedding is its text, or the items of its list, one a line |
| GatewayWire.IsJsonIff | tools/receipt_gateway.py:116 | a reply is JSON exactly when "application/json" is somewhere in its content type, in any case |
| GatewayWire.PassedOn | tools/receipt_gateway.py:180-185 | any other reply, and one with a failed status or a body that does not parse, is passed on as it is |
| GatewayLaws.ReceiptInDomainIff | tools/receipt_gateway.py:128-141 | the receipt is one the schema allows exactly when the resolved digest is a SHA-256 reference and the counts in the reply's usage are null or whole numbers from 0: both for chat, the first for embeddings |
| GatewayLaws.CountsArePlain | tools/receipt_gateway.py:123-141 | counts without floats never leave the model, whatever else the backend reports |
| GatewayLaws.RequestOnLedger | tools/receipt_gateway.py:128-141 | one such request extends a clean ledger to one that verifies exactly under that condition, and to one rejected at the new entry otherwise |
| GatewayRuns.RunInv | tools/receipt_gateway.py:259-275 | in every state of every run the ledger is that of a run of the emitter machine, and each ledger call belongs to exactly one thread whose request is due a receipt, with that thread's arguments |
| GatewayRuns.GatewayConserves | tools/receipt_gateway.py:111-157 | whatever the backend reports: once all threads are settled the chain has grown by exactly the requests due a receipt, and each has its own receipt in it once |
| GatewayRuns.GatewayVerdict | tools/receipt_gateway.py:111-157 | the settled ledger verifies exactly when the schema allows every receipt that was due, and is rejected at the first line it does not otherwise |
| GatewayRuns.GatewayRejectedForever | tools/receipt_gateway.py:111-157 | from the moment such a line is written every later state of the gateway is rejected there |
| GatewayRuns.ReturnedCarries | tools/receipt_gateway.py:128-141 | the receipt of a returned call carries that call's own arguments |
| GatewayRuns.DirectReplyUntouched | tools/receipt_gateway.py:144-157 | an OpenAI request is answered with the backend's own status, content type and body |
| GatewayRuns.AnsweredUnasked | tools/receipt_gateway.py:167-170 | a request answered without the backend is of an unhandled path and passed on as it is, or has an Ollama path and a body that is no JSON and gets the 400 and its error text |
| GatewayProgress.EveryStepCounts | tools/receipt_gateway.py:259-275 | every step other than an arrival decreases a lexicographic measure over stages and ledger calls |
| GatewayProgress.EveryRequestCanSettle | tools/receipt_gateway.py:259-275 | from every state of a run all threads can be settled without a crash, whatever the backend replies, and the system is then quiet if nothing crashed before |
| Boundaries.TwoLastEntries | tools/inference_receipt_emitter.py:123-130 | two different entries each accepted as the last |
| Boundaries.UnknownTierRejected | tools/inference_receipt_emitter.py:58-100 | a call with a tier outside the schema succeeds, and the ledger it leaves is rejected |
| Boundaries.NegativeCountRejected | tools/receipt_gateway.py:123-132 | a reply with a negative count leaves a receipt that verification rejects |
| Boundaries.GluedEntryRejected | tools/inference_receipt_emitter.py:99-100 | an emit behind an entry that lacks its line end spoils the entry that was good |
| Boundaries.StrangeSpaceRejected | tools/inference_receipt_emitter.py:54-55 | an emit behind white space JSON does not know is rejected at the new entry |
| Boundaries.InnerLineEndRaises | tools/inference_receipt_emitter.py:54-55 | with a form feed behind the last entry the ledger verifies and the next emit raises |
| Utf8.DecodeEncode | reference/ipc-v0/src/contract_runner/runner.py:66 | strict decoding undoes encoding for every text |
| Utf8.EncodeDecode | reference/ipc-v0/src/contract_runner/runner.py:81 | what decodes is the encoding of what it decodes to: no overlong form, surrogate or excess value passes |
| Utf8.EncodeCharIs | reference/ipc-v0/src/contract_runner/runner.py:66 | each character is written in the one to four bytes of the table in section 3 of RFC 3629 |
| Utf8.NewlineAt | reference/ipc-v0/src/contract_runner/runner.py:66-79 | the bytes 0x0A are exactly where the text has a line end: at the encoded length of what comes before it |
| Ndjson.RoundTrip | reference/ipc-v0/src/contract_runner/runner.py:64-92 | framing and reading back is the identity on every sequence of messages, one line each |
| Ndjson.MessagesAppend | reference/ipc-v0/src/contract_runner/runner.py:78-92 | whatever complete lines come before, the messages after them are read the same |
| Ndjson.FrameTextLines | reference/ipc-v0/src/adapters/caps_adapter.py:52-60 | a text-mode stdin with universal newlines sees the same one line in a frame |
| LineLaws.RawLinesIff | reference/ipc-v0/src/contract_runner/runner.py:78-79 | iterating over the adapter's bytes cuts them after each byte 0x0A and nowhere else |
| LineLaws.ReadLineIs | reference/ipc-v0/src/contract_runner/runner.py:80-92 | a line of bytes is passed over exactly when it is no UTF-8 or nothing but line ends, and otherwise is a message or noise as its text without line ends at either side is JSON or not |
| IpcRunner.NDJSONWriter.Send | reference/ipc-v0/src/contract_runner/runner.py:64-70 | one frame to the adapter and the same line to the transcript |
| IpcRunner.NDJSONReader.Next | reference/ipc-v0/src/contract_runner/runner.py:78-92 | yields the next message, skipping undecodable and blank lines and those that are not JSON, and logs every readable line |
| IpcRunner.DoHandshake | reference/ipc-v0/src/contract_runner/runner.py:116-157 | outcome, bytes sent, transcript and unread input of the handshake on any adapter output |
| IpcRunner.DoInvoke | reference/ipc-v0/src/contract_runner/runner.py:160-184 | the same for an invoke |
| IpcRunner.DoSession | reference/ipc-v0/src/contract_runner/runner.py:221-225 | the same for a whole conversation |
| IpcRunnerLaws.PullIs | reference/ipc-v0/src/contract_runner/runner.py:78-92 | one turn of the reader takes exactly the lines up to the next message of the stream |
| IpcRunnerLaws.InvokeReturnsIff | reference/ipc-v0/src/contract_runner/runner.py:172-184 | a payload is returned exactly when it comes from the first message that ends the wait for its request id, after valid envelopes only |
| IpcRunnerLaws.InvokeFailsIff | reference/ipc-v0/src/contract_runner/runner.py:172-184 | each failure of an invoke is given exactly: no envelope, the adapter's error for this request, another reply to it once the time is over, or a stream that ends while everything in it is waited past |
| IpcRunnerLaws.OnlyLaterAnswers | reference/ipc-v0/src/contract_runner/runner.py:160-178 | with a fresh id nothing the adapter wrote before the invoke can be returned |
| IpcRunnerLaws.HandshakeFaithful | reference/ipc-v0/src/contract_runner/runner.py:133-157 | a handshake succeeds only with exactly one acknowledgement, right after and replying to a capabilities message |
| IpcRunnerLaws.HandshakeSucceedsIff | reference/ipc-v0/src/contract_runner/runner.py:133-157 | the handshake yields capabilities exactly when they come non-null in the first message of that type, after valid envelopes only and no error |
| IpcRunnerLaws.HandshakeFailsIff | reference/ipc-v0/src/contract_runner/runner.py:133-157 | each failure of a handshake is given exactly: no envelope, an error, null capabilities, or a stream that ends without any |
| IpcRunnerLaws.SessionFaithful | reference/ipc-v0/src/contract_runner/runner.py:116-184 | the transcript interleaves in order exactly what was sent and the readable lines consumed: hello first, acknowledgement after its capabilities, the invoke exactly when the handshake succeeded, on success the returned result last |
| IpcAdapters.CapsMain | reference/ipc-v0/src/adapters/caps_adapter.py:48-134 | the loop writes the frames of the specified replies and exits with the specified code |
| IpcAdapters.BridgeMain | reference/ipc-v0/src/adapters/tritrpc_bridge_adapter.py:165-254 | the same for the bridge |
| IpcAdapterLaws.VerifyRefusedIff | reference/ipc-v0/src/adapters/tritrpc_bridge_adapter.py:98-117 | there is no command exactly when the arguments are no object, or it is to execute and a file is missing or falsy; the first such file is named |
| IpcAdapterLaws.VerifyCommandIs | reference/ipc-v0/src/adapters/tritrpc_bridge_adapter.py:98-117 | the command word by word: the receipt path always, the execute flag and the three files exactly when executing |
| IpcAdapterLaws.PackRefusedIff | reference/ipc-v0/src/adapters/tritrpc_bridge_adapter.py:120-140 | there is no command exactly when the arguments are no object, service, method or JSON is missing or falsy, or it is to execute and the packer is; the first of them is named |
| IpcAdapterLaws.PackCommandIs | reference/ipc-v0/src/adapters/tritrpc_bridge_adapter.py:120-140 | the command word by word: nonce and key exactly when given, the packer exactly when executing |
| IpcAdapterLaws.PackLineFixesArguments | reference/ipc-v0/src/adapters/tritrpc_bridge_adapter.py:120-140 | equal commands come from arguments that ask for the same: every option can be read back |
| IpcAdapterLaws.AdapterRefines | reference/ipc-v0/src/adapters/tritrpc_bridge_adapter.py:165-254 | on conforming messages either adapter reads to the end and what it writes is a run of one protocol automaton |
| IpcAdapterLaws.OneAnswerEach | reference/ipc-v0/src/adapters/caps_adapter.py:104-132 | in every run of the automaton each invoke is answered by one result or error replying to its id, in order |
| IpcAdapterLaws.NoResultBeforeHello | reference/ipc-v0/src/adapters/caps_adapter.py:68-107 | in every run of the automaton a hello is acknowledged before any result |
| IpcAdapterLaws.MismatchStops | reference/ipc-v0/src/adapters/caps_adapter.py:61-63 | a version mismatch adds one error that replies to nothing, ends with exit code 2, and the rest is not read |
| IpcAdapterLaws.EveryInvokeAnswered | reference/ipc-v0/src/adapters/caps_adapter.py:52-134 | for every line input of conforming messages, noise lines included, both adapters answer each invoke once and exit with 0 |
| IpcAdapterLaws.SecretsRedacted | reference/ipc-v0/src/adapters/tritrpc_bridge_adapter.py:143-151 | a reply shows the command with every 64-digit hexadecimal part redacted and nothing else changed |
| IpcMessages.HelloIs | reference/ipc-v0/src/contract_runner/runner.py:116-131 | every key and value of the hello |
| IpcMessages.CapabilitiesAckIs | reference/ipc-v0/src/contract_runner/runner.py:141-150 | every key and value of the acknowledgement of capabilities |
| IpcMessages.InvokeMessageIs | reference/ipc-v0/src/contract_runner/runner.py:160-170 | every key and value of an invoke |
| IpcMessages.IsEnvelopeIff | reference/ipc-v0/src/contract_runner/runner.py:95-100 | which messages are taken for an envelope |
| IpcMessages.InvokeOnIs | reference/ipc-v0/src/contract_runner/runner.py:172-184 | what the runner makes of each message while it waits for its answer |
| IpcMessages.HandshakeOnMessage | reference/ipc-v0/src/contract_runner/runner.py:133-157 | what the runner makes of each message during the handshake |
| IpcMessages.HelloAckIs | reference/ipc-v0/src/adapters/tritrpc_bridge_adapter.py:184-197 | every key and value of an adapter's acknowledgement |
| IpcMessages.CapabilitiesAre | reference/ipc-v0/src/adapters/tritrpc_bridge_adapter.py:59-95 | every capability of both adapters, with every key and value |
| IpcMessages.WrapperReports | reference/ipc-v0/src/adapters/tritrpc_bridge_adapter.py:143-162 | what is told of a wrapper's run: the command redacted, exit code, stdout and stderr of the process, the receipt's path and the receipt itself on success, the mode by whether `execute` is true, ok by whether the exit code is 0, each under its own key |
| IpcMessages.WrappedComesTo | reference/ipc-v0/src/adapters/tritrpc_bridge_adapter.py:143-162 | a command that cannot be made or run is refused with the error, one that fails is an error with those details, one that ends well a result with those data |
| IpcMessages.OperateIs | reference/ipc-v0/src/adapters/tritrpc_bridge_adapter.py:202-252 | for every operation of both adapters, what the reply holds |
| IpcMessages.OnMessageHandles | reference/ipc-v0/src/adapters/tritrpc_bridge_adapter.py:165-254 | what either adapter does with any message at all: how it goes on, and every reply it sends, key by key |
| IpcConversation.KeepsInv | reference/ipc-v0/src/contract_runner/runner.py:116-184 | every step of either process keeps the bytes on their way equal to the frames of the current phase |
| IpcSystem.PipesKeep | reference/ipc-v0/src/contract_runner/runner.py:103-113 | between the processes no byte is lost, reordered or added but by handling a line and by what is written for it; no pipe is filled above its capacity; a process with something left to write does nothing else |
| IpcConversation.ResultIsAdapters | reference/ipc-v0/src/contract_runner/runner.py:221-225 | in every interleaving a runner that is done has the adapter's function of the arguments |
| IpcConversation.ExpectedIs | reference/ipc-v0/src/adapters/caps_adapter.py:109-132 | for every operation of both adapters: the upper-cased text or an error when there is none, the echoed arguments, what the wrapper's process reports, key by key, an error for an unknown operation |
| IpcConversation.RunNeverStuck | reference/ipc-v0/src/contract_runner/runner.py:116-184 | until the runner is done some process can move, whatever the pipe capacity |
| IpcConversation.EveryStepCounts | reference/ipc-v0/src/contract_runner/runner.py:116-184 | every step ends a phase or moves bytes on, so every run is finite |
| IpcConversation.EveryRunCanEnd | reference/ipc-v0/src/contract_runner/runner.py:116-184 | from every state the conversation can be brought to its expected end |
| IpcConversation.LoopsAreSteps | reference/ipc-v0/src/contract_runner/runner.py:133-184 | on any input the two loops give the outcome and the messages of the line-by-line machine |
| Timestamps.TextOrderIsTimeOrder | tools/validate_host_interface.py:31 | for calendar-valid timestamps of one zone and precision the order of the texts is the order of the instants |
| Timestamps.FormsMustMatch | tools/validate_host_interface.py:31 | between any two different zones or precisions there are times the comparison gets wrong |
| Timestamps.FormsAgreeIff | tools/validate_host_interface.py:31 | comparing texts of two forms is right about all times exactly when the forms are the same |
| CalendarLaws.InstantIs | tools/validate_host_interface.py:31 | the instant in closed form: days by the Gregorian rule, and the time of day moved by the zone |
| CalendarLaws.IsTimeIff | tools/validate_host_interface.py:31 | which dates and times there are |
| CalendarLaws.TextReads | tools/validate_host_interface.py:31 | every field can be read off the text where section 5.6 of RFC 3339 has it |
| HostInterface.GrantValid | tools/validate_host_interface.py:27-37 | valid exactly when the grant is present, unrevoked, later than the decision, matching and wide enough; otherwise each reason is given exactly when it is the first that applies |
| HostInterface.Check | tools/validate_host_interface.py:49-62 | accepts exactly when an allow is admitted and the receipt agrees with the envelope |
| HostInterface.CheckAll | tools/validate_host_interface.py:69-73 | a batch passes exactly when every envelope does |
| HostInterface.AllowedIsUnexpired | tools/validate_host_interface.py:27-37 | with both times in one form, a grant admits exactly when it is unrevoked, matching, wide enough and its expiry instant is strictly after the decision |
| HostInterface.MixedZonesMisjudged | tools/validate_host_interface.py:27-62 | an allow under a grant that ran out an hour before the decision is accepted |
| Validators.CheckContract | tools/validate_contract.py:130-171 | the nested loops compute the contract's acceptance, or raise exactly when a container backend has no container |
| Validators.ValidateContracts | tools/validate_contract.py:104-176 | the batch verdict is the conjunction of the documents' acceptance |
| ValidatorLaws.ContractAcceptedIff | tools/validate_contract.py:130-171 | the first validator accepts a contract exactly when every lane is an example's with the sentinel, or is pinned and emits the evidence each of six labels asks for, and no step matches a forbidden pattern |
| ValidatorLaws.PinnedIff | tools/validate_contract.py:11 | an image is pinned exactly when it ends in the digest mark and 64 lower-case hexadecimal digits, with or without a line end |
| ValidatorLaws.PassportAcceptedIff | tools/validate_contract.py:75-101 | which passports the first validator accepts |
| Validators.CheckOps | tools/validate_workspace_ops.py:139-172 | the threaded flag is kept exactly when the contract is accepted |
| Validators.ValidateOps | tools/validate_workspace_ops.py:180-204 | the batch verdict is the conjunction of the documents' acceptance, contracts that fail the v0.1 schema and passports that name a workspace-ops schema included |
| ValidatorLaws.OpsAcceptedIff | tools/validate_workspace_ops.py:139-172 | the second accepts a contract exactly when it is not labelled, or every lane emits the evidence each of four labels asks for and no step matches a forbidden pattern |
| ValidatorLaws.OtherVerdicts | tools/validate_workspace_ops.py:111-204 | what both make of every other kind of document |
| Validators.AgreeIff | tools/validate_contract.py:116-153 | what the first validator accepts the second accepts exactly when the skipped lanes emit their evidence too and no passport fails a schema it names |
| Validators.SentinelDisagrees | tools/validate_contract.py:137-140 | an example contract the first validator accepts and the second rejects |
| Validators.PassportDisagrees | tools/validate_contract.py:116-121 | a passport the first validator accepts and the second rejects |
| Validators.BatchAgrees | tools/validate_workspace_ops.py:111-172 | an accepted batch is accepted by the second exactly when that holds of every document, in particular without sentinel lanes and such passports |
| Validators.OrderIrrelevant | tools/validate_contract.py:111-176 | neither batch verdict depends on order or repetition |

## Left out

- HTTP serving, sockets, header copying, `_passthrough` and health checks; a reply's status, content type and body are what the model sees of the backend.
- SHA-256 and the chunked hashing of weights: an arbitrary function and a configured digest.
- The `jsonschema` engine: the InferenceReceipt schema is a predicate written by hand; host-interface envelopes and contracts are modelled as the fields their checks read, and whether a contract conforms is part of the document.
- The `re` engine: the forbidden patterns are parameters shared by both validators.
- JSON floats: a float is known by its lexeme only, is outside `Plain`, and is printed as it was read where Python writes its own shortest text (so in `GatewayWire.ClientReadsVectors`); a `confidence` that is a float, counts such as `12.0`, translated messages with a float in them, and the equality of `1`, `1.0` and `True` are outside the model.
- Lone surrogates: no string here holds one, and the decoder treats their escapes as an error.
- Python's limit on the number of digits of an integer, and recursion depth.
- Files and bodies that are not UTF-8, except in the IPC reader, which skips such lines.
- The platform path without `fcntl`, disk-full errors, and a crash that writes a whole entry but loses only its line end, for which the code promises nothing; `EmitterLaws.EmitOnVerified` shows what the next emit does then.
- Token counts that hold a float are not steps of the run machines (`PlainCounts`): the model does not print floats.
- The exception text of a failed `.get` and of a failed subprocess are parameters.
- Wall-clock time in `invoke`: whether the time is over when a message is looked at is an arbitrary function.
- Process start and termination, end of file from an adapter that exits early in the pipe model, and `load_invoke_args`.
- TriTRPC framing, fog-node, LRK, seam-registry and protocol-binding checkers, truth-plane and model-plane validation, and the m2-ipc document: field checks over fixtures.
- Documents that are not JSON objects, unreadable files, and documents whose labels, lanes or steps lack the shapes the rules read, in `Validators`.
