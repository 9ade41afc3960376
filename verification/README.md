# YourStack, verified

A Dafny model of the parts of YourStack whose correctness is not obvious from reading them, with
proofs of what they promise. `dafny verify dfyconfig.toml` checks the whole project.

| module | what it models |
|---|---|
| `Text`, `Json`, `Options` | strings, decimal numerals, line splitting, JavaScript values, optional values |
| `YamlScalar`, `YamlPrinter`, `YamlParser`, `YamlLayout`, `YamlRoundTrip`, `YamlLaws` | the hand-written YAML printer and parser of the web app |
| `YamlByHand` | what the parser makes of texts that no printer wrote: comments, other line ends, double quotes, indented sequences |
| `Numerals`, `JsonText`, `JsonReader` | the numbers of RFC 8259, `JSON.stringify`, and a reader of JSON texts that knows nothing of it |
| `CanonicalJson`, `CanonicalLaws`, `ParsedNumbers`, `Signing` | canonical JSON in TypeScript and in Rust, numbers re-read by the agent, command signing and verification |
| `Calendar` | days to civil dates and the ISO 8601 time stamps of the agent |
| `Sse`, `SseFrames` | the incremental parser of server-sent events against the server's frame writer |
| `DeploymentTables`, `DeploymentProtocol`, `DeploymentRaces` | deploy worker, result handlers and safety net as interleaved writes on shared tables |
| `CommandDelivery`, `CommandRaces`, `OverlappingPolls` | creating, signing, claiming, verifying, executing and reporting node commands; late reports and overlapping polls |
| `Redactor` | masking secrets in log lines |
| `RealtimeHub` | subscriptions whose unsubscribe closures capture set objects |
| `Nftables`, `Firewall`, `FirewallText`, `FirewallMeaning` | rule rows to a spec to nft text, and what nft makes of the text |
| `Builder`, `BuilderGraph`, `BuilderLaws`, `BuilderEdges`, `BlueprintReader`, `BlueprintYaml` | a blueprint drawn as a graph and read back; the canvas written out as YAML, found again field by field |
| `Autoscaler`, `ScaleApp` | the scaling decision in closed loop, its cooldown, and the agent's replica reconcile |

## How the model reads

- Code that changes state step by step is a method or a class (`Printer`, `SseParser`, `Database`,
  `CommandTable`, `EventHub`, `Editor`, `ScalingPolicy`, `Docker`); each method is proved equal to a
  function of its input or of the old state, and the laws are lemmas about that function.
- The two protocols are state machines. Every database write or transaction is one step, a step that is
  not enabled is skipped, and a run is any sequence of steps. Reads and writes that the code makes
  separately are separate steps.
- Where a property the code is meant to have fails, the exact condition is proved instead, as an
  if-and-only-if, next to a concrete failing input.

Where code and comments disagree, or the code misses what it is for, the model follows the code:

- `apps/web/src/lib/yaml.ts:79` prints a non-empty sequence under a map key at the key's own column,
  which section 8.2.3 of YAML 1.2 allows, but `apps/web/src/lib/yaml.ts:205` reads only deeper lines:
  the value comes back as null (`SequenceUnderKeyIsLost`, exactly when: `RoundTripExactly`). So what the
  builder writes can be read back only while nothing but domains is on the canvas, and the project and the
  region are single lines (`CanvasBackExactly`).
- `packages/shared/src/canonical.ts:1-6` promises byte-identical output on both sides. It holds exactly for
  payloads whose keys are ordered alike by JavaScript's enumeration and by code points
  (`LanguagesAgreeExactly`) and whose numbers the agent writes as JavaScript does (`ParsedAgreesExactly`);
  keys like `9` and `10` break it (`IndexKeysDisagree`), and so does an integer beyond 64 bits
  (`BigIntegersDisagree`).
- `apps/worker/src/processors/healthcheck.ts:9-10` calls the safety net a no-op once the node has reported.
  Its read and its three writes are apart. It changes nothing exactly unless it has read the deployment as
  unfinished and has two or three writes left, or the last one with the run still marked running
  (`SafetyNetIsNoOpExactly`). `RaceIsReachable` is a run in which it fails a running deployment,
  `HalfDoneNetFailsTheApp` one in which it fails the app of a deployment that goes on running.
- `apps/api/src/routes/agent.ts:228` calls claiming atomic; it is a read and then an update, and the answer
  holds the rows as read. Two answers share a command exactly when something of the earlier batch is still
  queued as the later poll reads (`PollsShareExactly`); in `OverlapHandsOutTwice` one is handed out twice.
- `apps/agent/src/api.rs:141-198` sends a report again that timed out, so a late copy can put an ended
  command back (`EndedLeavesExactly`; `EndedCanBeRewritten` is a run).
- `packages/security/src/redaction.ts:17-27` masks every occurrence it finds, yet a secret that begins like an
  end of the placeholder, or ends like its beginning, can reappear (`MaskedInEverySetExactly`; the secret
  `*abc` does, `AsteriskSecretSurvives`).
- An unsubscribe function called twice can silence a newer subscriber (`SecondCallHarmlessExactly`; a run in
  which it does, `SecondCallSilences`).
- Nothing checks a firewall rule's address and port: a ruleset is applied as it was meant, whatever the node
  had before, exactly when nft takes every rule's address for an address and port for a port, whichever it
  takes (`AppliedAsMeantExactly`). A port of one blank makes nft refuse the whole text
  (`BlankPortIsUnread`, `UnreadIsRefused`).

## Assumptions

- HMAC-SHA256 (RFC 2104) is an arbitrary function of key and text; collision freedom is a hypothesis where
  it is needed. `Math.ceil`, division and the load of the autoscaler are exact, over reals.
- A number is an integer that JavaScript writes in digits, or else the text JavaScript writes for it, which is
  a number of RFC 8259, section 6, with a point or an exponent. What
  serde_json writes for a number it has read as a float is an arbitrary function of that text, whose values
  hold a point or an exponent. Texts are sequences of characters.
- Transactions are serializable; a deployment has one deploy job, which runs once; a command has one final
  outcome, whose report may be applied by several requests; log lines and notifications are not state.
- nft is modelled by the reader in `Nftables`, as much of its grammar as the agent writes. Which phrases it
  takes for an IPv4 address or for a port, of one word or several, and what they match, are parameters; the
  phrases hold no white space inside their words and none of the words that follow them in a rule line. A
  Docker engine does what it is told.
- The text of the clock (`Date.now()` in base 36) in builder ids is an arbitrary function of the call number.

## Model

| member | source | states |
|---|---|---|
| YamlScalar.ScalarRoundTrip | apps/web/src/lib/yaml.ts:18-119 | a scalar, quoted or not, is read back as itself, decimal fractions included, and its text hides no comment and no key |
| YamlScalar.BareExactly | apps/web/src/lib/yaml.ts:15-28 | a text stands without quotes if and only if it holds no indicator of YAML 1.2, section 5.3, where one would count, has no white space at its ends, is no word for null or a boolean in any case, and does not begin like a number |
| YamlPrinter.Printer.Serialize | apps/web/src/lib/yaml.ts:34-64 | appends exactly the lines of the value's block at that indent |
| YamlPrinter.Printer.EmitKeyed | apps/web/src/lib/yaml.ts:66-91 | appends exactly the lines of one keyed child, brackets for empty ones |
| YamlPrinter.PrintYaml | apps/web/src/lib/yaml.ts:94-98 | prints the value's block, joined and ended by a line feed |
| YamlParser.FindComment | apps/web/src/lib/yaml.ts:141-151 | the least place of a `#` outside quotes that starts the line or follows a blank, and -1 if there is none |
| YamlParser.SplitKeyValue | apps/web/src/lib/yaml.ts:153-168 | splits at the least place of a `:` outside quotes that ends the text or has a blank after it, both parts trimmed, and nowhere if there is none |
| YamlParser.Tokenize | apps/web/src/lib/yaml.ts:126-139 | the lines with comments cut, blank ones dropped, indents measured |
| YamlParser.ChildRange | apps/web/src/lib/yaml.ts:184-188 | stops at the first line less deep, inside the range |
| YamlParser.ParseBlock | apps/web/src/lib/yaml.ts:176-182 | terminates on all lines, reads only its range, and computes the block's value |
| YamlParser.ParseMap | apps/web/src/lib/yaml.ts:190-214 | the map loop, on any range of any lines |
| YamlParser.ParseSequence | apps/web/src/lib/yaml.ts:216-243 | the sequence loop, with the synthetic block of an inline map as large as the range |
| YamlParser.Synthesize | apps/web/src/lib/yaml.ts:230-234 | the synthetic lines of `- key: value`, shifted left |
| YamlParser.ReadYaml | apps/web/src/lib/yaml.ts:252-261 | reads every text, the empty one as an empty map |
| YamlLayout.PrintedTokens | apps/web/src/lib/yaml.ts:94-139 | tokenizing a printed value gives its block's lines, whatever the scalars hold |
| YamlRoundTrip.BlockBack | apps/web/src/lib/yaml.ts:34-243 | a printed block parses to the same value exactly when no sequence in it stands under a key or is an empty item |
| YamlRoundTrip.FieldsBack | apps/web/src/lib/yaml.ts:59-214 | the fields of a map come back in order, each intact exactly when its value is |
| YamlRoundTrip.KeptOrLighter | apps/web/src/lib/yaml.ts:190-214 | parsing further lines leaves a key's value or makes the map lighter than its lines |
| YamlRoundTrip.BadFieldLost | apps/web/src/lib/yaml.ts:74-80 | a non-empty sequence under a key never comes back, whatever follows it |
| YamlRoundTrip.MapProto | apps/web/src/lib/yaml.ts:190-214 | a map gets an own `__proto__` property, at any depth, only at the price of a line that makes no property |
| YamlLaws.ParsedIsClean | apps/web/src/lib/yaml.ts:102-261 | what any text parses to has no line breaks inside, no undefined and only decimal numbers; with an own `__proto__` property it has less content than the text has lines |
| YamlLaws.SecondProtoIsOwn | apps/web/src/lib/yaml.ts:205-209 | `__proto__:` makes no property but takes the accessor away, so a second assignment makes one |
| YamlLaws.RoundTripExactly | apps/web/src/lib/yaml.ts:18-261 | printing then parsing gives the value back if and only if it survives: container on top, no sequence under a key, no empty sequence item, no `__proto__` key, clean texts and numbers |
| YamlLaws.SequenceUnderKeyIsLost | apps/web/src/lib/yaml.ts:79-206 | a list of one number under any key comes back as null |
| YamlLaws.PrintAndRead | apps/web/src/lib/yaml.ts:94-261 | the two programs composed, with the same if-and-only-if |
| YamlByHand.CommentIsDropped | apps/web/src/lib/yaml.ts:126-151 | behind every line that ends outside quotes a comment, whatever it says, leaves the tokens as they were |
| YamlByHand.CommentLineIsNothing | apps/web/src/lib/yaml.ts:132-134 | a line that is only a comment, at any depth, is dropped |
| YamlByHand.CommentsChangeNothing | apps/web/src/lib/yaml.ts:126-261 | comments behind the lines and lines of comment between them change nothing of what any text is read as |
| YamlByHand.CrLfReadsAlike | apps/web/src/lib/yaml.ts:128 | every text is read alike with either line end |
| YamlByHand.DoubleQuotedReads | apps/web/src/lib/yaml.ts:109-115 | every text between double quotes, its own escaped, is read as itself |
| YamlByHand.SignedDigitsRead | apps/web/src/lib/yaml.ts:116 | digits behind either sign are read as that integer |
| YamlByHand.PlusReads | apps/web/src/lib/yaml.ts:116 | a plus sign in front of a numeral makes no difference |
| YamlByHand.WordsRead | apps/web/src/lib/yaml.ts:104-108 | the words and empty brackets that are no texts |
| YamlByHand.WordsAsKeys | apps/web/src/lib/yaml.ts:170-174 | what the null word and the brackets are as keys |
| YamlByHand.IndentedSequenceIsRead | apps/web/src/lib/yaml.ts:205-243 | under its key and one level deeper, every printable list is read as itself, whatever follows |
| JsonReader.StringifyReads | packages/shared/src/canonical.ts:8 | read by the grammar of RFC 8259, sections 2 to 7, the text of every plain value says that value |
| JsonReader.StringifyInjective | packages/shared/src/canonical.ts:8 | so the text is uniquely decodable |
| JsonReader.EscapesAreShortest | packages/shared/src/canonical.ts:8 | every character of a string is written in the shortest way that reads as it, in small hexadecimal digits |
| CanonicalJson.KeyOrderTotal | packages/shared/src/canonical.ts:16 | each of the three key orders is total and strict |
| CanonicalJson.IndexExactly | apps/agent/src/signing.rs:30-34 | the keys JavaScript enumerates first are the numerals below 2^32 - 1 without leading zeros |
| CanonicalJson.AscendingUnique | packages/shared/src/canonical.ts:16 | fields sorted by key are determined by their set |
| CanonicalJson.AssignIsInsert | packages/shared/src/canonical.ts:17 | assigning ascending keys enumerates them with array indices first |
| CanonicalJson.SortValue | packages/shared/src/canonical.ts:11-22 | the sorting loop, in either language, yields the value sorted at every depth |
| CanonicalLaws.CanonicalExactly | packages/shared/src/canonical.ts:7-22 | two values have the same canonical text if and only if they differ in key order alone, at any depth |
| CanonicalLaws.CanonicalIsRead | packages/shared/src/canonical.ts:7-22 | in either language a canonical text is JSON, and reads as the visible value with its objects sorted at every depth |
| CanonicalLaws.CanonicalIdempotent | packages/shared/src/canonical.ts:7-22 | canonicalizing what a canonical text reads as gives that text again |
| CanonicalLaws.LanguagesAgreeExactly | apps/agent/src/signing.rs:20-43 | both languages print the same text of one value if and only if it is portable |
| CanonicalLaws.OrdinaryIsPortable | apps/agent/src/signing.rs:30-34 | ASCII keys that are no array indices are portable |
| CanonicalLaws.IndexKeysDisagree | apps/agent/src/signing.rs:30-34 | an object with keys 9 and 10 has two different canonical texts |
| ParsedNumbers.SortedOnNumbers | apps/agent/src/signing.rs:27-43 | sorting at every depth commutes with changing the numbers |
| ParsedNumbers.ParsedAgreesExactly | apps/agent/src/signing.rs:11-12 | the agent's canonical text of what it reads is the signer's if and only if the value is portable and every number is written alike |
| ParsedNumbers.BigIntegersDisagree | apps/agent/src/signing.rs:14-15 | an integer beyond 64 bits has two different canonical texts |
| Signing.HexRoundTrip | packages/security/src/signing.ts:19-31 | hex text decodes to its bytes in both languages |
| Signing.DecodersAgree | packages/security/src/signing.ts:21 | the two hex decoders agree on every key that the strict one takes |
| Signing.OwnSignatureVerifies | packages/security/src/signing.ts:24-34 | the control plane's check accepts exactly the right tag |
| Signing.SignedTextSays | packages/security/src/signing.ts:19-22 | in either language the signed text reads as an object of the five fields and what is visible of the payload |
| Signing.SameTextExactly | apps/agent/src/signing.rs:47-84 | after storage and the agent's reading the text rebuilt is the signed one if and only if the languages agree on the payload's keys and the envelope's numbers |
| Signing.SignedIsAccepted | apps/agent/src/signing.rs:74-89 | every signature made for such a command is accepted, whatever storage reordered or dropped and whatever fields surround it |
| Signing.AcceptedExactly | apps/agent/src/signing.rs:74-89 | with a collision-free tag a signed command is accepted if and only if the languages agree on it, for every payload |
| Signing.AcceptedIsAuthentic | apps/agent/src/signing.rs:74-89 | whatever is accepted under a signature says what was signed, up to key order, for every payload |
| Signing.UnsignedIsRejected | apps/agent/src/signing.rs:75-88 | the empty signature of a fresh row is never accepted |
| Calendar.CivilCounts | apps/agent/src/util.rs:22-33 | for every integer day the result is a valid date, and counting days to it gives the day back |
| Calendar.CivilIsTheCalendar | apps/agent/src/util.rs:22-33 | day 0 is 1970-01-01, and each next day is the next calendar day under the Gregorian leap rule |
| Calendar.CivilBijection | apps/agent/src/util.rs:22-33 | every valid date is hit once, in date order |
| Calendar.IsoSorts | apps/agent/src/util.rs:7-18 | time stamps of years 0 to 9999 sort as texts exactly as in time |
| Calendar.IsoReads | apps/agent/src/util.rs:7-18 | for years 0 to 9999 the digits, at their places by RFC 3339, section 5.6, name a valid day and time of day that count back to the clock's seconds and milliseconds |
| Sse.ParseRawFrame | apps/cli/src/lib/sse.ts:38-61 | the frame loop gives the frame's event, or none without a field |
| Sse.SseParser.Push | apps/cli/src/lib/sse.ts:22-35 | one push turns the buffer and chunk into the events and rest of the normalized text |
| Sse.ChunkIndependent | apps/cli/src/lib/sse.ts:22-35 | without CR CR LF, any cutting gives the events and the rest of one push |
| Sse.CutLosesText | apps/cli/src/lib/sse.ts:23-25 | cutting after any CR CR LF gives a different result |
| Sse.ChunkIndependentExactly | apps/cli/src/lib/sse.ts:22-35 | a stream is chunk independent if and only if it holds no CR CR LF |
| Sse.StreamReadsExactly | apps/api/src/routes/events.ts:25-32 | a written stream reads back as its events if and only if every event type is one whole line |
| Sse.StreamRoundTrip | apps/cli/src/lib/sse.ts:22-61 | so it does under any cutting, keep-alives interleaved, with nothing left over |
| Sse.ReadStream | apps/cli/src/lib/sse.ts:94-103 | the reading loop delivers the events of its chunks in order |
| SseFrames.AnyFrameReads | apps/cli/src/lib/sse.ts:38-61 | for every frame of named, bare and comment lines: the last name, all data lines joined in order, one blank after the colon taken off, and no event without a field |
| SseFrames.ClientIsToldAll | apps/api/src/routes/events.ts:25-32 | under any cutting the types and the values that the data reads as are the ones sent, in order |
| DeploymentTables.Database.ClosePipelineRun | apps/api/src/services/command-result.service.ts:134-162 | writes the closed form of the last three stages and the run's status |
| DeploymentTables.Database.FinalizeSuccessfulDeploy | apps/api/src/services/command-result.service.ts:64-105 | row by row: a healthy report makes the deployment running and current and every other running one of its app superseded, any other fails the deployment and its app; the run is closed; no other row changes |
| DeploymentTables.Database.FailDeploy | apps/api/src/services/command-result.service.ts:107-131 | row by row: the deployment and its app are failed, the run closed as failed, and no other row changes |
| DeploymentTables.Database.ProcessHealthcheck | apps/worker/src/processors/healthcheck.ts:12-36 | row by row: what is not terminal is failed with its app, its run only if it still runs, and no other row changes |
| DeploymentTables.Database.RunStage | apps/worker/src/processors/deploy.ts:136-163 | a stage ends passed or broken, nothing else changes |
| DeploymentTables.Database.ProcessDeploy | apps/worker/src/processors/deploy.ts:26-181 | where each way through the job leaves stages, run, deployment and app |
| DeploymentTables.ClosedForms | apps/api/src/services/command-result.service.ts:144-157 | the two closed forms: eight passed, or five passed, broken, skipped, skipped |
| DeploymentProtocol.RunningIsCurrent | apps/api/src/services/command-result.service.ts:52-131 | in every reachable state a running deployment is its app's current one, and no app has two |
| DeploymentProtocol.PipelineShapeHolds | apps/worker/src/processors/deploy.ts:43-133 | in every reachable state a run is passed stages, then one pending, running or broken, then pending, or partly closed; a run marked succeeded has eight passed stages on a healthy report |
| DeploymentProtocol.HandledIsClosed | apps/api/src/services/command-result.service.ts:134-162 | once a report's request has finished, the run has the closed form of its outcome |
| DeploymentProtocol.SucceededLeavesExactly | apps/worker/src/processors/healthcheck.ts:32-35 | in every reachable state a run marked succeeded stays so under every step but the worker's own catch |
| DeploymentRaces.OnlyHealthyReportsRun | apps/api/src/services/command-result.service.ts:72-83 | from any status, terminal ones included, a step makes a deployment run if and only if it finalizes a healthy report |
| DeploymentRaces.RunningLeavesExactly | apps/api/src/services/command-result.service.ts:52-105 | in every state a step takes a running deployment down if and only if it is one of six: the safety net's stale write, a worker's write, a running report, or another's finalizing for the same app |
| DeploymentRaces.RunningLeavesInRuns | apps/worker/src/processors/healthcheck.ts:12-36 | in every reachable state four of them remain |
| DeploymentRaces.WhatItBecomesInRuns | apps/api/src/services/command-result.service.ts:72-105 | in every reachable state: taken down by another's report it is superseded and the app runs the other, by a late report it is deploying, by net or catch it is failed |
| DeploymentRaces.HealthyReportTakesOver | apps/api/src/services/command-result.service.ts:72-105 | the finalizing step as rows: who runs, who is superseded, what fails, and that nothing else changes |
| DeploymentRaces.StatusMoves | apps/worker/src/processors/deploy.ts:26-181 | in every state and for every step: which step can have written a deployment's new status, and superseded only what ran |
| DeploymentRaces.LeftAloneExactly | apps/worker/src/processors/healthcheck.ts:12-36 | from any state with a running deployment and app: however things go on while the deployment stays finished, the net's writes change no table if and only if none of them is pending |
| DeploymentRaces.SafetyNetIsNoOpExactly | apps/worker/src/processors/healthcheck.ts:9-36 | so over every run that ends with a healthy report: if and only if the net has not read it unfinished, or has no write left, or only the last one and the run is not marked running |
| DeploymentRaces.SafetyNetKeepsRunningExactly | apps/worker/src/processors/healthcheck.ts:9-30 | for the deployment's status alone: if and only if it has not read it unfinished with all its writes to come |
| DeploymentRaces.HalfDoneNetFailsTheApp | apps/worker/src/processors/healthcheck.ts:27-31 | a run in which the net's second write fails the app of a deployment that goes on running |
| DeploymentRaces.LaterWriteWins | apps/worker/src/processors/healthcheck.ts:14-31 | of safety net and healthy report the later write decides, in both orders |
| DeploymentRaces.RaceIsReachable | apps/worker/src/processors/deploy.ts:99-122 | a run of the whole pipeline that ends in that race |
| DeploymentProtocol.HandlerAlone | apps/api/src/services/command-result.service.ts:52-162 | the protocol's steps of one request, undisturbed, do what the handler does |
| CommandDelivery.CommandTable.CreateCommand | apps/api/src/services/command.service.ts:24-71 | inserts the row queued and unsigned, then signs it |
| CommandDelivery.CommandTable.ClaimCommands | apps/api/src/routes/agent.ts:229-252 | answers with the rows as read and accepts exactly those, changing no other row |
| CommandDelivery.PollAndExecute | apps/agent/src/daemon.rs:120-164 | the places of the answer that verify and decode run, in order; all others are rejected, in order, each under its own text `id` or `<unknown>` |
| CommandDelivery.RejectedUnderRowIds | apps/agent/src/daemon.rs:129-153 | for all rows and signatures the poll can have read: the rejections are the row ids of those that do not run, in order |
| CommandDelivery.ReportedUnderItsId | apps/agent/src/daemon.rs:133-139 | the id of a rejection is the first field `id` if that is a text, the stand-in for an envelope that is no object or has none |
| CommandDelivery.HandedOutOnce | apps/api/src/routes/agent.ts:229-252 | over every run: created is queued or handed out or in flight, never two of them, each handed out once, executed or rejected at most once and only after |
| CommandDelivery.HandedOutInOrder | apps/api/src/routes/agent.ts:233-237 | commands created in issue order are handed out in issue order, over the whole run |
| OverlappingPolls.SharingNeedsOverlap | apps/api/src/routes/agent.ts:229-252 | over every interleaving of any number of polls two answers share a command only if both reads come before both updates |
| OverlappingPolls.PollsShareExactly | apps/api/src/routes/agent.ts:233-243 | with commands inserted in strictly increasing issue time: over every interleaving of any number of polls two answers share a command if and only if something of the earlier batch was still queued when the later poll read |
| OverlappingPolls.ShortAnswerSharesExactly | apps/api/src/routes/agent.ts:233-237 | the same in any order and with ties, for a later answer of fewer than ten commands |
| OverlappingPolls.TwoPollsShareExactly | apps/api/src/routes/agent.ts:229-252 | with commands inserted in strictly increasing issue time and no third poll in between: if and only if they overlap and the earlier one found any |
| OverlappingPolls.HandedOutTwiceExactly | apps/api/src/routes/agent.ts:244-251 | a command is handed out twice if and only if two finished answers share one |
| OverlappingPolls.OverlapHandsOutTwice | apps/agent/src/api.rs:141-198 | a run of two polls that hands one queued command out twice |
| CommandDelivery.RawCarries | apps/api/src/routes/agent.ts:244-251 | the envelope sent carries the command's five signed fields |
| CommandDelivery.Lookups | apps/api/src/routes/agent.ts:244-251 | every field of the envelope, the signature included, is found under its key |
| CommandDelivery.ExecutedExactly | apps/agent/src/daemon.rs:129-162 | of what the agent looks at it executes exactly what was read after signing, is written alike by both languages and decodes |
| CommandDelivery.EndedLeavesExactly | apps/agent/src/executor.rs:51-109 | over every run a row that shows how its command ended changes if and only if a report sent again lands late with another status |
| CommandRaces.EndedCanBeRewritten | apps/agent/src/api.rs:111-117 | a run in which a late copy of the first report puts a succeeded command back to accepted |
| Redactor.MaskedIsSorted | packages/security/src/redaction.ts:18-20 | the masked values are the secrets of four or more characters, longest first |
| Redactor.PassIsClean | packages/security/src/redaction.ts:24 | a pass leaves none of its own value and brings no safe secret back |
| Redactor.NothingIsLeft | packages/security/src/redaction.ts:22-26 | after all passes no safe masked secret occurs anywhere, on every line |
| Redactor.LongestIsMaskedWhole | packages/security/src/redaction.ts:20 | a line that is the longest secret is masked as a whole, whatever secrets are part of it |
| Redactor.MaskedOnEveryLineExactly | packages/security/src/redaction.ts:24 | a secret is masked on every line if and only if it does not overlap the placeholder |
| Redactor.MaskedInEverySetExactly | packages/security/src/redaction.ts:17-27 | so it is beside any other secrets, in every set that holds it |
| Redactor.AsteriskSecretSurvives | packages/security/src/redaction.ts:17-27 | a line from which the accepted secret `*abc` is not masked |
| Redactor.NoAsteriskIsSafe | packages/security/src/redaction.ts:18 | secrets without an asterisk that are no part of REDACTED are safe |
| Redactor.UntouchedExactly | packages/security/src/redaction.ts:24 | a pass leaves a line alone if and only if the value does not occur, or is the placeholder |
| Redactor.RedactValues | packages/security/src/redaction.ts:17-27 | the value loop: complete for safe secrets, and no change where none occurs |
| RealtimeHub.SubscribeKeepsSets | apps/api/src/realtime/hub.ts:44-50 | subscribing adds the listener to its channel alone, and sets stay unshared and non-empty |
| RealtimeHub.UnsubscribeKeepsSets | apps/api/src/realtime/hub.ts:51-54 | on the live set, unsubscribing removes one listener of one channel, and an emptied channel |
| RealtimeHub.DispatchReachesTheActive | apps/api/src/realtime/hub.ts:44-67 | over every run with fresh listeners and closures called once, dispatch reaches exactly the active listeners, once each, oldest first |
| RealtimeHub.SecondCallHarmlessExactly | apps/api/src/realtime/hub.ts:51-54 | a second call harms nobody if and only if the channel has no live set, or the captured one without that listener |
| RealtimeHub.SecondCallSilences | apps/api/src/realtime/hub.ts:44-55 | a run in which a second call leaves an active listener unreached |
| RealtimeHub.EventHub.AddListener | apps/api/src/realtime/hub.ts:44-55 | the heap after subscribing, and the closure with the set it captured |
| RealtimeHub.EventHub.Call | apps/api/src/realtime/hub.ts:51-54 | the heap after calling the closure, live or stale |
| RealtimeHub.EventHub.DispatchLocal | apps/api/src/realtime/hub.ts:57-67 | calls the members of the channel's set in order |
| Firewall.RenderFirewallRule | apps/agent/src/resources.rs:1327-1354 | renders the address, protocol and port matches and the verdict |
| Firewall.RenderNftables | apps/agent/src/resources.rs:1366-1409 | renders the ruleset's lines |
| FirewallText.RuleIsReadExactly | apps/agent/src/resources.rs:1327-1360 | whatever nft takes for addresses and ports: a rule's line is read as that rule's matches and verdict if and only if nft takes its address and its port |
| FirewallText.AppliedOrRefused | apps/agent/src/resources.rs:1366-1409 | a text without stray line breaks replaces the agent's table by every rule as nft reads it, or changes nothing if one rule is not read |
| FirewallMeaning.AppliedAsMeantExactly | apps/agent/src/resources.rs:1366-1409 | for every spec, and whatever nft takes for addresses and ports: from any kernel state the text replaces the agent's table by the one meant, and no other, if and only if nft takes every rule's address and port |
| FirewallMeaning.UnreadIsRefused | apps/agent/src/resources.rs:1366-1409 | in either direction, one rule nft cannot read in a text without stray line breaks, and the node keeps the ruleset it had |
| FirewallMeaning.BlankPortIsUnread | apps/agent/src/resources.rs:1338-1345 | a port of one blank gives such a rule, whatever nft takes for a port |
| FirewallMeaning.CompilerKeepsMeaning | apps/worker/src/processors/firewall.ts:28-51 | from rows whose addresses and ports nft takes to packets: the row of least position that matches decides, else the default; established and loopback pass |
| FirewallMeaning.FlushOpens | apps/worker/src/processors/firewall.ts:55-57 | after a flush every packet passes |
| FirewallMeaning.StorageOrderIrrelevant | apps/worker/src/processors/firewall.ts:32-33 | with distinct positions the order of rows in storage does not matter |
| Nftables.WordsOfTwo | apps/agent/src/resources.rs:1353 | joining pieces by blanks joins their words |
| Builder.Neighbors | apps/web/src/lib/builder.ts:157-164 | the nodes joined to one by an edge in either direction, in node order |
| BuilderGraph.CountOfNew | apps/web/src/lib/builder.ts:100-104 | ids made at different times differ, whatever prefix and time stamp |
| BuilderGraph.DomainAdds | apps/web/src/lib/builder.ts:326-337 | a domain node adds one hostname to its app and nothing to any other |
| BuilderGraph.BalancerAdds | apps/web/src/lib/builder.ts:396-417 | a balancer is joined to exactly its targeted apps, and disturbs no other node's neighbours |
| BuilderLaws.BuilderRoundTrip | apps/web/src/lib/builder.ts:167-420 | every blueprint comes back as its normal form, with duplicate names, unknown targets and missing fields |
| BuilderLaws.TargetsKept | apps/web/src/lib/builder.ts:223-232 | a balancer keeps its targets as a set, but for empty ones |
| BuilderLaws.TargetsUnchangedExactly | apps/web/src/lib/builder.ts:223-232 | targets come back unchanged if and only if apps stand first, by last place and once, and none is empty |
| BuilderLaws.SurvivesExactly | apps/web/src/lib/builder.ts:167-420 | a blueprint comes back unchanged if and only if it is written out |
| BuilderLaws.SecondTimeUnchanged | apps/web/src/lib/builder.ts:167-420 | drawing and reading back a second time changes nothing, for every blueprint |
| BuilderLaws.PositionsDiffer | apps/web/src/lib/builder.ts:303-308 | no two laid-out nodes share a position |
| BuilderLaws.EveryNodeStands | apps/web/src/lib/builder.ts:286-308 | every node stands in its kind's column, one row below those made before it there, and its id names its kind |
| BuilderEdges.EdgesPointAtApps | apps/web/src/lib/builder.ts:335-412 | every edge drawn leaves a domain or a balancer and arrives at an app |
| BlueprintYaml.TrimFields | apps/web/src/lib/builder.ts:253-259 | the loop keeps, in order, the fields that are not undefined |
| BlueprintYaml.BlueprintForYaml | apps/web/src/lib/builder.ts:261-279 | the loop keeps the heading and the lists that are not empty |
| BlueprintYaml.BlueprintIsRead | apps/web/src/lib/builder.ts:167-279 | looked up key by key the document gives back every blueprint, all seven lists and every firewall rule, but for empty lists and an empty region |
| BlueprintYaml.ThingsInOrder | apps/web/src/lib/builder.ts:174-233 | the keys of each kind of thing stand in their order |
| BlueprintYaml.DocumentInOrder | apps/web/src/lib/builder.ts:262-277 | so do the heading and the lists |
| BlueprintYaml.StateToYaml | apps/web/src/lib/builder.ts:281-283 | prints the YAML of an object in which every field of the canvas' blueprint is found under its key |
| BlueprintYaml.BlueprintBackExactly | apps/web/src/lib/builder.ts:261-283 | a blueprint written as YAML reads back as itself if and only if it lists nothing and its heading is on single lines |
| BlueprintYaml.CanvasBackExactly | apps/web/src/lib/builder.ts:281-283 | for every canvas: what the builder writes reads back if and only if nothing but domains is on it and its project and region are single lines |
| BuilderLaws.Editor.BlueprintToState | apps/web/src/lib/builder.ts:298-420 | the layout loops compute that graph, and reading it back gives the normal form |
| Autoscaler.SettlesInOneStep | apps/worker/src/processors/autoscale.ts:24-40 | from any replica count one step reaches a count that the next step keeps |
| Autoscaler.SettledIsInBand | apps/worker/src/processors/autoscale.ts:24-40 | there the metric is under 1.1 times target unless at the maximum; and over 0.9 times, or over target with one replica fewer, unless at the minimum |
| Autoscaler.SettledExactly | apps/worker/src/processors/autoscale.ts:24-40 | the settled counts are exactly those in the deadband within the limits, and the demand rounded up |
| Autoscaler.ScalingPolicy.ProcessAutoscale | apps/worker/src/processors/autoscale.ts:43-99 | the job's request and the policy row it leaves |
| Autoscaler.RequestedExactly | apps/worker/src/processors/autoscale.ts:34-75 | a request for `n` goes out if and only if the policy is enabled and has cooled down, there are samples, and `n` is the clamped least count whose share of the load meets the target, and not the current one |
| Autoscaler.OnlyTheMeanAverages | apps/worker/src/processors/autoscale.ts:65 | what is observed is the only function of samples that takes one as it is and weighs batches by their sizes |
| Autoscaler.ReasonsExactly | apps/worker/src/processors/autoscale.ts:32-40 | which reason is given for which observation, and which way the count goes |
| Autoscaler.RequestsAreSpaced | apps/worker/src/processors/autoscale.ts:51-92 | over every run, with nodes reporting other counts in between, requests change the count last written, stay within the limits and keep the cooldown apart |
| ScaleApp.Docker.ScaleContainers | apps/agent/src/resources.rs:1100-1168 | the removal and creation loops, and the error when no image is known |
| ScaleApp.NamesDiffer | apps/agent/src/resources.rs:1119-1121 | replicas of different numbers have different names |
| ScaleApp.ScaledExactly | apps/agent/src/resources.rs:1100-1179 | the app's prefixed containers are exactly name-0 to name-(n-1), n of them |
| ScaleApp.ReplicasAreCopies | apps/agent/src/resources.rs:1103-1168 | a replica that was there is kept; a new one has the app's label, the first image and the first network of the listed containers |
| ScaleApp.GivesUpExactly | apps/agent/src/resources.rs:1130-1138 | it fails if and only if replicas are wanted and no listed container has an image |
| ScaleApp.OthersUntouched | apps/agent/src/resources.rs:1124-1168 | every other container stays as it was, but one that has a missing replica's name |
| ScaleApp.SecondCallUnchanged | apps/agent/src/resources.rs:1100-1179 | a second call changes nothing, however the first ended |

## Left out

- RoundTripExactly: maps whose keys JavaScript would enumerate in another order than they were written.
- ReadYaml: rounding of digits that a double cannot hold and the re-spelling of a number such as `1.50`; the stack depth of the recursion, and with it the error result of `fromYaml`.
- StringifyReads: white space between tokens, which `JSON.stringify` does not write; the reader takes none.
- CanonicalExactly: the top-level value `undefined`, for which `JSON.stringify` gives no text.
- LanguagesAgreeExactly: `serde_json` built with insertion-ordered maps; the model keeps its default, sorted ones.
- CivilCounts: overflow of 64-bit days.
- IsoSorts: years above 9999, whose texts are longer.
- StreamRoundTrip: decoding UTF-8, aborting, and callbacks that stop the stream.
- NothingIsLeft: the token-shaped heuristic patterns applied after the value loop.
- DispatchReachesTheActive: listeners that subscribe or unsubscribe while they are being called, and the Redis channel.
- HandedOutOnce: one poller; polls that overlap are in `OverlappingPolls`, with the commands' way through the agent left out there.
- PollsShareExactly: commands issued at the same instant or inserted out of issue order, but for short answers (`ShortAnswerSharesExactly`).
- TwoPollsShareExactly: the same; without any order, an overlap is still needed (`SharingNeedsOverlap`).
- ParsedAgreesExactly: which spelling serde_json gives a float; it is a parameter.
- RunningIsCurrent: two deploy jobs for one deployment, and commands other than deploy and rollback.
- CompilerKeepsMeaning: rows whose address or port nft does not take, for which the text does not install what is meant (`AppliedAsMeantExactly`), and the rest of nft's language.
- UnreadIsRefused: an address or port with `;`, `#` or a backslash, at which nft ends a statement, a line or a rule; the reader keeps them inside words.
- AppliedOrRefused: the same characters.
- BuilderRoundTrip: the blueprint fields that the builder does not know, moving nodes and editing them.
- SettlesInOneStep: rounding of floating point, and zero replicas, for which a shared load has no metric.
- ScaledExactly: failures of the Docker engine, environment, limits and labels of the containers other than the app's.
- Liveness: a command whose poll answer is lost stays accepted and is never run, so nothing is promised.
- HTTP, the database client, queues, Caddy, encryption, password hashing, tokens, roles and billing.
- The load-balancer, storage, runner and function processors: membership tests and status writes.
