# Verification of the batch readers, their positions and receipts

A Dafny model of the parts of this ETL tool whose mistakes lose or repeat data:
the connectors that read in bounded batches and save where they got to, the
receipts that hold messages until a run ends, the worker pool that asks a model
about rows, the desktop assistant's shared state, the canvas's edits, and a few
encoders and parsers that must be exact.

Each run of a connector is a method over a service (`Api`, `Broker`, `Server`,
`Service`, `Cluster`, `Topic`, `Database`): a class whose methods answer anything
their contract allows, fail at will, and let others act in between. It notes
what failed, so that a run can be shown to fail for no other reason. What the
connector promises is then proved over every history of such runs, failed and
successful: the `Life` of a node. Concurrent parts (`AskPool`, `Assistant`, the
keeper in `PubsubReceipt`) are steps of threads, and what is proved holds over
every interleaving.

- `Common`: optional values, results, and facts about sequences, digits and text.
- `KinesisStream`, `KinesisSource`, `KinesisOrder`, `KinesisHistory`, `KinesisPromises`,
  `KinesisExamples`, `KinesisSink`: shards and resharding; one run; the order of parents
  and children; every history; what it promises; short lives; and putting records.
- `KafkaSource`, `NatsSource`: offsets and sequences tiled by runs.
- `KafkaSink`, `KafkaHash`: rows spread over partitions, and the hash that places keys.
- `PubsubCalls`, `PubsubReceipt`: filling calls; holding, extending and settling.
- `AskPool`, `PromptTemplate`: `ask_rows` and the template of `xf.ai.prompt`.
- `Assistant`: the busy and cancelled flags and the server slot.
- `IncrementalRead`: `col > last ORDER BY col` with a cap.
- `Canvas`: connecting, removing, moving, renaming, and new ids.
- `AwsCanonical`, `Base64`, `Timestamps`: canonical forms, base64, decimal timestamps.
- `ComponentPick`: which components a request is offered.

## Where the code falls short of its intent

These are proved, with the exact condition where there is one.

- Kinesis, `latest`: a shard that the first run reads from is read from the moment
  it was opened, a child after its parents; what arrived before that, though after the
  run began, is lost (`KinesisPromises.LatestLosesIff`, `KinesisExamples.LatestLoses`).
- Kinesis, `on_expired: continue`: an empty answer to the probe for the last record
  reads as if it were gone, and held records are written again
  (`KinesisPromises.FallsBackIff`, `KinesisPromises.RewritesIff`,
  `KinesisExamples.EmptyAnswerRewrites`). After such a run a later one that does not
  fall back can repeat records, too (`KinesisExamples.LaterRunRewrites`);
  `KinesisPromises.AscendingIff` and `KinesisPromises.DistinctIff` say when a whole life
  is free of it. A node told to stop fails by the same answer, though its record is held
  (`KinesisSource.OpenIterator`, `KinesisPromises.RunNode`).
- NATS: a run fails to start, saying messages were discarded, also when none that the
  filter matches was (`NatsSource.NeverPastEnd`, `NatsSource.NothingLost`).
- Assistant: a cancel between the swap of `busy` and the reset is lost
  (`Assistant.LostBeforeReset`); a server that did not load in time is used again
  unloaded (`Assistant.ReusedUnloaded`), and only such a one is
  (`Assistant.UnloadedWasGivenUp`).
- Pub/Sub: a failed call ends settling, so later messages are not given back
  (`PubsubReceipt.AllTried`, `PubsubReceipt.SureToBeTried`); a pull in which one message has no `ackId` holds none
  of its messages (`PubsubReceipt.HeldIffAllThere`, `PubsubReceipt.OneLacks`).
- Incremental reads: rows that share the last value read are skipped past the cap
  (`IncrementalRead.RestComesNext`, `IncrementalRead.SkippedForGood`, `IncrementalRead.TieSkipped`); ClickHouse's
  first statement lets nulls through, and then starts over
  (`IncrementalRead.NullsStartOver`).
- BigQuery timestamps: an exponent near the largest there is comes out as zero in a build without overflow checks
  (`Timestamps.ExactUnlessOverflow`).
- Component pick: making room for sinks can take the only sources
  (`ComponentPick.Pick`, `ComponentPick.TransformsCrowdOut`).

`ask_rows` is written so that one refused client among built ones would lose rows
(`AskPool.CompleteIffAlike`, `AskPool.Overwritten`), but its workers build their clients
of the same settings, so that this does not happen (`AskPool.AskAll`).

## Model

| member | source | states |
|---|---|---|
| KinesisSource.Choose | crates/connectors/src/kinesis.rs:230-243 | a shard is chosen if and only if it is listed, not done, and each of its parents is done or no longer listed |
| KinesisSource.StillHeld | crates/connectors/src/kinesis.rs:650-691 | yes only when the shard holds the record with that sequence number; no only when it does not, or when an answer of that shard had no record at all, which is told apart |
| KinesisSource.OpenIterator | crates/connectors/src/kinesis.rs:556-646 | what was opened begins where the saved position, or `start` on a first run, says; an expired position is an error only if the node is told to stop, and the record last read is gone or was looked for with a blank answer; each shard is asked for an iterator at most once |
| KinesisSource.Resume | crates/connectors/src/kinesis.rs:593-624 | after a last record the iterator is right behind it, or the oldest record held when it is gone, or looks so by a blank answer, and the node carries on |
| KinesisSource.WriteRecords | crates/connectors/src/kinesis.rs:475-480 | records are written in order, each moving the shard's position to it; it fails only at the first row that cannot be written, with all before it written |
| KinesisSource.TakeAnswer | crates/connectors/src/kinesis.rs:474-494 | after an answer the position says exactly what was written, a shard is done only when closed and read to its end, and a next turn means something was written or the answer stalled |
| KinesisSource.ReadShard | crates/connectors/src/kinesis.rs:469-494 | one GetRecords: never more than `max_records` in all, and every further turn is progress |
| KinesisSource.TakeTurn | crates/connectors/src/kinesis.rs:452-495 | a shard without an iterator is done and nothing is written for it; another gets one GetRecords; every other shard's opening and position is untouched |
| KinesisSource.ReadTurns | crates/connectors/src/kinesis.rs:450-500 | turns end; the cap is the only reason to stop with shards still to read |
| KinesisSource.Settle | crates/connectors/src/kinesis.rs:511-526 | a shard opened and not read from is saved as `Since` or `Start` by how it was opened, and nothing else changes |
| KinesisSource.ReadRound | crates/connectors/src/kinesis.rs:423-504 | a round opens only shards never opened in this run whose listed parents are finished, or ends |
| KinesisSource.OpenTurn | crates/connectors/src/kinesis.rs:425-443 | every readable shard is open afterwards, and only those are opened, each once in a run |
| KinesisSource.NothingLeft | crates/connectors/src/kinesis.rs:444-446 | when nothing new is readable and nothing waits, every shard that may be read was read up to where it was when listed |
| KinesisSource.ReadBatch | crates/connectors/src/kinesis.rs:384-552 | in every outcome: at most `max_records` rows; per shard the rows are its records from where its position says to where its new position says; no row before its listed parents are finished; the run ends; one that fails on an expired position wrote nothing, if the saved shards' parents are done as runs leave them; and on success its summary is exactly that, and unless the cap stopped it every shard it may read was read at least up to where it was when listed; it fails only on such a position, a refused call or a row that cannot be written |
| KinesisSource.OthersKeep | crates/connectors/src/kinesis.rs:384-552 | others putting, splitting and merging meanwhile break none of this |
| KinesisOrder.RunOrders | crates/connectors/src/kinesis.rs:419-504 | the rows of a successful run go on from those before so that every shard's rows come after all rows of its parents, which are finished by then, and before any of its children's |
| KinesisHistory.StepKeeps | crates/connectors/src/kinesis.rs:384-552 | every put, reshard, expiry, delisting, failed run and successful run keeps the invariant of the whole history, also of a node that goes on when its position expired |
| KinesisHistory.LifeHolds | crates/connectors/src/kinesis.rs:384-552 | so it holds in every history a node can have |
| KinesisHistory.ResumeTiles | crates/connectors/src/kinesis.rs:593-609 | a run that goes on behind the last record goes on exactly where the shard's rows end |
| KinesisPromises.RunNode | crates/connectors/src/kinesis.rs:384-552 | each run of a node, whatever `on_expired` says, is a step of its history: it adds the run's rows and position, or neither; a run of a node's life that fails on an expired position read nothing, and the record last read is gone or the probe's answer was blank |
| KinesisPromises.RunsSaveParentsDone | crates/connectors/src/kinesis.rs:384-526 | what runs save is such that they are resumed in the first round: a shard with a last record has its parents finished |
| KinesisPromises.RowsAreStretches | crates/connectors/src/kinesis.rs:384-552 | over any life the successful runs' rows of a shard are stretches of its records, the last one ending at its saved position; before the first lies only what expired or a `latest` first run skipped of that very shard, before another only what expired |
| KinesisPromises.RowsTile | crates/connectors/src/kinesis.rs:506-526 | a node that stops at an expired position has one stretch at most: no gap, no duplicate |
| KinesisPromises.FallsBackIff | crates/connectors/src/kinesis.rs:593-691 | a run starts at or before its saved position if and only if the probe's answer was empty though the record was held, and it then read something; only with `on_expired: continue` |
| KinesisPromises.RewritesIff | crates/connectors/src/kinesis.rs:610-691 | a run writes a record of a shard again: from `earliest`, if and only if its first row is no later than some earlier row; while the shard's rows are in order, if and only if it falls back (and, after `latest`, gets as far as the shard's first row) |
| KinesisPromises.AscendingIff | crates/connectors/src/kinesis.rs:384-552 | over any life a shard's rows are in put order, none twice, if and only if no run fell back on it |
| KinesisPromises.DistinctIff | crates/connectors/src/kinesis.rs:384-552 | from `earliest` no record is written twice over a life if and only if no run fell back |
| KinesisPromises.StopNeverFallsBack | crates/connectors/src/kinesis.rs:610-624 | a node that stops at an expired position never falls back |
| KinesisPromises.NoneMissed | crates/connectors/src/kinesis.rs:384-552 | however often runs fall back, every record still held before the saved position was written, save those a `latest` first run skipped of that shard |
| KinesisPromises.EarliestReadsAll | crates/connectors/src/kinesis.rs:625-644 | from `earliest`, with nothing expired and no run falling back, the rows are every record of the shard up to its saved position, and all it ever held once done; for shards the cap left unread, too |
| KinesisPromises.ParentsComeFirst | crates/connectors/src/kinesis.rs:230-243 | no record of a shard is written while a parent has an unwritten one: each parent's rows all come before, and it is done or no longer listed |
| KinesisPromises.KeysStayInOrder | crates/connectors/src/kinesis.rs:419-504 | each partition key's records come out in put order across any splits and merges, except two of one shard on which a run fell back |
| KinesisPromises.StopKeepsKeyOrder | crates/connectors/src/kinesis.rs:419-504 | and always, for a node that stops at an expired position |
| KinesisPromises.SkippedWasOpened | crates/connectors/src/kinesis.rs:625-644 | nothing is skipped of a shard that no `latest` first run opened, so not of a child that a later run reads |
| KinesisPromises.LatestLosesIff | crates/connectors/src/kinesis.rs:511-644 | a `latest` first run loses no record that arrived since it started, each being written or ahead of the saved position, if and only if it is to start the shard over or no such record arrived before it opened the shard |
| KinesisPromises.LatestStartsOver | crates/connectors/src/kinesis.rs:511-526 | it starts a shard over, from when the run started, if and only if it read nothing of it and did not finish it |
| KinesisPromises.MixedIsLife | crates/duckdb-engine/src/remember.rs:62-68 | a position outlives an edit of its node: a life with a cap and an `on_expired` of its own for each run is a life of a node that goes on, so all that is proved of those holds of it |
| KinesisExamples.LaterRunRewrites | crates/connectors/src/kinesis.rs:593-691 | a life in which, after a run fell back, a later one that does not writes a record again |
| KinesisExamples.LatestLoses | crates/connectors/src/kinesis.rs:625-644 | a life in which a `latest` first run loses a record that arrived after it started |
| KinesisExamples.EmptyAnswerRewrites | crates/connectors/src/kinesis.rs:610-691 | a life in which an empty answer to the probe makes a run write its one record twice |
| KinesisSink.Sort | crates/connectors/src/kinesis.rs:1031-1053 | acknowledged records are counted, and those refused with one of the three passing codes kept in order; the write ends if and only if a record was refused with another |
| KinesisSink.AttemptKeeps | crates/connectors/src/kinesis.rs:1031-1074 | after an answer, acknowledged and pending together are still exactly the batch, in order, and nothing pending was acknowledged |
| KinesisSink.Attempt | crates/connectors/src/kinesis.rs:1005-1053 | one call, never empty, within 500 records and 5 MiB, with no record already acknowledged; a failure's count never exceeds what landed |
| KinesisSink.PutBatch | crates/connectors/src/kinesis.rs:994-1075 | success means every record of the batch was acknowledged exactly once; the first call sends the batch, and each further one exactly what the one before it left; it gives up on what is left only after retries + 1 answered calls, and on a record for good only when its code is not a passing one; a failure's count never exceeds what landed |
| KinesisSink.MakeEntry | crates/connectors/src/kinesis.rs:854-899 | a row is a record if and only if it has a key of 1 to 256 characters and its data and key are at most 1 MiB in UTF-8 |
| KinesisSink.KeyedBy | crates/connectors/src/kinesis.rs:859-887 | without a key column no two rows share a key; with one a row's text is its key, and a row whose column is missing, null or empty is no record |
| KinesisSink.BytesAdd | crates/connectors/src/kinesis.rs:882-884 | all data and all keys of a batch count, in UTF-8 |
| KinesisSink.FewestBytes | crates/connectors/src/kinesis.rs:882-884 | a character counts as the fewest bytes UTF-8 has the bits for |
| KinesisSink.AddRecord | crates/connectors/src/kinesis.rs:942-955 | a batch goes out before a record that would make it too many or too large |
| KinesisSink.WriteRecords | crates/connectors/src/kinesis.rs:921-981 | success means every row was acknowledged exactly once, in batches within the settings and 5 MiB, each too small for the next one's first record; the calls are each batch's in turn, and each failure has its ground: a row that is no record, input that breaks off, a call unanswered or answered short, or what its last call says |
| KinesisSink.TakeRows | crates/connectors/src/kinesis.rs:921-957 | row after row, what is made of the rows is the batches put and the batch to come |
| KafkaSource.PlanSpans | crates/connectors/src/kafka.rs:301-367 | every partition starts as planned; it is an error if and only if a partition's own offset lies outside what it holds, and it names one that does, and how: one saved for another topic is not its own |
| KafkaSource.OrderedIncreases | crates/connectors/src/kafka.rs:574-578 | the sorted records increase strictly and are exactly those in the span |
| KafkaSource.FetchCovers | crates/connectors/src/kafka.rs:580-599 | writing the first records of a fetch covers every offset up to the last of them: written once, or unreadable; and what is written was recorded there |
| KafkaSource.NothingCovers | crates/connectors/src/kafka.rs:601-612 | stepping to the end when a fetch has nothing for the span skips nothing readable |
| KafkaSource.WriteRecords | crates/connectors/src/kafka.rs:580-599 | records are written in order until the budget is spent |
| KafkaSource.ReadSpan | crates/connectors/src/kafka.rs:559-616 | one fetch moves the partition on by something, stays within its span, and covers what it passes; whether or not it fails, each row is of a record the partition had there |
| KafkaSource.TakeTurn | crates/connectors/src/kafka.rs:555-617 | one partition moves on and no other; the budget or what is left of that span shrinks |
| KafkaSource.TakeTurns | crates/connectors/src/kafka.rs:553-619 | exactly the partitions with something left have another turn; with work left, budget was spent |
| KafkaSource.ReadTurns | crates/connectors/src/kafka.rs:545-620 | the turns end, and stop early only at `max_records`: rows plus budget is always `max_records` |
| KafkaSource.ReadBatch | crates/connectors/src/kafka.rs:494-647 | at most `max_records` rows; bounds are asked for partition by partition while the topic moves; on success every span is covered from its planned start to the saved offset; a gap in any partition is an error with nothing written; every row, of a failed run too, is of a record its partition had; any other failure is a call's or a row's |
| KafkaSource.RunsTile | crates/connectors/src/kafka.rs:301-647 | over any life the successful runs tile each partition: from its first offset to the saved one every offset is written once, in order, or unreadable, and every row is of a record that was there; whatever cap or start each run has |
| KafkaSource.FirstFrom | crates/connectors/src/kafka.rs:344-356 | a partition without an offset of its own starts at the oldest held, or at the end, by the setting, as of some moment of its first run's listing |
| KafkaSource.GoesOn | crates/connectors/src/kafka.rs:301-343 | a partition with an offset of its own goes on exactly there |
| KafkaSource.NeverPastEnd | crates/connectors/src/kafka.rs:322-343 | a saved offset is never past the end of an intact topic; a run fails to start exactly when a saved offset is below the oldest held |
| KafkaSource.RunNode | crates/connectors/src/kafka.rs:494-647 | each run is such a step, and one that would have to skip lost records fails |
| KafkaSink.Assign | crates/connectors/src/kafka.rs:1150-1191 | every partition's records are exactly the batch's rows placed there, in order; an error exactly when a row lacks the key column |
| KafkaSink.SendShares | crates/connectors/src/kafka.rs:1112-1120 | on success every partition has its share after what it had; on failure each has its share or nothing |
| KafkaSink.SendBatch | crates/connectors/src/kafka.rs:1106-1120 | a batch's keyless rows go to the partition whose turn it is, keyed rows to their own |
| KafkaSink.WriteBatches | crates/connectors/src/kafka.rs:1051-1132 | on success each partition holds exactly the rows of the whole input targeted at it, in order; on failure the batches counted are there in full and the failing one by partition whole or not at all; it fails only on a failed request, a row without the key column, or input that breaks off after the last full batch |
| KafkaSink.EveryRowLands | crates/connectors/src/kafka.rs:1093-1124 | the partitions together are sent a permutation of the input |
| KafkaSink.JavaKeyStays | crates/connectors/src/kafka.rs:1204-1208 | and that partition is the one a Java producer picks |
| KafkaSink.KeyStaysInOrder | crates/connectors/src/kafka.rs:1150-1208 | all rows with one key go to one partition, in input order, whatever the batches |
| KafkaHash.Murmur2 | crates/connectors/src/kafka.rs:1204-1240 | the loop over four bytes at a time computes the hash `KafkaHash.Hash` defines |
| KafkaHash.MaskedPartition | crates/connectors/src/kafka.rs:1204-1208 | the partition is the remainder of the hash's low 31 bits, so one of the topic's |
| KafkaHash.Kafka21 | crates/connectors/src/kafka/tests.rs:629-644 | Kafka's own value for `21` |
| KafkaHash.KafkaAbc | crates/connectors/src/kafka/tests.rs:629-644 | and for `abc` |
| KafkaHash.KafkaFoobar | crates/connectors/src/kafka/tests.rs:629-644 | and for `foobar` |
| NatsSource.ReadMessages | crates/connectors/src/nats.rs:637-692 | only matching messages are written, in order, until the cap, the recorded end or the last; the position steps past the end only when no match is left |
| NatsSource.ReadBatch | crates/connectors/src/nats.rs:586-693 | at most `max_records` rows; every row is of a matching message in the window, in order; on success each such message is written once; the next position is at most one past the recorded end, and there when the cap did not stop it; a sequence of its own below what is held, or past the end, is the error that says so, with nothing written, and any other failure is a call's or a row's |
| NatsSource.RunsTile | crates/connectors/src/nats.rs:461-693 | over any life every matching message from the first start to the saved sequence is written exactly once, in order, unless deleted before a run passed it, and nothing else is; whatever cap or start each run has |
| NatsSource.NeverPastEnd | crates/connectors/src/nats.rs:487-513 | an intact stream never trips the past-the-end check; a run fails to start whenever a matching message from the saved sequence on was discarded, and without one if and only if the saved sequence is below the oldest held and nothing that matches lies between |
| NatsSource.FirstFrom | crates/connectors/src/nats.rs:487-513 | a first run, and one whose position was saved for another stream or filter, starts with `latest` behind the recorded end and writes nothing older, else at the oldest held and misses nothing held then |
| NatsSource.NothingLost | crates/connectors/src/nats.rs:487-513 | and that does happen: a run that fails to start though nothing it would read was ever there |
| NatsSource.RunNode | crates/connectors/src/nats.rs:586-693 | each run is such a step, or leaves rows and position as they were |
| AskPool.StepKeeps | crates/connectors/src/ask.rs:177-201 | each step of any worker keeps: a row is taken once, asked about at most once, and its answer is in a worker's hands or its slot |
| AskPool.AskedOnce | crates/connectors/src/ask.rs:177-201 | in every state of every interleaving each row is asked about at most once, by no more workers at a time than there are |
| AskPool.NoneAfterStop | crates/connectors/src/ask.rs:188-201 | once the flag is set no more rows are asked about |
| AskPool.RunsEnd | crates/connectors/src/ask.rs:177-201 | every interleaving ends, within a bound known at the start, and none gets stuck before all workers are gone |
| AskPool.Collect | crates/connectors/src/ask.rs:204-222 | the error is the first by row; without one, each answer is written with its own row's key |
| AskPool.AskRows | crates/connectors/src/ask.rs:134-222 | when clients are built alike, success is every row answered, in order, with its own key; an error is the answer to the first row asked about that failed |
| AskPool.AskAll | crates/connectors/src/ask.rs:134-222 | the result of a run of the pool, to its end, whose workers, as many as asked for or as there are rows, all build of the same settings: success is every row answered, without condition; when no client can be built nothing is asked and the error is that one, for the first row |
| AskPool.AllAnswered | crates/connectors/src/ask.rs:188-212 | with all clients built, a slot is filled exactly if its row was asked about, and without an error every row was |
| AskPool.CompleteIffAlike | crates/connectors/src/ask.rs:177-222 | that success means every row was answered holds for all interleavings if and only if building a client comes out the same for every worker |
| AskPool.Overwritten | crates/connectors/src/ask.rs:180-201 | were one client built and one refused, a run could succeed with rows skipped, the refusal in slot 0 overwritten |
| PromptTemplate.Template | crates/connectors/src/ask.rs:379-429 | scanning gives the pieces or the first fault that `PromptTemplate.Parse` defines |
| PromptTemplate.TemplateInvertsPrint | crates/connectors/src/ask.rs:379-429 | every list of pieces in normal form comes back from the template it prints as |
| PromptTemplate.AcceptedIsNormal | crates/connectors/src/ask.rs:407-427 | every accepted template gives pieces in normal form: no empty or neighbouring text, names trimmed, not empty and without braces |
| PromptTemplate.DoubledIsLiteral | crates/connectors/src/ask.rs:385-392 | text with its braces doubled is sent as it stands, whatever the row |
| PromptTemplate.PlaceholderFilled | crates/connectors/src/ask.rs:379-449 | text, a placeholder and text again is sent as the one text, the value of the column named, or nothing if the row lacks it, and the other text |
| PromptTemplate.PlaceholdersFilled | crates/connectors/src/ask.rs:379-449 | and so for any number of placeholders between texts |
| Assistant.StepKeeps | apps/desktop/src/main.rs:380-478 | every step of every request, cancel and exit, and a server's own exit or loading, keeps the invariant |
| Assistant.OneRequestNoStrays | apps/desktop/src/main.rs:380-478 | at most one request is under way and `busy` says so; every running server is in the slot or with a thread about to put it there or stop it |
| Assistant.ActOwns | apps/desktop/src/main.rs:387-394 | only the request that set `busy` clears it, so a refused one never does |
| Assistant.FlagStays | apps/desktop/src/main.rs:449-465 | nothing clears the cancelled flag of a request past its reset |
| Assistant.CancelHolds | apps/desktop/src/main.rs:421-465 | a cancel whose flag is set after the request's reset ends it as cancelled, unless its answer comes back or its server could not be started |
| Assistant.CancelCuts | apps/desktop/src/main.rs:421-478 | once such a cancel has run its course the request can no longer end with an answer |
| Assistant.LostBeforeReset | apps/desktop/src/main.rs:387-395 | from any state between the swap and the reset, cancelled or not, the request can still end with an answer |
| Assistant.CancelLost | apps/desktop/src/main.rs:387-395 | and a cancel does get lost so, from the start |
| Assistant.ReusedUnloaded | apps/desktop/src/main.rs:421-446 | a server that did not load in time stays in the slot, and the next request drafts on it unloaded |
| Assistant.UnloadedReused | apps/desktop/src/main.rs:421-446 | and that does happen, from the start |
| Assistant.UnloadedWasGivenUp | apps/desktop/src/main.rs:421-446 | and only so: whatever a request drafts on, or is about to, has loaded, unless some request before gave up waiting for it while it ran and was not stopped |
| Assistant.IdleCancelDoesNothing | apps/desktop/src/main.rs:459-462 | a cancel that looks when no request is under way ends there, and changes nothing |
| Assistant.WhoCancels | apps/desktop/src/main.rs:459-465 | the flag is set only by a cancel that found a request under way |
| Assistant.WhoStops | apps/desktop/src/main.rs:421-478 | a server is told to stop only by an exit, by a cancel that found a request under way, or by a request that saw its flag set |
| Assistant.WhoKills | apps/desktop/src/main.rs:421-478 | and killed only so, unless it exits by itself |
| Assistant.NobodyCancels | apps/desktop/src/main.rs:380-478 | with requests only, and no cancel and no exit, no request ends as cancelled in any run |
| Assistant.WhyItEnds | apps/desktop/src/main.rs:387-456 | an answer comes only from a server that runs and has loaded; a request is refused only while another is under way, and not spawned only when no server could be used |
| Assistant.WaitsItsTurn | apps/desktop/src/main.rs:421-478 | a request and whoever would stop its server wait for the slot exactly while another request looks for its server |
| Assistant.NoticesStop | apps/desktop/src/main.rs:449-456 | a request that notices its server was stopped ends as cancelled, whatever the flag says |
| PubsubCalls.IdChunks | crates/connectors/src/pubsub.rs:288-303 | one pass cuts ids into the calls `PubsubCalls.Chunks` defines |
| PubsubCalls.ChunksCarryAll | crates/connectors/src/pubsub.rs:288-303 | the calls carry every id once, in order, each within 1000 ids and the byte limit or a single id, none empty, each as full as it can be |
| PubsubCalls.OneChunk | crates/connectors/src/pubsub.rs:306-325 | what fits one call is not cut again |
| PubsubCalls.IdCalls | crates/connectors/src/pubsub.rs:288-303 | an id call of more than one id has at most 1000 and 400,000 bytes |
| PubsubCalls.Publish | crates/connectors/src/pubsub.rs:851-899 | calls go out in order, each tried up to retries + 1 times, until one fails; what is reported is exactly the rows of the calls answered, each of which landed at least once; success is all rows, and each failure has its ground: the first message larger than 10 MB, a row that is no message, with all full calls sent, or a call that failed |
| PubsubCalls.ReportedWasTaken | crates/connectors/src/pubsub.rs:851-921 | the calls the topic has, repeats aside, are all that is reported, in order, and nothing more but the whole of the call that failed |
| PubsubReceipt.Receipt.KeeperStep | crates/connectors/src/pubsub.rs:617-634 | when its wait times out a round of the keeper extends every id held then, until a call fails; it ends only when its channel is closed |
| PubsubReceipt.Receipt.StopKeeper | crates/connectors/src/pubsub.rs:648 | the keeper finishes its round and is gone |
| PubsubReceipt.Receipt.ExtendAll | crates/connectors/src/pubsub.rs:503-508 | after it every id pulled has its deadline extended |
| PubsubReceipt.Receipt.PullOnce | crates/connectors/src/pubsub.rs:473-511 | every message of an answer is held before any of its rows is written; when one has no id none of the answer is held and the pull fails |
| PubsubReceipt.HeldIffAllThere | crates/connectors/src/pubsub.rs:490-502 | everything a run pulled is held if and only if every message of every answer had an id; if not, the last answer, the one with the lack, is not held at all |
| PubsubReceipt.OneLacks | crates/connectors/src/pubsub.rs:490-502 | as when one of two messages has an id: it is neither held nor given back |
| PubsubReceipt.Receipt.Receive | crates/connectors/src/pubsub.rs:464-512 | at most `max_records` are held; on success everything pulled is held and written; it stops at the cap only with exactly that many, as empty only after an empty answer, as out of time only when there is no time for another pull; and it fails only on a failed pull, call or row, or a message without an id |
| PubsubReceipt.Receipt.Settling | crates/connectors/src/pubsub.rs:646-691 | the keeper is gone before any settling call; calls go out chunk by chunk until one fails; nothing is left to settle again |
| PubsubReceipt.Receipt.Drop | crates/connectors/src/pubsub.rs:703-709 | a settled receipt does nothing more; another gives everything back |
| PubsubReceipt.Run | crates/connectors/src/pubsub.rs:453-530 | a whole run: messages are held, all but an answer in which one has no id; extended, then written; settled once; acknowledged only if the run succeeded, and then everything pulled is held and written; its reason for stopping is that of receiving |
| PubsubReceipt.AcknowledgedOnce | crates/connectors/src/pubsub.rs:646-691 | messages are acknowledged at most once each, in order, only in a run that succeeded, and all of them if settling says so |
| PubsubReceipt.AllTried | crates/connectors/src/pubsub.rs:660-680 | giving back is tried for everything held if and only if no call before the last one fails |
| PubsubReceipt.SureToBeTried | crates/connectors/src/pubsub.rs:660-680 | it is sure to be tried for everything held if and only if that fits in one call |
| PubsubReceipt.SettlesOnce | crates/connectors/src/pubsub.rs:646-691 | settling happens once and the keeper does nothing after it |
| PubsubReceipt.HeldRows | crates/connectors/src/pubsub.rs:502-511 | a row is written only once its message is held and its deadline extended |
| IncrementalRead.ReadPages | crates/connectors/src/bigquery.rs:715-749 | page by page, exactly the first rows of the answer up to the cap, and the last one's value |
| IncrementalRead.Run | crates/connectors/src/bigquery.rs:627-784 | either reader writes the first rows of an answer and hands on the last value, and fails only if the query or a row does |
| IncrementalRead.DeliveredOnce | crates/connectors/src/bigquery.rs:576-784 | with new values always larger, distinct and not null, any runs, each with a cap of its own, deliver the rows past `start` exactly once, in order |
| IncrementalRead.CaughtUp | crates/connectors/src/bigquery.rs:715-784 | and a run the cap did not stop has delivered them all |
| IncrementalRead.DeliversWanted | crates/connectors/src/bigquery.rs:576-616 | whatever a life delivers is a row of the table whose value is larger than `start`, if there is one; none twice, in the order of values |
| IncrementalRead.AllWantedDelivered | crates/connectors/src/bigquery.rs:576-784 | and after a run the cap did not stop every such row has been delivered |
| IncrementalRead.RestComesNext | crates/connectors/src/bigquery.rs:595-616 | the next statement selects exactly the rows a run left if and only if the cap fell between different values and there are no nulls |
| IncrementalRead.SkippedForGood | crates/connectors/src/bigquery.rs:595-616 | what a saved value is past is never written by any later run, whatever its settings |
| IncrementalRead.TieSkipped | crates/connectors/src/bigquery.rs:595-616 | and so a row is lost: of two with one value the cap lets the first through, and no later run reads the second |
| IncrementalRead.RowByRow | crates/connectors/src/bigquery.rs:576-784 | a life, for one: two rows come in and two runs deliver one each |
| IncrementalRead.ReadLines | crates/connectors/src/clickhouse.rs:448-478 | every line is written, and the last one's value handed on |
| IncrementalRead.NullsStartOver | crates/connectors/src/clickhouse.rs:350-372 | a first run writes rows and yet hands on no position if and only if it is ClickHouse's, without `start`, and the cap lets a null through; then the next reads them all again |
| Canvas.WouldCycle | frontend/src/document.ts:259-277 | true exactly when the source is reached from the target; the walk ends |
| Canvas.RefuseConnection | frontend/src/document.ts:199-256 | the first reason that applies, or none |
| Canvas.AcceptedIff | frontend/src/document.ts:199-256 | a connection is accepted if and only if it is between two registered nodes, from an output the one has to an input the other has, named and free, and closes no loop |
| Canvas.ConnectingKeeps | frontend/src/document.ts:303-313 | an accepted connection keeps the document well-formed: acyclic, endpoints present, ids unique, one edge per input |
| Canvas.RefusedWouldBreak | frontend/src/document.ts:206-253 | a connection refused for the graph's sake would have broken it |
| Canvas.AcceptedIsDrawn | frontend/src/document.ts:199-313 | an accepted connection's edge leaves the output and enters the input it was drawn between, both of which there are, and nothing else changes |
| Canvas.Connect | frontend/src/document.ts:199-313 | a connection is refused, or adds one edge and keeps the document well-formed |
| Canvas.AddEdge | frontend/src/document.ts:303-313 | one edge more, under the first free number |
| Canvas.AddingKeeps | frontend/src/document.ts:283-285 | a node with a new id is there then, with every other as it was, and the document stays well-formed |
| Canvas.OrderStays | frontend/src/document.ts:287-317 | what a removal leaves keeps its order |
| Canvas.RemovingKeeps | frontend/src/document.ts:287-294 | removing nodes takes exactly them and their edges, and keeps the document well-formed |
| Canvas.RemovingEdgesKeeps | frontend/src/document.ts:315-317 | exactly the edges named go, and the document stays well-formed |
| Canvas.MovingKeeps | frontend/src/document.ts:296-301 | exactly that node moves, to where it is put, and the document stays well-formed |
| Canvas.NewNodeId | frontend/src/document.ts:112-129 | an id that begins with its stem, is not taken, not reserved, and the first free of its kind |
| Canvas.BaseIs | frontend/src/document.ts:112-129 | the stem of a new id is what follows the last dot of the component's, with an underscore for each character that is not a letter, a digit or one |
| Canvas.FirstFree | frontend/src/document.ts:333-340 | the search for a free number ends |
| Canvas.RenamingKeeps | frontend/src/properties.ts:196-227 | an allowed rename keeps the document well-formed, and renaming back gives the document back |
| Canvas.RenameAllowed | frontend/src/properties.ts:196-214 | a rename is refused if and only if the new name is empty, or another than the old and some node's or a reserved one |
| Canvas.RenamesOne | frontend/src/properties.ts:216-226 | exactly that node's id changes, and the ends of its edges with it; the order stays |
| Canvas.RenameIsIsomorphism | frontend/src/properties.ts:216-226 | after a rename one node reaches another exactly when it did before |
| AwsCanonical.UriEncode | crates/connectors/src/aws.rs:165-177 | the encoding `AwsCanonical.Encode` defines |
| AwsCanonical.UriDecode | crates/connectors/src/aws.rs:181-202 | the decoding `AwsCanonical.Decode` defines, in which a sign may stand before a single digit |
| AwsCanonical.DecodeInvertsEncode | crates/connectors/src/aws.rs:165-202 | decoding gives back any bytes that were encoded |
| AwsCanonical.EncodedBytes | crates/connectors/src/aws.rs:165-177 | each byte comes out as itself if it is unreserved, or a slash that is to stay, and else as a percent sign and its two upper-case digits |
| AwsCanonical.DecodedEscapes | crates/connectors/src/aws.rs:181-202 | a percent sign and two digits of either case decode to their byte |
| AwsCanonical.DecodedRest | crates/connectors/src/aws.rs:181-202 | and any other byte to itself |
| AwsCanonical.DotSegmentsGo | crates/connectors/src/aws.rs:204-228 | a `.` or an empty segment goes, and a `..` takes the segment before it |
| AwsCanonical.CanonicalPath | crates/connectors/src/aws.rs:204-228 | the stack of segments gives the normalised path, encoded |
| AwsCanonical.MeaningJoins | crates/connectors/src/aws.rs:230-241 | what is on either side of an `&` means what it means alone |
| AwsCanonical.MeaningOfOne | crates/connectors/src/aws.rs:230-241 | between two of them a parameter is cut at its first `=` and decoded; without one its value is empty, and an empty one is none |
| AwsCanonical.NormalizedTwice | crates/connectors/src/aws.rs:210-226 | a normalised path has no empty, `.` or `..` segment, and normalising is idempotent |
| AwsCanonical.CanonicalIffSame | crates/connectors/src/aws.rs:230-248 | two queries have one canonical form if and only if they have the same decoded parameters, in any order |
| AwsCanonical.CanonicalMeansTheSame | crates/connectors/src/aws.rs:230-248 | canonicalising keeps the decoded parameters |
| AwsCanonical.CanonicalTwice | crates/connectors/src/aws.rs:230-248 | canonicalising a query is idempotent |
| AwsCanonical.CanonicalSorted | crates/connectors/src/aws.rs:230-248 | parameters come by ascending key, and by ascending value where keys are equal: the earlier is a prefix of the later, or has the smaller byte where they first differ |
| Base64.Base64Bytes | crates/connectors/src/http.rs:685-713 | the encoding `Base64.Encode` defines, three bytes at a time |
| Base64.Base64Decode | crates/connectors/src/http.rs:646-681 | the decoding `Base64.Decode` defines, four characters at a time |
| Base64.Alphabet | crates/connectors/src/http.rs:685-713 | the letters are the RFC's, in its order |
| Base64.Vectors | crates/connectors/src/http.rs:685-713 | three of the RFC's test vectors come out as it says |
| Base64.DecodeInvertsEncode | crates/connectors/src/http.rs:646-713 | decoding an encoding gives back any bytes |
| Base64.EncodeInvertsDecode | crates/connectors/src/http.rs:646-713 | encoding what a text decodes to gives back the trimmed text if and only if the unused trailing bits are zero |
| Timestamps.ExactUnlessOverflow | crates/connectors/src/bigquery.rs:386-412 | the digits give the exact value truncated toward zero, or nothing when its magnitude is past 64 bits, if and only if placing the point stays within 32 bits or the digits are all zero |
| Timestamps.OverflowIsZero | crates/connectors/src/bigquery.rs:403-410 | past 32 bits the result is zero |
| Timestamps.LargestExponent | crates/connectors/src/bigquery.rs:403-410 | as for `1E2147483647` |
| Timestamps.ScientificCell | crates/connectors/src/bigquery.rs:386-400 | a cell in scientific notation, with or without a point, is worth its mantissa and exponent |
| Timestamps.DecimalCell | crates/connectors/src/bigquery.rs:386-400 | a cell with a point and no exponent is seconds |
| Timestamps.IntegerCell | crates/connectors/src/bigquery.rs:392-397 | a cell of digits alone is the microseconds themselves, if 64 bits hold them |
| Timestamps.WrittenInteger | crates/connectors/src/bigquery.rs:392-397 | so any 64-bit number of microseconds is read as it is written |
| Timestamps.ReadsNumbersOnly | crates/connectors/src/bigquery.rs:386-411 | a cell with any other character than digits, signs, points and an E, or without a digit, is none |
| Timestamps.FirstSignCounts | crates/connectors/src/bigquery.rs:393-402 | of several signs the first counts |
| Timestamps.FieldsReassemble | crates/connectors/src/bigquery.rs:416-427 | the fields are in range and make up the microseconds again, before 1970 too |
| Timestamps.MicrosTextTells | crates/connectors/src/bigquery.rs:416-427 | different times have different texts, as different days have different dates |
| Timestamps.MicrosTextReads | crates/connectors/src/bigquery.rs:416-427 | the text's parts are the date, and the time of day to the microsecond |
| ComponentPick.TopIsBest | crates/assistant/src/pick.rs:59-75 | a component of an offered kind whose score is two or more is left out only for eight of a higher score, or of its own score and earlier in the registry |
| ComponentPick.Pick | crates/assistant/src/pick.rs:56-99 | at most eight, none twice, sources first and sinks last; each is of an offered kind with a score of two or more, or one of the four fallbacks; the six likeliest always stay, and all eight if they have a source and a sink; a sink, and a source, if and only if one of the likeliest or a fallback of the registry stays when room is made |
| ComponentPick.SourceStays | crates/assistant/src/pick.rs:76-91 | when a source stays, in terms of the eight likeliest and the fallbacks there are |
| ComponentPick.SinkStays | crates/assistant/src/pick.rs:76-91 | when a sink does |
| ComponentPick.TransformsCrowdOut | crates/assistant/src/pick.rs:76-91 | a request that names six transforms and neither a source nor a sink is offered no source |

## Left out

- Expiry and delisting of Kinesis shards while a run is reading: they happen between runs only.
- Kinesis `ListShards` paging: one snapshot.
- Kinesis sequence numbers are the numbers of puts, and there is one clock for arrivals and runs.
- GetShardIterator gives no iterator only at the end of a closed shard; GetRecords may answer nothing while there is more only so many times, so that a run ends.
- A Kafka fetch that times out with nothing although something is readable: outside the fetch's contract, which gives a first part of what is readable.
- What limits discard from a NATS stream while a consumer reads counts as deleted: the consumer passes it without a word.
- Positions as JSON, and the errors for positions that cannot be read.
- Incremental reads without a column to go by, and a saved position for another query, which counts as none.
- Rows and their conversion: opaque, and may fail at any row.
- Sleeping, back-off and the pauses between calls: only their order and number.
- 64-bit counters, offsets and sequences: unbounded here. 32-bit wrap-around is modelled in `murmur2` and in placing a timestamp's point.
- Pub/Sub takes each publish whole or not at all, however often it is tried.
- ask_rows's panics, and reading a locked slot after one.
- How one answer of the model becomes columns: any answer, or error, may come.
- When a Pub/Sub receipt is settled its keeper may be in the middle of a round: it finishes it first, so extensions may go out until the join, and none after.
- The assistant's draft is one step on the server that held the model; its own retries are not told apart. A server's port, log and arguments are not modelled.
- `canonical_headers`, and the signing around the canonical request.
- Canvas properties, policies and what `updateNodeData` may change about a node's component.
- Trimming the new name of a node: the rename takes it trimmed.
- `civil_from_days` is a function given as a parameter, with different texts for different days.
- A request's words, synonyms and matching: the pick takes each component's score as given.
- RabbitMQ, MongoDB, REST and GraphQL connectors, whose protocols are weaker forms of these.
- The registry's ids are unique and a component's namespace follows from its id, as the registry's own test and constructor say.
