# Verified model of the OTel Arrow adapter

The adapter converts OTLP telemetry to sorted, delta-encoded columnar records and back, over a
stateful stream protocol. This project models the parts of it whose correctness spans several
functions or whole runs, and proves what they promise.

| file | models |
|---|---|
| Streams.dfy | the producer and consumer of sub-streams, and whole sessions between them |
| GroupDelta.dfy, AttrOrder.dfy | group-delta parent ids over any modulus (2^16 and 2^32 are the two in use), and the default sort order |
| AttrTable.dfy, Dictionaries.dfy, AttrBuilder.dfy | the nine-column attribute table, its dictionaries, and the builder that grows both until a record fits |
| AttrStore.dfy, AttrRoundTrip.dfy | the store read back from an attribute table, and the round trip, over any number of batches |
| DynAttrs.dfy, DynStore.dfy | one column per (key, type), reused over many batches, and the pivot back to maps |
| SchemaId.dfy | the textual schema id, as a printer that can be read back |
| SchemaTransform.dfy, TransformTree.dfy | building a schema from a prototype and a transform tree, building the tree, and how the schema grows |
| Values.dfy, Cbor.dfy | value trees, the equalities and the ordering on them, and their CBOR encoding (RFC 8949, section 3.2.2) |
| Allocator.dfy | a byte budget kept in wrapping 64-bit arithmetic |
| LogOptimizer.dfy | numbering, flattening and sorting the log records of a batch |
| LogIds.dfy, LogRoundTrip.dfy | numbering, filing and delta ids of log records, and their way to the attribute table and back |
| SharedAttributes.dfy | intersecting attribute sets, and filing what is not shared |
| Router.dfy | weighted routing |
| Selections.dfy, Sorting.dfy, Decimals.dfy, Words.dfy, Wrappers.dfy | what picking some elements of a list means, sort.Slice as its callers may rely on it, "%d", 64-bit words, and Option and Result |

Code that works by changing state is a class or a method with loops, proved against a
specification function; the properties are lemmas about those functions. Where Go visits a map, the
model visits it in any order. Where Go sorts, any order that sort.Slice may leave is allowed.

The Arrow IPC library is an opaque pair: a chunk carries its writer's whole past, and a reader
accepts it only when it has read exactly that past. The record builder is a list of columns, each
dictionary a set of values that outlives the record; a failed build discards rows and dictionaries and
is tried again with a larger schema or a wider index.

## What does not hold as written, and when it does

- The comment at pkg/arrow/schema.go:64 calls the schema id unique. It is not when names contain
  colons (`SchemaId.ColonsMakeIdsAmbiguous`) or start with a closing brace
  (`SchemaId.BracesMakeIdsAmbiguous`). Without either, and with names that differ at each level, it is
  (`SchemaId.IdsEqualIff`); where a name is repeated the sort may leave several ids, and
  `SchemaId.MayShareIdIff` with `SchemaId.SameTreeIsAlike` says which schemas can share one.
- A failed Produce call drops payloads it has already written. The consumer stays in step if and only
  if the writer open for the first message refuses that message (`Streams.FailedCallKeepsStepIff`);
  `Streams.FailedCallCanLoseStep` is a call of two messages that puts it out of step.
- Columns of an attribute table stay in step if and only if no value is Empty
  (`AttrTable.LockstepIff`).
- The store decoder crashes if and only if the first key of the table is empty
  (`GroupDelta.DecodeCrashesIff`), which, unless NaN breaks the sort order, is an empty key among the
  accumulated rows of least type code (`AttrOrder.AccumulatedCrashIff`). AppendWithID skips empty keys;
  Append, used for resources and scopes, keeps them.
- The sort comparator is a strict weak order if and only if no NaN shares its key with two doubles that
  are ordered around it (`AttrOrder.WeakOrderIff`), as in the table of 1, NaN and 2
  (`AttrOrder.NaNBreaksTheOrder`).
- ValuesEqual, when it holds against a value with unique keys, holds the other way round if and only if
  the first value has unique keys too (`Values.SymmetricIff`, `Values.ValuesEqualNeedsUniqueKeys`).
- CBOR gives a value back if and only if it has unique keys, no empty byte slice and no NaN
  (`Cbor.RoundTripIff`).
- The store read back from dynamic columns has everything but Empty values if and only if no value is
  an empty byte slice (`DynStore.NothingLostIff`, `DynStore.BatchLossIff`).
- The allocator's accounting is right if and only if the limit is at most 2^63
  (`Allocator.AccountsIff`).
- The early stop of AppendUniqueAttributesWithID can lose attributes;
  `SharedAttributes.AllUnsharedAppendedIff` says exactly when, and `SharedAttributes.OverlapLosesRowsIff`
  says it for shared sets taken from the map.
- Validate accepts tables whose weights overflow. Routing follows the weights if and only if their true
  sum is below 2^63 (`Router.FairIff`).
- Each resource is filed once. A scope is filed once if and only if no record of another scope sorts
  between two of its own (`LogIds.ScopeOnceIff`); one that occurs under two resources can be filed twice
  (`LogIds.ScopesCanRepeat`).

## Model

| member | source | states |
|---|---|---|
| Streams.SessionRoundTrip | pkg/otel/arrow_record/producer.go:328-422 | For every error-free session, whatever the schema changes and returns to old schemas, a consumer fed the batches in order returns each call's records with their types, in order, under that call's batch id, and both sides end with the same streams at the same position |
| Streams.DeliverAll | pkg/otel/arrow_record/consumer.go:161-222 | One call: from any in-step pair of states the consumer decodes exactly the messages of the call and the two sides are in step again |
| Streams.DeliverOne | pkg/otel/arrow_record/producer.go:331-413 | One message: the consumer decodes the very message produced, and the two stream maps stay in step |
| Streams.DeliverOnNewStream | pkg/otel/arrow_record/consumer.go:167-203 | The first chunk of a new stream: producer and consumer drop the same old streams of the payload type and open matching ends |
| Streams.ReachableKeepsInv | pkg/otel/arrow_record/producer.go:338-366 | After any calls, failed ones included: at most one live stream per payload type, every stream named by its own number below the counter, and created minus closed equals the number of live streams |
| Streams.IdsNeverReused | pkg/otel/arrow_record/producer.go:360-416 | Over any calls, failed ones included, two payloads that were returned have the same sub-stream id if and only if the same IPC writer wrote them, and two batches the same batch id if and only if they are the same batch |
| Streams.BatchNumber | pkg/otel/arrow_record/producer.go:410-416 | Over any calls, failed ones included, a batch is numbered by how many calls before it succeeded |
| Streams.WhereAMessageGoes | pkg/otel/arrow_record/producer.go:331-408 | One message by its schema id: a known id goes out on its own stream and no other stream is touched; a new id gets the next number, opens with an empty past and takes the place of exactly the streams of its payload type; and it is refused exactly when the open writer has another schema |
| Streams.RefusalChangesNothing | pkg/otel/arrow_record/producer.go:387-390 | In a reachable state a message the IPC writer refuses leaves the producer exactly as it was |
| Streams.FailedCallKeepsStepIff | pkg/otel/arrow_record/producer.go:387-412 | A failed call leaves an in-step consumer in step if and only if the writer already open for its first message refuses that message, which can be seen before the call |
| Streams.NothingWrittenIff | pkg/otel/arrow_record/producer.go:387-412 | A failed call has written no payload if and only if its first message was refused |
| Streams.FailedCallCanLoseStep | pkg/otel/arrow_record/producer.go:387-412 | Two messages under one schema id whose records have different schemas: the call fails and the consumer, in step before, is not in step any more |
| Streams.WritingLosesStep | pkg/otel/arrow_record/producer.go:387-412 | A consumer that does not get the payloads of a non-empty call is no longer in step |
| Streams.Producer.constructor | pkg/otel/arrow_record/producer.go:120-172 | A new producer has no streams and all counters at zero |
| Streams.Producer.CloseStreamsOfType | pkg/otel/arrow_record/producer.go:347-355 | Whatever order the map is visited in, exactly the streams of the payload type are removed, and the closed counter grows by their number |
| Streams.Producer.ProduceMessage | pkg/otel/arrow_record/producer.go:331-409 | The state after one message and its payload, or the refusal of the IPC writer |
| Streams.Producer.Produce | pkg/otel/arrow_record/producer.go:328-422 | The state and the batch of a whole call; an error returns no batch and does not move the batch counter |
| Streams.FailureIsFinal | pkg/otel/arrow_record/producer.go:410-412 | The messages after a failing one are not looked at |
| Streams.Consumer.constructor | pkg/otel/arrow_record/consumer.go:68-76 | A new consumer has no streams |
| Streams.Consumer.ReleaseStreamsOfType | pkg/otel/arrow_record/consumer.go:176-181 | In any visiting order the streams of the payload type are removed, and the crash on a reader that was never opened happens exactly when there is one |
| Streams.Consumer.ConsumePayload | pkg/otel/arrow_record/consumer.go:165-213 | What one payload does to the streams: decoded, silently dropped, reader error or crash |
| Streams.Consumer.Consume | pkg/otel/arrow_record/consumer.go:161-222 | The messages and the stream map after a whole batch, or the error or crash |
| Streams.WhereAPayloadGoes | pkg/otel/arrow_record/consumer.go:165-213 | One payload by its sub-stream id: a known id is read on its own stream and no other is touched; a new one takes the place of exactly the streams of its payload type, with the crash on one that was never ready; it is decoded exactly when its chunk continues what the stream has read or opens a new one |
| Streams.ConsumeStopsAtError | pkg/otel/arrow_record/consumer.go:199-201 | The payloads after a failing one are not looked at |
| Decimals.NumberOfDecimal | pkg/otel/arrow_record/producer.go:360 | Reading the "%d" text of a number gives the number back |
| Decimals.DecimalInjective | pkg/otel/arrow_record/producer.go:415 | Different numbers have different "%d" texts |
| Decimals.DecimalIsDigits | pkg/arrow/schema.go:188 | The "%d" text of a number holds digits only, so a delimiter ends it |
| Decimals.NoLeadingZero | pkg/otel/arrow_record/producer.go:415 | Apart from 0 itself a "%d" text does not start with a zero |
| SchemaId.IdsEqualIff | pkg/arrow/schema.go:66-194 | For schemas with readable names that differ at each level, the ids are equal if and only if the schemas are the same type tree up to field order at every level and to what the printer drops |
| SchemaId.SameFieldsSameId | pkg/arrow/schema.go:81-92 | Permuting fields at any nesting level, or changing nullability, metadata, element names, time units or union codes, leaves the id alone, whatever characters the names hold |
| SchemaId.PrintDecodes | pkg/arrow/schema.go:100-194 | No printed type is a proper start of another: from equal texts both the type and the rest can be read back |
| SchemaId.FieldsDecode | pkg/arrow/schema.go:133-180 | A comma-separated, brace-terminated field list can be read back field by field |
| SchemaId.SameShapeIff | pkg/arrow/schema.go:100-194 | Two types have the same canonical shape if and only if they are the same up to field order and to what is dropped |
| SchemaId.SortThenShape | pkg/arrow/schema.go:81-92 | Whatever order the sort leaves, sorting fields with different names by name gives one canonical sequence |
| SchemaId.ColonsMakeIdsAmbiguous | pkg/arrow/schema.go:95-97 | With a colon and a comma in a name two different schemas share an id |
| SchemaId.BracesMakeIdsAmbiguous | pkg/arrow/schema.go:95-97 | With names that start with a closing brace two different schemas share an id although no name holds a colon |
| SchemaId.MayShareIdIff | pkg/arrow/schema.go:66-194 | For schemas with readable names, repeated or not: they may be given one id, in any orders the sort may leave, if and only if they list the same fields with the same types up to order at every level |
| SchemaId.SameTreeIff | pkg/arrow/schema.go:81-92 | Where names differ at each level, that is being the same type tree up to field order |
| SchemaId.SameTreeIsAlike | pkg/arrow/schema.go:81-92 | Being the same tree is, names repeated or not, that the fields at each level can be rearranged so that names match and types match in turn |
| SchemaId.SortMatched | pkg/arrow/schema.go:81-92 | Fields matched by name and type still match after both sides are sorted by name |
| SchemaId.MayShapeIff | pkg/arrow/schema.go:81-92 | Where names differ at each level, the canonical shape is the only one the printer may see; elsewhere any order of equal names |
| SchemaId.SchemaToID | pkg/arrow/schema.go:66-79 | The text built by sorting and appending is one the schema may be given, printed from a list of all fields with each name before the later ones, and the canonical id where names differ; it fails exactly when a type is unsupported |
| SchemaId.FieldsToID | pkg/arrow/schema.go:134-144 | Sort by name, then join with commas: a text the fields may be given, with each name before the later ones, and canonical where names differ |
| SchemaId.JoinFieldIDs | pkg/arrow/schema.go:70-76 | The append loop writes the fields one by one with commas between them |
| SchemaId.DataTypeToID | pkg/arrow/schema.go:100-194 | A text the type may be given, canonical where names differ, or the panic exactly for a type that contains an unsupported one |
| SchemaId.FieldToID | pkg/arrow/schema.go:95-97 | Name, colon and a text of the type of one field, or the panic |
| SchemaId.ListInNameOrder | pkg/arrow/schema.go:58-92 | Whatever the sort leaves, each field of an id has a name that is the same as, or by first different character or length before, every later one |
| SchemaId.PrintedSimpleTypes | pkg/arrow/schema.go:103-132 | The text of every simple type |
| SchemaId.PrintedContainers | pkg/arrow/schema.go:144-156 | The text of lists, dictionaries and maps around their parts |
| SchemaId.PrintedFields | pkg/arrow/schema.go:133-143 | The text of a list of two fields |
| SchemaId.PrintedStructs | pkg/arrow/schema.go:157-180 | The text of structs and of both kinds of union around their fields |
| AttrRoundTrip.AttributesRoundTrip | pkg/otel/common/otlp/attributes_new.go:135-228 | For accumulated maps with unique keys and no empty values, in any order the sorter may leave and after any schema growth, the store decoded from the columns has exactly the parents with something to write and under each exactly its own attributes |
| AttrRoundTrip.WriteThenRead | pkg/otel/common/arrow/attributes_16.go:222-252 | One batch through a builder in any state earlier batches left behind: accumulating proper maps, building and loading the columns always works and restores every parent |
| AttrRoundTrip.WriteAndReadAll | pkg/otel/common/arrow/attributes_16.go:222-268 | Batch after batch through one builder: each is restored from its own table |
| AttrRoundTrip.BuildAndLoad | pkg/otel/common/arrow/attributes_16.go:222-252 | The same from rows that are already accumulated |
| AttrRoundTrip.SchemaGrowsIff | pkg/otel/common/arrow/attributes_16.go:222-252 | A first build has to grow its schema if and only if some written value is not a string, whatever order the rows are sorted in |
| AttrRoundTrip.WriteThenRead16 | pkg/otel/common/arrow/attributes_16.go:222-252 | Any number of batches with 16-bit parent ids and up to 65535 maps each, under any dictionary configuration |
| AttrRoundTrip.WriteThenRead32 | pkg/otel/common/arrow/attributes_32.go:239-269 | Any number of batches with 32-bit parent ids and up to 4294967295 maps each, under any dictionary configuration |
| AttrRoundTrip.FileOwners | pkg/otel/common/arrow/attributes.go:277-304 | Filing the parents one by one gives exactly their rows, in order |
| AttrRoundTrip.BuiltIsLoadable | pkg/otel/common/otlp/attributes_new.go:149-225 | What Build makes of proper maps is a table the store accepts: columns in step, a non-empty first key, and every cell readable |
| AttrRoundTrip.LoadTable | pkg/otel/common/otlp/attributes_new.go:135-228 | Such a table loads, without crash or error |
| AttrRoundTrip.OwnerMapRestored | pkg/otel/common/otlp/attributes_new.go:232-324 | If nested values have unique keys and no empty bytes, a parent gets back exactly its own map, minus entries with an empty key |
| AttrRoundTrip.LookupRestored | pkg/otel/common/otlp/attributes_new.go:216-224 | Looking a key up under a parent gives what was written for that parent, and nothing for other keys |
| AttrRoundTrip.RowsAreEntries | pkg/otel/common/arrow/attributes.go:277-304 | A row is in the accumulated table if and only if it is a non-empty-key entry of its parent's map |
| AttrStore.TableRoundTrip | pkg/otel/common/arrow/attributes_16.go:129-216 | Row by row, decoding the nine columns recovers key, value and parent id of every row, across wrap-around of the deltas |
| AttrStore.CellsOfRow | pkg/otel/common/arrow/attributes_16.go:138-208 | Cell by cell what a row of the table holds: its code, key and type, and its value in the one column for its type, where empty texts and bytes are null like everything in the other columns |
| AttrStore.StoreFrom | pkg/otel/common/otlp/attributes_new.go:135-228 | Decodes row by row; crashes exactly when the first key is empty and its row readable, is malformed exactly when some row cannot be read, and otherwise files every decoded row |
| AttrStore.ReadValue | pkg/otel/common/otlp/attributes_new.go:160-210 | A row's value is read from the column its type code names; an unknown code reads as empty, and a row is unreadable exactly when its nested value is not readable CBOR |
| AttrStore.FileAllMeaning | pkg/otel/common/otlp/attributes_new.go:216-224 | The store finds under a parent and a key the last row filed there and nothing else |
| AttrStore.DecodeAppend | pkg/otel/common/otlp/attributes_new.go:393-415 | Decoding one more row continues from the state left by the rows before |
| GroupDelta.GroupDeltaRoundTrip | pkg/otel/common/otlp/attributes_new.go:423-445 | For any modulus: decoding the group deltas of any rows in any order recovers every parent id across wrap-around, even though nested values come back only up to map order |
| GroupDelta.DecodeCrashesIff | pkg/otel/common/otlp/attributes_new.go:401-411 | The decoder crashes on its missing previous value if and only if the first key is empty |
| AttrOrder.AccumulatedCrashIff | pkg/otel/common/otlp/attributes_new.go:423-445 | On rows in which no NaN is straddled, before any sorting: the store decoder crashes if and only if an empty key is among the accumulated rows of least type code |
| GroupDelta.Sorter.Encode | pkg/otel/common/arrow/attributes_16.go:424-442 | One row: the difference from the previous parent id inside a group, the id itself at the start of one; and the state kept for the next row |
| GroupDelta.Sorter.Reset | pkg/otel/common/arrow/attributes_32.go:478-482 | Back to the initial state |
| GroupDelta.Sorter.constructor | pkg/otel/common/arrow/attributes_32.go:433-435 | A new sorter is in the initial state |
| GroupDelta.ParentIdDecoder.Decode | pkg/otel/common/otlp/attributes_new.go:423-445 | One code: the parent id it stands for and the state kept for the next row, or the crash |
| GroupDelta.ParentIdDecoder.constructor | pkg/otel/common/otlp/attributes_new.go:387-391 | A new decoder is in the initial state |
| GroupDelta.SubAddMeaning | pkg/otel/common/otlp/attributes_new.go:423-445 | Differences and sums of ids wrap at the width of the id, once |
| AttrOrder.AttrLessIsWeakOrder | pkg/otel/common/arrow/attributes_16.go:403-422 | The default comparator is a strict weak order on NaN-free rows of any mix of types |
| AttrOrder.AttrLessLaws | pkg/otel/common/arrow/attributes_32.go:437-456 | The same as laws on three rows: asymmetric, and no row is between two ordered rows without being ordered with one |
| AttrOrder.AttrLessMeaning | pkg/otel/common/arrow/attributes_16.go:403-422 | What comes before what: type code, then key, then value, then parent id, each compared by its own order, NaN included |
| AttrOrder.TableInOrder | pkg/otel/common/arrow/attributes_16.go:403-422 | In a sorted table without a straddled NaN no row comes before one that should precede it |
| AttrOrder.WeakOrderIff | pkg/otel/common/arrow/attributes_16.go:403-422 | On any table, NaN included: the comparator is a strict weak order if and only if no NaN stands under one key with two doubles that are ordered around it |
| AttrOrder.AttrLessWithNaN | pkg/otel/common/arrow/attributes_16.go:403-422 | A row is between two ordered rows without being ordered with either if and only if it is such a NaN |
| AttrOrder.NaNBreaksTheOrder | pkg/otel/common/arrow/attributes_16.go:403-422 | Under any key the table of 1, NaN and 2 is not weakly ordered |
| AttrOrder.SortedGroups | pkg/otel/common/arrow/attributes_16.go:424-460 | After a NaN-free sort a row carries its absolute parent id exactly when no earlier row has its key and value; every other row follows one of its group, with a parent id no smaller, and carries the plain difference |
| AttrOrder.CodesAt | pkg/otel/common/arrow/attributes_16.go:424-442 | The code of each row depends only on that row and the one before it |
| AttrBuilder.EmittedParentIds | pkg/otel/common/arrow/attributes_16.go:424-460 | What a successful build of NaN-free accumulated rows emits, whatever the sort leaves: in the parent id column an absolute id exactly at the first row of each group of equal attributes, and after it the plain differences |
| AttrTable.LockstepIff | pkg/otel/common/arrow/attributes_16.go:129-216 | The nine columns have one length if and only if no row holds an Empty value |
| AttrTable.FillLengths | pkg/otel/common/arrow/attributes_32.go:146-233 | The length of every column after the append loop |
| AttrBuilder.AttrsBuilder.constructor | pkg/otel/common/arrow/attributes_16.go:38-111 | A new builder has no optional columns, an empty accumulator and empty dictionaries, indexed by 8 bits for keys and by 16 for values, configuration permitting |
| AttrBuilder.AttrsBuilder.TryBuild | pkg/otel/common/arrow/attributes_16.go:129-216 | Sorts, encodes and fills; the schema has to be updated exactly when a needed column is missing or, with every column there, a dictionary is full; the record panics when a value is Empty; and the exact schema, indexes and dictionaries that are left |
| AttrBuilder.AttrsBuilder.FillColumns | pkg/otel/common/arrow/attributes_16.go:138-208 | The append loop writes for each row its code and cells, notes exactly the missing columns, and leaves each dictionary whose column is in the schema with what it held and exactly the values in the non-null cells of its own column in the table returned, and any other dictionary as it was |
| AttrBuilder.AttrsBuilder.Build | pkg/otel/common/arrow/attributes_16.go:222-252 | Whatever schema and dictionaries earlier batches have left, at most two attempts fail, so the panic after five is never met: a record is returned for every table without Empty values; with a table the dictionaries hold exactly the values in its cells, on top of what they held unless a failed attempt renewed them, and each index is the first wide enough |
| AttrBuilder.DistinctAreCells | pkg/otel/common/arrow/attributes_16.go:138-208 | The values a dictionary gets from the rows are the values in the non-null cells of its column: keys for keys, strings for strings, and so on |
| AttrBuilder.FilledHoldsCells | pkg/otel/common/arrow/attributes_16.go:138-208 | So each dictionary ends with what it held and the values of its own column |
| AttrBuilder.Settled | pkg/otel/common/schema/builder/record.go:140-273 | After the attempts for any rows, on any earlier state: the number of failures, the dictionaries and the widths of their indexes, read off the table that comes out |
| AttrBuilder.AttemptsThatFail | pkg/otel/common/schema/builder/record.go:140-167 | Attempts fail exactly once for missing columns and once for full dictionaries, in this order |
| AttrBuilder.RaisedEnough | pkg/otel/common/schema/builder/record.go:236-273 | Once raised for these rows on top of what a dictionary held before, its index is wide enough for these rows in a new, empty one |
| AttrBuilder.TryPermuted | pkg/otel/common/arrow/attributes_16.go:129-216 | Sorting the rows in another order changes neither the outcome of an attempt nor what it leaves |
| AttrBuilder.AttrsBuilder.DetectDictionaryOverflow | pkg/otel/common/schema/builder/record.go:169-215 | Every dictionary in the schema is raised to fit its values, and an update is due exactly when one changed |
| AttrBuilder.AttrsBuilder.Reset | pkg/otel/common/arrow/attributes_16.go:266-268 | Empties the accumulator and keeps schema and dictionaries |
| Dictionaries.RaiseMeaning | pkg/otel/common/schema/transform/dictionary.go:154-176 | Raising keeps an index the values fit, moves to the first wider one they do fit, and gives the dictionary up exactly when there is none |
| Dictionaries.RaisedHolds | pkg/otel/common/schema/transform/dictionary.go:154-176 | An index raised for some number of values is not raised again for as many or fewer |
| Dictionaries.DictionaryField.SetCardinality | pkg/otel/common/schema/transform/dictionary.go:94-176 | The loop over wider indexes stops at the first that fits, and reports a change exactly when there is one |
| Dictionaries.DictionaryField.constructor | pkg/otel/common/schema/transform/dictionary.go:178-216 | The indexes from the narrowest that holds the smaller of mark and limit up to the limit's own, or no dictionary for a limit of zero |
| Dictionaries.NewDictMeaning | pkg/otel/common/schema/transform/dictionary.go:178-216 | In numbers: the first limit is the one for the smaller of mark and configured limit, the last the one for the configured limit, each the next in line, and none for a limit of zero |
| AttrTable.AppendToColumns | pkg/otel/common/arrow/attributes_16.go:139-207 | One row: a value in the column of its type, nulls in the others, and for an Empty value neither type nor cells |
| AttrTable.RowsForAre | pkg/otel/common/arrow/attributes.go:263-304 | The rows filed are exactly the entries, in order, but those with an empty key where such are skipped |
| AttrTable.RowsKeepAll | pkg/otel/common/arrow/attributes.go:263-270 | Append files as many rows as there are entries, the i-th of which is the i-th entry |
| AttrTable.RequireAllMeaning | pkg/otel/common/arrow/attributes_16.go:222-252 | A column is in the grown schema exactly if it was before or some row has a value of its type |
| AttrTable.Accumulator.constructor | pkg/otel/common/arrow/attributes.go:239-244 | A new accumulator holds no rows and no groups |
| AttrTable.Accumulator.Append | pkg/otel/common/arrow/attributes.go:252-275 | Files every entry, empty keys included, one row each and in order, under the group number, which it returns; -1 for an empty map; panics exactly when all numbers are used |
| AttrTable.Accumulator.AppendWithID | pkg/otel/common/arrow/attributes.go:277-304 | Files the entries with a non-empty key under the given id and counts one group; nothing for an empty map; panics exactly when all numbers are used |
| AttrTable.RequireAllTwice | pkg/otel/common/arrow/attributes_16.go:222-252 | A schema that has grown for some rows needs nothing more for them, so one retry is enough for missing columns |
| AttrTable.RequireAllPermuted | pkg/otel/common/arrow/attributes_16.go:222-252 | Sorting again on a retry does not change which columns are needed |
| Sorting.SortByOutcome | pkg/otel/common/arrow/attributes_16.go:404-421 | There is an outcome of sort.Slice as assumed: a permutation, in order if the comparison is a weak order on the elements |
| Sorting.SortOutcomeTransitive | pkg/otel/common/arrow/attributes_16.go:222-252 | Sorting what is sorted is an outcome of sorting the original, so retries add nothing |
| Values.ValuesEqualIsTreeEquality | pkg/otel/pdata/value.go:25-91 | On values with unique keys ValuesEqual holds if and only if the values are equal up to the order of map entries and NaN-free |
| Values.ValuesEqualIsEquivalence | pkg/otel/pdata/value.go:25-91 | On values with unique keys it is symmetric and transitive, and reflexive exactly on NaN-free values |
| Values.SymmetricIff | pkg/otel/pdata/value.go:56-75 | When the second value has unique keys and ValuesEqual holds, it holds the other way round if and only if the first has unique keys too |
| Values.ValuesEqualNeedsUniqueKeys | pkg/otel/pdata/value.go:56-75 | A repeated key against two keys: ValuesEqual holds one way and not the other |
| Values.KeyCountIff | pkg/otel/pdata/value.go:56-60 | A map has as many keys as entries if and only if they are distinct |
| Values.SubmapOfSameSize | pkg/otel/pdata/value.go:56-75 | The pigeonhole step: equal lengths and one-sided lookup give equality of maps |
| Values.MapsEqual | pkg/otel/pdata/value.go:56-75 | Equal length and finding every entry of one map in the other is equality of the maps |
| Values.CompareIsTotalOrder | pkg/otel/common/arrow/attributes.go:560-621 | Within one scalar type and away from NaN, Compare is a total order and Equal holds exactly when it gives zero |
| Values.CompareSeqMeaning | pkg/otel/common/arrow/attributes.go:600-608 | A text or byte string compares below another exactly when it is a proper start of it or has the smaller element at the first place they differ |
| Values.CompareMeaning | pkg/otel/common/arrow/attributes.go:560-621 | Within one type, NaN included: below exactly for the smaller number, false before true, and texts and bytes by that order; and zero exactly for what Equal accepts |
| Values.CompareAcrossTypes | pkg/otel/common/arrow/attributes.go:560-621 | Across types the result is 1, except for false, which takes anything else for false |
| Values.EqualMeaning | pkg/otel/common/arrow/attributes.go:478-519 | Equal accepts exactly a scalar that is not NaN, and itself |
| Values.CompareHasNoOrderOffScalars | pkg/otel/common/arrow/attributes.go:478-519 | Maps, slices and empty values are equal to nothing and Compare puts each above the other |
| Values.StringOrder | pkg/otel/common/arrow/attributes.go:600-605 | strings.Compare is a total order whose zero is equality |
| Values.PutEntryMeaning | pkg/otel/common/otlp/dyn_attrs.go:289-298 | Putting a key changes exactly that key and keeps keys unique |
| Values.PutEntryPlace | pkg/otel/common/otlp/dyn_attrs.go:289-298 | A key that is there keeps its place, a new one goes to the end, and no other entry moves |
| Values.GetIsFirst | pkg/otel/common/otlp/dyn_attrs.go:289-298 | A lookup finds the first entry under the key, and nothing exactly when there is none |
| Values.TypeCodes | pkg/otel/common/otlp/attributes_new.go:160-210 | The codes of the eight value types |
| Cbor.RoundTripIff | pkg/otel/common/cbor.go:72-176 | Whatever comes back for a written value is equal to it if and only if the value has unique keys, no empty byte slice and no NaN |
| Cbor.WrittenIsReadable | pkg/otel/common/cbor.go:42-70 | Whatever is written can be read, and parses to exactly the item it stands for |
| Cbor.ParseWritten | pkg/otel/common/cbor.go:82-117 | Nested break-terminated arrays and maps parse back unambiguously, whatever follows them |
| Cbor.ReadBackTree | pkg/otel/common/cbor.go:130-176 | With unique keys and no empty bytes the value read back is the one written, up to map order |
| Cbor.WrittenIsDecodable | pkg/otel/common/cbor.go:130-176 | Every written value, any int64 included, is readable through the unsigned path |
| Cbor.Encoder.constructor | pkg/otel/common/cbor.go:42-50 | A new encoder has written nothing |
| Cbor.Encoder.Encode | pkg/otel/common/cbor.go:72-128 | Appends exactly the tokens of the value |
| Cbor.Encoder.EncodeMap | pkg/otel/common/cbor.go:82-99 | A map start, key and value tokens in entry order, and a break |
| Cbor.Encoder.EncodeSlice | pkg/otel/common/cbor.go:100-117 | An array start, the element tokens in order, and a break |
| Cbor.EntriesInOrder | pkg/otel/common/cbor.go:82-99 | The tokens of a map are those of its entries, each once and in order, a key before its value |
| Cbor.ElementsInOrder | pkg/otel/common/cbor.go:100-117 | The tokens of a slice are those of its elements, each once and in order |
| Cbor.Serialize | pkg/otel/common/cbor.go:42-55 | The token stream of a value |
| Cbor.Decode | pkg/otel/common/cbor.go:130-176 | Succeeds exactly on decodable items, with a value that has unique keys and is the item up to map order |
| Cbor.DecodeArray | pkg/otel/common/cbor.go:159-166 | The same for the loop over array elements |
| Cbor.DecodeObject | pkg/otel/common/cbor.go:147-158 | The same for the loop over map pairs, in any order they are visited |
| Cbor.Deserialize | pkg/otel/common/cbor.go:58-70 | Succeeds exactly on readable streams, with a value that reads as the stream |
| Cbor.TakePair | pkg/otel/common/cbor.go:147-158 | Taking any one pair out of a map and putting its entry back gives the map, so the visiting order does not matter |
| Cbor.PairsOfCounts | pkg/otel/common/cbor.go:82-99 | Parsing keeps one pair per written entry if and only if the keys are distinct |
| Cbor.EqualMeansFaithful | pkg/otel/common/cbor.go:72-176 | Only values with unique keys and no empty bytes can come back equal |
| DynStore.DynRoundTrip | pkg/otel/common/otlp/dyn_attrs.go:143-169 | From any record Build makes, whatever batches went before, the store has exactly the parents of the batch and for each exactly what survives of the map it was last appended with, including columns first seen mid-batch and columns carried over |
| DynStore.WriteThenRead | pkg/otel/common/arrow/dyn_attrs.go:140-214 | A batch through a builder that any earlier batches left behind always loads, and the store holds exactly the parents of this batch with what survives of their maps; for different parents nothing but Empty values is lost exactly when there is no empty byte slice |
| DynStore.ReadAllRows | pkg/otel/common/otlp/dyn_attrs.go:151-167 | The row loop: running parent id and the map made of each row, or the first error |
| DynStore.NothingLostIff | pkg/otel/common/arrow/dyn_attrs.go:677-680 | The store that is read back has a parent's last map, apart from Empty values, if and only if that map holds no empty byte slice |
| DynStore.BatchLossIff | pkg/otel/common/arrow/dyn_attrs.go:677-680 | A whole batch of different parents is in the store, apart from Empty values, if and only if no value in it is an empty byte slice |
| DynStore.RecordedIff | pkg/otel/common/arrow/dyn_attrs.go:140-168 | A batch adds a row for a map if and only if some value in it is not Empty |
| DynStore.ReadWholeRow | pkg/otel/common/otlp/dyn_attrs.go:278-331 | The feeders of one row give back under every key exactly what survives of its map |
| DynStore.SumsAreIds | pkg/otel/common/otlp/dyn_attrs.go:269-276 | Running sums of the deltas are the parent ids, across any number of wrap-arounds |
| DynStore.FeedersOfRecord | pkg/otel/common/otlp/dyn_attrs.go:233-267 | A built record has one feeder per column, with the key and type the column was made for, and the delta column as its parent ids |
| DynStore.CellIsEntry | pkg/otel/common/arrow/dyn_attrs.go:149-165 | The only attribute that can put a value into a column is the entry under the column's key |
| DynStore.CreateFeeders | pkg/otel/common/otlp/dyn_attrs.go:233-267 | The feeders of the fields in order, or the first error |
| DynStore.UpdateAttrs | pkg/otel/common/otlp/dyn_attrs.go:278-331 | The map of one row put together by the feeders in order, or the first wrongly typed cell |
| DynStore.DynAttrsStoreFromRecord | pkg/otel/common/otlp/dyn_attrs.go:143-169 | The store of the whole record, row after row, or the first error |
| DynAttrs.ColNameInjective | pkg/otel/common/arrow/dyn_attrs.go:297-316 | A column name determines key and type, whatever underscores the key contains |
| DynAttrs.AttrNameOfColName | pkg/otel/common/otlp/dyn_attrs.go:176-231 | Reading a column name back gives the key, and no column is mistaken for the parent id |
| DynAttrs.DynAttrsBuilder.constructor | pkg/otel/common/arrow/dyn_attrs.go:127-138 | A new builder is valid, without rows and columns, and has built no schema |
| DynAttrs.DynAttrsBuilder.Append | pkg/otel/common/arrow/dyn_attrs.go:140-181 | Adds one row of history, unless every value is Empty, and keeps the representation: every column as long as the parent ids, and colIdx the exact inverse of the column list; exactly the columns of this map's values are added where they are missing, and newColumn is set exactly when one is |
| DynAttrs.DynAttrsBuilder.AppendAll | pkg/otel/common/arrow/dyn_attrs.go:149-165 | The loop over a map: afterwards each column holds its history and this map's cell, exactly the columns of its values have been added where they were missing, and new columns are back-filled with nulls |
| DynAttrs.DynAttrsBuilder.AppendEntry | pkg/otel/common/arrow/dyn_attrs.go:150-164 | One pass of the loop: an Empty value is passed over and not counted |
| DynAttrs.DynAttrsBuilder.AppendValue | pkg/otel/common/arrow/dyn_attrs.go:153-163 | One attribute goes to the column of its key and type, made on the way if it is new |
| DynAttrs.DynAttrsBuilder.PadColumns | pkg/otel/common/arrow/dyn_attrs.go:172-178 | Columns that got nothing from this map get a null |
| DynAttrs.DynAttrsBuilder.SortColumns | pkg/otel/common/arrow/dyn_attrs.go:243-251 | Afterwards each column's name is before those of the columns after it; index, histories and the set of columns are kept |
| DynAttrs.DynAttrsBuilder.Reindex | pkg/otel/common/arrow/dyn_attrs.go:248-250 | The rebuilt index is the exact inverse of the sorted list |
| DynAttrs.DynAttrsBuilder.CreateBuilder | pkg/otel/common/arrow/dyn_attrs.go:258-280 | The record builder gets one column per attribute column, in order |
| DynAttrs.DynAttrsBuilder.EmitRecord | pkg/otel/common/arrow/dyn_attrs.go:200-209 | The record: delta parent ids and each column's history, under its own name and type |
| DynAttrs.DynAttrsBuilder.Build | pkg/otel/common/arrow/dyn_attrs.go:191-214 | Returns the record of everything appended since the last Build and empties the columns, which stay; if one was new they are in name order and one schema update is counted, and otherwise their order and index do not change |
| DynAttrs.DynAttrsBuilder.CollectColumns | pkg/otel/common/arrow/dyn_attrs.go:202-207 | Each column is written to the builder column it was attached to |
| DynAttrs.DynAttrsBuilder.BuildParentIDs | pkg/otel/common/arrow/dyn_attrs.go:367-374 | Each parent id as its difference from the one before, modulo 2^32 |
| DynAttrs.DynAttrsBuilder.Reset | pkg/otel/common/arrow/dyn_attrs.go:228-233 | Empties rows and columns and keeps names, index and representation |
| DynAttrs.DistinctNames | pkg/otel/common/arrow/dyn_attrs.go:243-251 | Distinct column names stay distinct, and all there, under any permutation |
| DynAttrs.SortedNamesInOrder | pkg/otel/common/arrow/dyn_attrs.go:243-251 | What being sorted by name means: no later name is before an earlier one, character by character |
| DynAttrs.PaddedIsNextRow | pkg/otel/common/arrow/dyn_attrs.go:172-178 | Padding turns the columns of a partly appended map into the histories of one more row |
| SchemaTransform.SchemaPathsIff | pkg/otel/common/schema/schema.go:66-80 | The field paths of the new schema, union codes included, are exactly the prototype's paths with no NoField on them or above them |
| SchemaTransform.PathsIff | pkg/otel/common/schema/schema.go:83-152 | The same for one field, on any tree, whatever its dictionary transforms do |
| SchemaTransform.KeptIffLives | pkg/otel/common/schema/schema.go:83-152 | A field is kept if and only if its node has no NoField and, for a map, neither key nor item is dropped |
| SchemaTransform.KeptIsBuilt | pkg/otel/common/schema/schema.go:83-152 | Whatever is kept is built from its prototype at every depth: the prototype's name, nullability and metadata; a leaf or dictionary exactly as its transforms leave it; struct and union members exactly those that live, in order, a union with its kind and their codes; and list elements and map halves under the names those types give them |
| SchemaTransform.BuiltOnce | pkg/otel/common/schema/schema.go:83-152 | A prototype field and its node allow only one such field |
| SchemaTransform.KeptAsIff | pkg/otel/common/schema/schema.go:83-152 | So, without a panic, a field is kept as g if and only if its node lives and g is what it builds |
| SchemaTransform.LastDictionaryDecides | pkg/otel/common/schema/transform/dictionary.go:112-151 | The type a field is left with is the bare value type in the width of its last dictionary transform, or the bare type alone if that one has been given up |
| SchemaTransform.NoDictionaryNoChange | pkg/otel/common/schema/schema.go:90-95 | Without a dictionary transform the type stays as it is |
| SchemaTransform.MetadataMeaning | pkg/otel/common/schema/transform/dictionary.go:123-128 | The metadata of a kept field: the prototype's entries but the two markers, in order, and then the id of each dictionary applied |
| TransformTree.InitialPaths | pkg/otel/common/schema/transform_node.go:61-84 | The first schema of a prototype holds exactly the paths on which nothing is optional, and building it does not panic |
| TransformTree.SchemaOnlyGrows | pkg/otel/common/schema/transform_node.go:206-226 | For any prototype, after any RemoveOptional calls one more loses no path of the schema; and where dictionaries are marked on leaves only and list elements are required, the schema can always be built |
| TransformTree.GrownReaches | pkg/otel/common/schema/transform_node.go:206-226 | RemoveOptional on any nodes of any tree takes no path away |
| TransformTree.RemoveAtCounts | pkg/otel/common/schema/transform_node.go:211-226 | RemoveOptional lowers the number of NoField nodes by exactly those of its node, so strictly exactly when there was one |
| TransformTree.ChangesBounded | pkg/otel/common/schema/transform_node.go:211-226 | However often it is called, RemoveOptional changes the schema built from the tree at most once per NoField of the tree |
| TransformTree.IdleSchema | pkg/otel/common/schema/transform_node.go:211-226 | A call that finds no NoField leaves the schema, or the panic, as it was |
| TransformTree.EffectiveBounded | pkg/otel/common/schema/transform_node.go:211-226 | Calls that remove a NoField and the NoFields left never outnumber those there were |
| SchemaTransform.ListPanicsIff | pkg/otel/common/schema/schema.go:111-114 | A list that exists is built without panic if and only if its element exists |
| TransformTree.FitsNeverPanics | pkg/otel/common/schema/schema.go:111-114 | On a tree that fits its prototype, with list elements that exist, building the schema never panics |
| TransformTree.NewNodeFits | pkg/otel/common/schema/transform_node.go:86-204 | The tree built for a prototype fits it |
| TransformTree.NodeIsFresh | pkg/otel/common/schema/transform_node.go:86-204 | Every node of a new tree bears its field's name, has a child per member, and the transforms of its field at its dotted path: NoField if it is optional, then the marked dictionary in the width for its mark and the configured limit, identity for neither, and the dictionary of a dictionary type last |
| TransformTree.InitialWidthMeaning | pkg/otel/common/schema/transform_node.go:111-124 | A dictionary starts with 16 bits if it is marked 16 and the limit is over 255, and otherwise with 8; a limit of zero means none |
| TransformTree.TreeRegistered | pkg/otel/common/schema/transform_node.go:126-128 | Every dictionary transform of a tree is the one registered under its id |
| TransformTree.ClearedMeaning | pkg/otel/common/schema/transform_node.go:211-226 | Compacting removes every NoField and changes the type a field is given in no other way |
| TransformTree.ClearedSelects | pkg/otel/common/schema/transform_node.go:211-226 | The other transforms stay, in order, each as often as it was, and a single identity stands in where there were none |
| SchemaTransform.ApplyAllMeaning | pkg/otel/common/schema/schema.go:90-95 | The transforms remove a field exactly when one of them is a NoField, and never change its name |
| SchemaTransform.CleanIff | pkg/otel/common/schema/schema.go:154-167 | Cleaning drops the two transformation markers and nothing else |
| SchemaTransform.CleanSelects | pkg/otel/common/schema/schema.go:154-167 | The other entries stay, in order, each as often as it was |
| SchemaTransform.CleanedMetadata | pkg/otel/common/schema/schema.go:154-167 | The loop computes the cleaned metadata |
| SchemaTransform.KeepFields | pkg/otel/common/schema/schema.go:99-108 | The fields that are not removed, in order; panics exactly when one of them does or a node is missing |
| SchemaTransform.KeepBranches | pkg/otel/common/schema/schema.go:115-127 | The same for union branches, each kept with its own type code |
| SchemaTransform.NewFieldFrom | pkg/otel/common/schema/schema.go:83-152 | What becomes of a prototype field: removed, a panic, or kept as the one field that its prototype and node build, with type, name, nullability and metadata at every depth |
| SchemaTransform.NewSchemaFrom | pkg/otel/common/schema/schema.go:66-80 | The living fields of the whole schema, in order, each built from its prototype and node, under the schema's metadata without the markers; or the panic |
| TransformTree.TransformNode.RemoveOptional | pkg/otel/common/schema/transform_node.go:211-226 | The in-place compaction leaves exactly the other transforms, or a single identity |
| TransformTree.TreeBuilder.constructor | pkg/otel/common/schema/transform_node.go:67 | The registry starts empty |
| TransformTree.TreeBuilder.NewDictionary | pkg/otel/common/schema/transform_node.go:126-128 | A dictionary transform gets the registry's size as its id, which no other has |
| TransformTree.TreeBuilder.NewTransforms | pkg/otel/common/schema/transform_node.go:102-144 | NoField for an optional field, a dictionary for a marked one, identity for neither, and one more dictionary for a dictionary type |
| TransformTree.TreeBuilder.NewTransformNode | pkg/otel/common/schema/transform_node.go:86-204 | The node of a field and of everything below it, with all its dictionaries registered in order |
| TransformTree.TreeBuilder.NewTransformNodes | pkg/otel/common/schema/transform_node.go:145-156 | The same for a list of fields |
| TransformTree.TreeBuilder.NewTransformTreeFrom | pkg/otel/common/schema/transform_node.go:61-84 | A fresh node for every field at every depth, with its name, path, transforms and index width; and a registry that holds exactly the tree's dictionary transforms, each under its own id |
| Allocator.AccountsIff | pkg/otel/common/arrow/allocator.go:56-103 | In every reachable state inuse equals the bytes callers hold and is within the limit, if and only if the limit is at most 2^63 |
| Allocator.StepAccounts | pkg/otel/common/arrow/allocator.go:56-103 | Up to 2^63 a call keeps the books, is refused exactly when the memory held after it would exceed the limit, and changes nothing when refused or when the wrapped allocator panics; a shrinking Reallocate is counted through wrap-around |
| Allocator.StepMeaning | pkg/otel/common/arrow/allocator.go:56-103 | One call at any limit, in plain numbers: refused exactly when the wrapped total is over the limit, and then with the unsigned request, the bytes in use and the limit, in their places |
| Allocator.RunAccounts | pkg/otel/common/arrow/allocator.go:56-103 | The same over any run of calls |
| Allocator.NextLiveHeld | pkg/otel/common/arrow/allocator.go:71-74 | Granting a call changes what callers hold by exactly what it asked for |
| Allocator.OverflowingRun | pkg/otel/common/arrow/allocator.go:56-75 | Above 2^63 three allocations wrap the counter to zero while 2^64 bytes are held |
| Allocator.LimitedAllocator.constructor | pkg/otel/common/arrow/allocator.go:30-35 | A new allocator has nothing in use |
| Allocator.LimitedAllocator.Allocate | pkg/otel/common/arrow/allocator.go:56-75 | State and outcome of an allocation |
| Allocator.LimitedAllocator.Reallocate | pkg/otel/common/arrow/allocator.go:77-96 | State and outcome of growing or shrinking a live buffer |
| Allocator.LimitedAllocator.Free | pkg/otel/common/arrow/allocator.go:98-103 | State and outcome of freeing a live buffer |
| LogRoundTrip.WriteThenReadLogs | pkg/otel/logs/arrow/logs.go:192-385 | Log records to id column and attribute table and back: unless an accumulator runs out of groups, every record of the batch, at each resource, scope and position, is in one row of its own; if it has no attributes the row reads no id, and otherwise an id under which the loaded table has exactly its attributes |
| LogRoundTrip.InputsRestored | pkg/otel/logs/arrow/logs.go:192-385 | Where each row is restored and every record is handed on once, every record of the batch is restored |
| LogRoundTrip.FiledAreOwners | pkg/otel/logs/arrow/logs.go:372-378 | The rows filed for a run of records are those of one parent per record with attributes, numbered from zero |
| LogRoundTrip.OwnerOfVisit | pkg/otel/logs/arrow/logs.go:216-223 | The id a record is given in the id column is the one its attributes are filed under |
| LogIds.LogsBuilder.Append | pkg/otel/logs/arrow/logs.go:192-385 | Numbers, flattens and sorts the whole batch and appends every record of it, each once, in some order sorted by resource, scope and trace; succeeds exactly when no accumulator runs out of groups; and then each id column reads, for every record whose owner has attributes, a number under which exactly that owner's entries are filed |
| LogIds.LogsBuilder.AppendRecords | pkg/otel/logs/arrow/logs.go:203-384 | Succeeds exactly when no accumulator runs out of groups; then the three accumulators hold each owner's attributes under the number of owners filed before it, and the three id columns read as those numbers, under each of which exactly that owner's entries are filed |
| LogIds.VisitFiled | pkg/otel/logs/arrow/logs.go:225-247 | A resource, scope or record with attributes is filed, all of it and once, under the number of owners before it, which is what its id column reads |
| LogIds.EveryRecordOwned | pkg/otel/logs/arrow/logs.go:225-247 | Where an owner's attributes do not change between its starts, every record, not only the first, reads the number its own are filed under, and no number exactly when it has none |
| LogIds.ResourcesFiled | pkg/otel/logs/arrow/logs.go:225-232 | The resource column and its accumulator |
| LogIds.ScopesFiled | pkg/otel/logs/arrow/logs.go:237-244 | The scope column and its accumulator |
| LogIds.LogsFiled | pkg/otel/logs/arrow/logs.go:372-378 | The record id column and its accumulator |
| LogIds.LogsBuilder.AppendNext | pkg/otel/logs/arrow/logs.go:212-247 | One record of the loop: files it, remembers its resource and scope, and moves the record counter; fails exactly when an accumulator is full |
| LogIds.LogsBuilder.AppendOne | pkg/otel/logs/arrow/logs.go:212-247 | One record: its id, its resource, its scope and its attributes, in this order |
| LogIds.LogsBuilder.NextLogID | pkg/otel/logs/arrow/logs.go:216-223 | The 16-bit record counter stays equal to the number of groups filed, so it does not wrap while the accumulator has room |
| LogIds.TraceIsGapless | pkg/otel/logs/arrow/logs.go:134-139 | The ids handed to an id column start at 0, never decrease and step by at most 1 |
| LogIds.LastNonNullIsNewest | pkg/otel/common/schema/builder/uint.go:248-291 | What a delta builder compares with is always the newest number filed |
| LogIds.DeltaBuilder.Append | pkg/otel/common/schema/builder/uint.go:248-281 | Panics exactly when the value is below the previous one or too far above it; otherwise the column reads with this value appended; a missing column requests a schema update |
| LogIds.DeltaBuilder.AppendNull | pkg/otel/common/schema/builder/uint.go:283-291 | The column reads with a null appended, and at its start the previous value becomes zero |
| LogIds.AppendLogID | pkg/otel/logs/arrow/logs.go:216-223 | An id column with maximal delta one accepts the next record id whatever came before |
| LogIds.FileLog | pkg/otel/logs/arrow/logs.go:372-378 | Files a record's attributes under its id; fails exactly when the accumulator is full |
| LogIds.FileOwner | pkg/otel/logs/arrow/logs.go:225-247 | Files a resource's or scope's attributes where one starts and appends its id, or a null, to every record |
| LogIds.EachResourceOnce | pkg/otel/logs/arrow/logs.go:225-232 | In resource order each resource that has records is handed to the accumulator once, and no other |
| LogIds.ScopeOnceIff | pkg/otel/logs/arrow/logs.go:237-244 | After sorting, a scope that has records is handed over exactly once if and only if no record of another scope lies, by resource and scope number, strictly between two of its own |
| LogIds.ScopeStartsOnce | pkg/otel/logs/arrow/logs.go:237-244 | In any order of records a scope is handed over once if and only if no other scope comes between two of its records |
| LogIds.GapIffInterrupted | pkg/otel/logs/arrow/optimizer.go:141-158 | Sorting leaves such a gap if and only if the unsorted records hold numbers that interrupt the scope |
| LogIds.ScopesCanRepeat | pkg/otel/logs/arrow/logs.go:237-244 | A batch with one scope under two resources and another scope under the first: whatever order Optimize hands on, the shared scope is handed over more than once |
| LogIds.OptimizedRecords | pkg/otel/logs/arrow/optimizer.go:70-124 | Two records share a resource (or scope) number exactly when they share the identifying text, and each resource is handed to the accumulator once |
| LogOptimizer.ByIdsIsWeakOrder | pkg/otel/logs/arrow/optimizer.go:141-158 | The comparator on resource number, scope number and trace id is a strict weak order |
| LogIds.SortingOrdersResources | pkg/otel/logs/arrow/optimizer.go:141-158 | After sorting, resource numbers never decrease |
| LogOptimizer.Optimize | pkg/otel/logs/arrow/optimizer.go:70-124 | Numbers by order of first occurrence, one per identifying text, and a sorted list of all records, each position of the batch once, with its resource, its scope and their numbers |
| LogOptimizer.OptimizedOnce | pkg/otel/logs/arrow/optimizer.go:75-123 | Any permutation of the flattened batch has every position once and nothing else |
| LogOptimizer.RecordCount | pkg/otel/logs/arrow/optimizer.go:111-117 | A record is handed on as often as the batch holds it at a position with that resource, that scope and their numbers |
| LogOptimizer.RecordTotal | pkg/otel/logs/arrow/optimizer.go:111-117 | As many records are handed on as the scopes of the batch hold together |
| LogOptimizer.ResourceNumbersMeaning | pkg/otel/logs/arrow/optimizer.go:83-88 | A resource's number is the number of different texts before its first occurrence |
| LogOptimizer.ScopeNumbersMeaning | pkg/otel/logs/arrow/optimizer.go:95-100 | A scope's number is the number of different texts before its first occurrence, in the whole batch |
| LogOptimizer.LogsInOrder | pkg/otel/logs/arrow/optimizer.go:141-158 | After sorting no record comes before one with a smaller resource number, or the same and a smaller scope number, or both the same and a smaller trace id, byte by byte |
| LogOptimizer.NumberFor | pkg/otel/logs/arrow/optimizer.go:84-88 | A known text keeps its number and a new one gets the next |
| LogOptimizer.FlattenOneResource | pkg/otel/logs/arrow/optimizer.go:90-118 | The records of one resource, scope after scope |
| LogOptimizer.FlattenOneScope | pkg/otel/logs/arrow/optimizer.go:111-117 | The records of one scope, in order |
| SharedAttributes.SharedAndAppendedRebuild | pkg/otel/common/arrow/attributes.go:308-358 | With two disjoint shared sub-maps, every attribute with a non-empty key is in exactly one place: shared with an equal value, or in exactly one appended row |
| SharedAttributes.AllUnsharedAppendedIff | pkg/otel/common/arrow/attributes.go:308-358 | For any map and any shared sets: the early stop loses no unshared attribute if and only if there is none, the counter starts no lower than their number, or there is one and the counter starts below zero |
| SharedAttributes.OverlapLosesRowsIff | pkg/otel/common/arrow/attributes.go:308-358 | For shared sets taken from the map that is: there is none, the sets overlap in no more keys than were counted and skipped, or one is wanted and the count went negative |
| SharedAttributes.AppendUniqueAttributesWithID | pkg/otel/common/arrow/attributes.go:308-358 | Exactly the first unshared non-empty entries the counter allows are filed, or none if it starts at zero; panics exactly when all groups are used |
| SharedAttributes.AppendedMeaning | pkg/otel/common/arrow/attributes.go:308-358 | What is filed, entry by entry: of the entries with a key that are not shared, in map order, the first as many as there are entries beyond the shared ones, at least one unless that is zero |
| SharedAttributes.KeysPartition | pkg/otel/common/arrow/attributes.go:309-319 | Shared keys, unshared keys and a skipped empty key make up the map |
| SharedAttributes.CommonToAllIff | pkg/otel/common/attributes.go:64-91 | After any number of intersections exactly the attributes every map agrees with are left, as they were, so the order of the maps does not matter |
| SharedAttributes.StartFromEither | pkg/otel/common/attributes.go:31-78 | It does not matter which of two maps the sharing starts from |
| SharedAttributes.MapOfMeaning | pkg/otel/common/attributes.go:31-42 | The shared set made from a map with unique keys has its keys and values |
| SharedAttributes.Shared.constructor | pkg/otel/common/attributes.go:31-42 | Entries are assigned in order, so a later one under the same key wins |
| SharedAttributes.LastEntryWins | pkg/otel/common/attributes.go:31-42 | The shared set made from any map has exactly its keys, each with the value of its last entry |
| SharedAttributes.Shared.IntersectWithMap | pkg/otel/common/attributes.go:66-78 | In any visiting order exactly the attributes without an equal partner are deleted, and their number is returned |
| SharedAttributes.Shared.IntersectWith | pkg/otel/common/attributes.go:80-91 | The same against another shared set, even itself |
| SharedAttributes.Shared.CopyTo | pkg/otel/common/attributes.go:47-51 | In any visiting order the map ends with every shared attribute and its own others |
| Router.FairIff | collector/processor/experimentprocessor/router.go:62-130 | For a table Validate accepts, each route is picked by exactly as many of the draws as its weight says, if and only if the weights really add up below 2^63 |
| Router.ZeroWeightNeverPicked | collector/processor/experimentprocessor/router.go:115-130 | With an honest total a route of weight zero is never picked, wherever it stands |
| Router.PickIff | collector/processor/experimentprocessor/router.go:120-129 | With an honest total route i owns exactly the draws from the weight before it up to its own cumulative weight |
| Router.DrawsAddUp | collector/processor/experimentprocessor/router.go:115-130 | Every draw picks exactly one route |
| Router.WrapAdds | collector/processor/experimentprocessor/router.go:66 | Wrapping at every addition is wrapping once at the end |
| Router.RegisteredTotals | collector/processor/experimentprocessor/router.go:62-81 | The totals the router registers are the cumulative weights these results are about |
| Router.Validate | collector/processor/experimentprocessor/config.go:37-60 | Accepts exactly the non-empty tables of non-negative weights and named exporters whose wrapped total is not zero, and otherwise reports the first fault |
| Router.ExtractExporters | collector/processor/experimentprocessor/router.go:69-78 | The names that are there, in order, each as often as it is named; the first unusable one is an error |
| Router.PresentSelects | collector/processor/experimentprocessor/router.go:69-78 | Which names are kept, and in what order |
| Router.Router.constructor | collector/processor/experimentprocessor/router.go:45-55 | One empty route per table item |
| Router.Router.RegisterExporters | collector/processor/experimentprocessor/router.go:62-81 | Every route gets its cumulative weight and its available exporters, in order, each as often as it is named, unless one is unusable |
| Router.Router.PickRoute | collector/processor/experimentprocessor/router.go:115-130 | The first route whose cumulative weight exceeds the draw, else the last; nothing to draw from exactly when there is no route or the last total is not positive |

## Left out

- Arrow, IPC, zstd, protobuf and CBOR library internals: limits on nesting and size, UTF-8 checks, the byte layout of a token, and dictionary deltas inside a stream.
- I/O, time, logging, statistics and observers: the producer's counters of streams are kept, the rest is not.
- Errors of ipcWriter.Close, and what a writer leaves in its buffer when a write fails part-way.
- Wrap-around of the int64 counters for sub-streams and batches: they are unbounded numbers here.
- Floating-point rounding, infinities and the sign of zero: a double is an exact number or NaN.
- Stability of Go's sort: fields with one name, and rows that compare equal, may come out in any order.
- The other attribute sorters and encodings: the store decoder is fixed to group deltas, so they are not its inverse.
- Reading the resource, scope and metrics tables back: AttrRoundTrip and LogRoundTrip cover tables filed with AppendWithID, and the decoder crash above covers the empty keys that Append lets in.
- CBOR dynamic columns (not implemented by the code), the schema id of dynamic records, and IntAttrColumn.Compare, whose subtraction can overflow.
- DynStore.WriteThenRead: does not model the dictionaries of int, string and bytes columns, whose index is always 16 bits wide, because this part of the code never looks at cardinalities; beyond 65536 different values in one column, over the batches since a column was last added, the index no longer fits.
- Dictionary configurations other than those NewDictionary makes, whose smallest index is 8 bits wide.
- TransformTree.InitialPaths: for prototypes that mark dictionaries on leaves only and no list element as optional; on other prototypes the original can panic, which SchemaTransform models.
- Dictionary transforms that change width or are given up while running: a transform's width is part of the tree, and the path results hold for any widths.
- Sharing of transform nodes between the tree and the field builders: a node is known by its position in the tree, and TransformNode shows the update in place of one node.
- Reconstruction of logs from records (LogsFrom), the other columns of a log record and a failure while writing its body.
- The texts that identify resources and scopes: they are given, and whether different resources can share one is not looked at.
- Retrying exemplars, the sparse-union any-value path, the traces and metrics builders.
- gRPC exporters and receivers, HTTP handlers, benchmarks, data generators, printers and tools.
- Streams.Consumer.Consume: what a crashed call leaves in the stream map is not stated.
- Router.Router.RegisterExporters: what a failed call leaves in the routes is not stated.
- LogIds.LogsBuilder.AppendRecords: what a panicking call leaves behind is not stated.
