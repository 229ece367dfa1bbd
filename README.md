# Calendar request workflow and event record store

This project models the two pieces of logic in a small calendar assistant.

- `CalendarModifier` (`calendar_modifier.dfy`) models the request workflow of
  `calendar-modifier.py`. A router call classifies the user's text as
  `new_event`, `modify_event` or `other` and gives a confidence score.
  Requests scored below 0.7 are declined. Otherwise the workflow dispatches to
  the new-event handler or to the modify-event handler. Both handlers parse
  `date` and `start_time` into a start time and set the end to `duration_minutes`
  later. The new-event handler creates the event and turns any failure into a
  `success=False` response. The modify-event handler calls the calendar update
  and reports success whatever the update returned. The module-level
  `event_id`, written by `create_event` and read by `handle_new_event`, is a
  state value threaded through the functions.
- `EventDatabase` (`database_retrieval.dfy`) models `database_retrieval.py`: a
  table of `(ids, description)` rows mirrored into a document collection under
  the same ids. The class `EventDb` holds the table as a `seq<Row>` and the
  collection as a `map<string, string>`. `AddToDb` allocates `id<n+1>`, appends a
  row and adds a document. `UpdateToDb` takes the top hit of a similarity query
  and overwrites that id's document and every row carrying that id. Both are
  specified by functions on the old state (`Appended`, `Added`, `Updated`,
  `Replaced`). The lemmas prove the table/collection consistency invariant,
  sequential id allocation and idempotence of updates.
- `Wrappers` (`wrappers.dfy`) holds `Option`, `Result` (a `Failure` stands for a
  raised exception and its message) and prefix/infix predicates on strings.

The language model, the date parser, `strftime`, the calendar client setup,
the calendar service and the similarity search are not modelled. Each is an
oracle passed in as a function. The router, the extractions, the parser, the
client setup, the insert and the update each return a value or fail. `format`
(standing for `strftime`) always returns a string. The similarity query returns
a hit list that may be empty; the `IndexError` of taking its first hit is raised
by the model of `update_to_db`, not by the oracle. Timestamps are whole minutes.

Behaviour of the code worth noting:

- The modify path sends the update to the literal event id
  `p9hb6pri1f0vh8gs93517qrsfs` (`HardCodedEventId`). It does not use an id
  resolved from the record store.
- `update_to_db` overwrites every table row whose id equals the matched id, not
  a single row. Under the consistency invariant this is at most one row: the
  row of the matched id if it has one (`ReplacedSequential`), none otherwise
  (`ReplacedAbsent`).
- The modify path lets extraction, parse and client-setup failures escape as
  exceptions. Only the update call itself sits inside a `try`. These failures
  appear as `Failure` in `Processed.reply`. The new-event path catches all of
  them.

## Model

| member | source | states |
|---|---|---|
| `CalendarModifier.ProcessCalendarRequest` | calendar-modifier.py:312-331 | A score below 0.7 gives no response whatever the intent, and a score of exactly 0.7 passes the gate. `new_event` gives the new-event handler's response on the cleaned description, and `event_id` changes as that handler changes it. `modify_event` gives the modify handler's response, or its exception. `other` gives no response. A router failure propagates. |
| `CalendarModifier.RespondsIff` | calendar-modifier.py:319-331 | A response comes back if and only if the router returned, the score is at least 0.7, the intent is not `other`, and for a modification extraction, parsing and client setup returned. |
| `CalendarModifier.NewEventNeverRaises` | calendar-modifier.py:228-274 | A routed request that is not a modification never raises: the new-event path catches everything and `other` is declined. |
| `CalendarModifier.EventIdChangesOnlyOnInsert` | calendar-modifier.py:129-131 | The global `event_id` changes only on a successful new-event response. It then holds an id that the response message names. |
| `CalendarModifier.CombinedDateTime` | calendar-modifier.py:251 | The parser input is the date, one space and the start time when the date is non-empty. Otherwise it is the start time alone. |
| `CalendarModifier.EventWindow` | calendar-modifier.py:250-253 | The window exists exactly when the parser accepts the combined string. The start is the parsed value and the end is exactly `duration_minutes` later. A parser failure passes its message on. The modify path uses the same logic at lines 298-300. |
| `CalendarModifier.CreateCalendarEvent` | calendar-modifier.py:114-133 | A failing client setup raises before the insert. Otherwise it returns the insert's outcome. The global `event_id` becomes the created event's id when the insert returns, and stays unchanged when anything raises. |
| `CalendarModifier.ModifyCalendarEvent` | calendar-modifier.py:135-169 | A failing client setup (lines 148-149, outside the `try`) raises. Otherwise the update fails closed: the result is None exactly when the update raises, and otherwise the updated event. |
| `CalendarModifier.CreatedMessage` | calendar-modifier.py:259 | The success message starts with `Created new event '<name>'` and ends with ` with ` followed by `", ".join(participants)`. It contains the event id, the formatted start and every participant. |
| `CalendarModifier.JoinContainsEach` | calendar-modifier.py:259 | Every participant occurs in `", ".join(participants)`. |
| `CalendarModifier.HandleNewEvent` | calendar-modifier.py:228-274 | The response reports success if and only if extraction, parsing, client setup and insert all return. On failure it has no link and `event_id` is unchanged, and the message is `Failed to create event: ` followed by the text of the step that raised: the extraction's, the parser's, the client setup's or the insert's. On success the insert receives the parsed start, the start plus the duration, and the event name. The link is the created event's `htmlLink` or None, and `event_id` is the created id. The message names the event, its id and its start, and ends with ` with ` and the participants joined by ", ". |
| `CalendarModifier.HandleModifyEvent` | calendar-modifier.py:277-310 | It returns if and only if extraction, parsing and client setup return, and each of those failures propagates with its own message. When it returns, the update was sent to the hard-coded id `p9hb6pri1f0vh8gs93517qrsfs`, with the event identifier as summary, the parsed start, and an end exactly `duration_minutes` later. The response has `success=True`, the link `calendar://modify?event=` plus the event identifier, and a message naming the identifier. What `modify_event` gave back for that update (and the handler discards) is the outcome of the update call on exactly the request sent. |
| `CalendarModifier.ModifyIgnoresUpdateOutcome` | calendar-modifier.py:301-310 | Whether the modify handler returns, its response and the update it sends are the same for every behaviour of the calendar update, including a failed update that gives None. Only the discarded outcome differs. |
| `CalendarModifier.PyStr` | calendar-modifier.py:259 | Formatting a set `event_id` into the message gives the id itself. |
| `CalendarModifier.Join` | calendar-modifier.py:259 | `", ".join` of no participants is empty. Otherwise the result starts with the first participant and ends with the last. |
| `CalendarModifier.ParticipantsListed` | calendar-modifier.py:259 | Every participant occurs in a message that ends with the joined list. |
| `CalendarModifier.FailedToCreate` | calendar-modifier.py:268-274 | The caught-exception response has `success=False`, no link, and the message `Failed to create event: ` followed by the exception's text. |
| `EventDatabase.DecimalString` | database_retrieval.py:24 | `str(n)` is a non-empty string of decimal digits with no leading zero unless `n` is 0. |
| `EventDatabase.RowId` | database_retrieval.py:24 | `f"id{n}"` is `id` followed by `str(n)`. |
| `EventDatabase.EventDb.Empty` | database_retrieval.py:14-15 | Stands for the store that the commented-out lines once created (an empty `ids, description` table): an empty table and collection, which is consistent. |
| `EventDatabase.EventDb.constructor` | database_retrieval.py:16-20 | Stands for `read_csv` and `get_or_create_collection`: the store holds exactly the table and collection that were loaded, with no consistency assumed. |
| `EventDatabase.DecimalRoundTrip` | database_retrieval.py:24 | Reading back the decimal digits of `n` gives `n`. |
| `EventDatabase.RowIdInjective` | database_retrieval.py:24 | Two different row numbers never get the same `id<n>` string. |
| `EventDatabase.Appended` | database_retrieval.py:24 | The table grows by exactly one row at the end. The earlier rows are unchanged, and the new row is `(id<n+1>, description)`. |
| `EventDatabase.AppendKeepsSequential` | database_retrieval.py:24 | If the ids read `id1..idn` before the append, they read `id1..id(n+1)` after it. |
| `EventDatabase.Added` | database_retrieval.py:28-33 | The collection's keys gain the new id. A new id maps to the document, and existing documents are unchanged. |
| `EventDatabase.Updated` | database_retrieval.py:46-49 | The keys are unchanged. The matched id, if present, maps to the message, and every other document is unchanged. |
| `EventDatabase.Replaced` | database_retrieval.py:52 | The row count is unchanged. Every row with the matched id gets the message as its description, and every other row is unchanged. |
| `EventDatabase.ReplacedKeepsIds` | database_retrieval.py:52 | The masked update never changes the row count or the ids column. |
| `EventDatabase.ReplacedAbsent` | database_retrieval.py:52 | If no row has the matched id, the table is unchanged. |
| `EventDatabase.ReplacedSequential` | database_retrieval.py:51-53 | With sequential ids, updating `id<j>` changes row `j` alone. |
| `EventDatabase.AddKeepsConsistent` | database_retrieval.py:19-35 | On a consistent table and collection, the new id is not yet in the collection. The add inserts exactly the new description under it, and the table and collection stay consistent with sequential ids. |
| `EventDatabase.UpdateKeepsConsistent` | database_retrieval.py:38-54 | An update keeps the table and collection consistent, with the same id sets. |
| `EventDatabase.UpdateIdempotent` | database_retrieval.py:46-53 | Applying the same update twice gives the same table and collection as applying it once. |
| `EventDatabase.AssignWhere` | database_retrieval.py:51-53 | The row-by-row masked assignment computes `Replaced`. |
| `EventDatabase.EventDb.AddToDb` | database_retrieval.py:19-35 | The new table is the old table with `(id<n+1>, description)` appended. The collection gets the description under the same id, and consistency is preserved. |
| `EventDatabase.EventDb.UpdateToDb` | database_retrieval.py:38-54 | An empty hit list raises `IndexError` and nothing changes. Otherwise the first hit is the matched id: the collection's document and every table row with that id get the message, and consistency is preserved. |

## Left out

- `gmail_reader.py` is not part of this model. It consists of OAuth, token file I/O and mail API calls.
- The language-model calls are replaced by their outcomes: the router's result and the extraction functions `extractNew` and `extractModify`. Prompts, the `datetime.now()` date context and model behaviour are not modelled.
- Credential loading and client construction are the oracle `connect`, which returns or raises. The same outcome is used for every call within one request.
- The fixed calendar address, the `America/Toronto` time zone and `isoformat` are formatting of the request body and are not modelled.
- `dateutil.parser.parse` and `strftime` are the oracles `parse` and `format`. Date-string parsing is not modelled.
- Timestamps are unbounded integers. Python's `OverflowError` for dates out of range is not modelled.
- `confidence_score` is a `real` compared with 7/10. Float rounding is not modelled.
- The calendar insert and update are oracles. The model assumes that an inserted event always has an `id` key, so the `KeyError` of `created_event["id"]` is not modelled.
- The similarity search is an oracle from the collection and the query text to its top hits. The round trip from adding a record to finding it again by its own text depends on the embedding, so it is not stated.
- Extracting a `Calendar_ID=` token from a matched document is not part of these files, so it is not modelled.
- Chroma's handling of ids is assumed: `collection.add` with an id already present keeps the old document, and `collection.update` of a missing id changes nothing.
- EventDatabase.EventDb.AddToDb: assumes both writes succeed. In the source the CSV is written (line 25) before `collection.add` (line 28), so a failure between them leaves the table and the collection out of step. `AddKeepsConsistent` and the method's consistency clause hold only when nothing raises.
- EventDatabase.EventDb.UpdateToDb: assumes both writes succeed. In the source `collection.update` (line 46) runs before the CSV is read and written (lines 51-53), so a failure between them leaves the table and the collection out of step. `UpdateKeepsConsistent` and the method's consistency clause hold only when nothing raises.
- CSV reading and writing (`read_csv`, `to_csv`), the `path` argument and the module-level script code are left out. The table is held in memory.
- The collection object that `add_to_db` and `update_to_db` return is the `EventDb` object itself.
- The unused fields of `ModifyEventDetails` (`changes`, `participants_to_add`, `participants_to_remove`) are carried but unused, as in the source.
- The commented-out variant of `modify_event` and the commented experiments are left out.
- There is no concurrency. The workflow runs one request at a time.
