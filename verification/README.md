# jenot note stores, editor buffer and router in Dafny

This project models the logic core of jenot, a note-taking web app:

- **The note stores.**
  - `NoteStore` keeps an in-memory array. There are two versions, one that stamps `updated` and an earlier one that does not.
  - `DBNoteStore` keeps an IndexedDB object store keyed by `id`.
  - `SyncedNoteStore` is an IndexedDB store mirrored to a remote notes API through `WebNoteStore`. It runs a watermark-based push-then-pull sync pass.
- **The editor.**
  - The text buffer of the `editable-area` element: a textarea's value with its selection.
  - The rendering of line breaks as `<br>`.
  - The `readonly` and `checked` attribute parse.
  - The `note-form` conversions between a text note and a task list.
- **The router.** It resolves a path to an exact route, otherwise to the `"*"` route, otherwise to an error. It also extracts the first segment of a pathname.

The model is organised by module:

| module | file | flavour |
|---|---|---|
| `Wrappers` | `wrappers.dfy` | The `Option` and `Result` datatypes. |
| `Strings` | `strings.dfy` | JavaScript `split`/`join` on one character, decimal rendering of a clock value (`"id_" + now`) and its parse. |
| `Notes` | `notes.dfy` | The note record shared by all stores. A nullable field is an `Option`. JavaScript truthiness and `> 0` on nullable timestamps are written out. |
| `NoteList` | `note_list.dfy` | The array operations `find`, `filter` by id and `map` replacing by id, with their order and "nothing else changes" lemmas. |
| `Store` | `store.dfy` | Class `NoteStore`. The `notes` array is a `seq` field that each method reassigns. |
| `LegacyStore` | `legacy_store.dfy` | The earlier class `NoteStore`. It has no `updated` stamp, and `add` reads the clock twice. |
| `DbStore` | `db_store.dfy` | Class `DBNoteStore` over `map<string, Note>`. `add` is insert-only and `update` is insert-or-replace. |
| `Remote` | `remote.dfy` | Class `WebNoteStore`. The server is a pair of oracle functions, and every request is recorded in a ghost log. It also holds query-string building and the server-side decoding of that string. |
| `SyncedStore` | `synced_store.dfy` | Class `SyncedNoteStore` over `map<string, Record>`, where a record is a note or the `"meta"` bookkeeping record. The sync pass is a method, specified by the pure functions `Visible`, `Applied` and `PassOutcome`. |
| `Editor` | `editor.dfy` | Class `EditableArea` over a textarea record `(value, selectionStart, selectionEnd)`, plus class `TaskListItem`. HTML's rules for assigning `value`, `selectionStart` and `selectionEnd` are written out. |
| `NoteForm` | `note_form.dfy` | The pure conversions and the `contentMap` lookup, plus class `NoteForm` holding the edited `{type, content}`. |
| `Routing` | `routing.dfy` | Route resolution as pure functions over the route list. The history stack is a value. |

`EditableArea` exists three times: in `priv/static/js/components.js`, `js/components.js` and `js/jenot.js`. The three copies have the same buffer logic. Likewise `renderText` in `js/components.js` and `render` in `js/jenot.js` are one expression. Each is modelled once, and the table below cites every copy.

Clock readings (`Date.now()`, `new Date()`) are method parameters. A method that reads the clock twice takes two parameters. The remote server is a pair of functions supplied when a `WebNoteStore` is built:

- `onPost` says what a POST of a note yields;
- `onGet` says what a GET of a URL yields;
- in both cases the answer is a transport fault, or a response with an `ok` flag and a body that may fail to parse.

The two functions are fixed for the store's lifetime: the same pushed note, or the same pull URL, always gets the same answer. The modelled server therefore neither changes over time nor reflects earlier pushes, and reasoning across several passes must keep that in mind.

### Sync behaviour worth knowing

- **No newer-wins check on apply.** The sync pass writes every pulled note as it arrives, so a note's `updated` can go down: `SyncedStore.PullMayLowerUpdated` exhibits this. A second identical apply changes nothing (`SyncedStore.AppliedIdempotent`), and the apply step itself sends no request.
- **Pulled notes can be pushed again.** The watermark a pass commits is the time read before its push, so a pulled note stamped later than that is listed for the next pass's push and goes back to the remote (`SyncedStore.PulledNoteRepushed`).
- **No guard against overlapping sync passes.** Nothing stops the five-second timer from starting a pass while another runs. `Sync` is modelled as one atomic step, and no mutual exclusion is claimed.
- **Failed local writes still advance the watermark.** The apply step is an unawaited `forEach`, and every object-store write attaches only a success handler. A pulled note whose write fails or never settles is therefore lost for good unless the server changes it again. The model assumes writes succeed (see "## Left out").
- **Two kinds of push failure.** A push that fails at the HTTP level settles to `"no_network"`. A push whose reply is `ok` but not JSON rejects the whole pass. Neither failure changes local state.

## Model

| member | source | states |
|---|---|---|
| Notes.NoteId | priv/static/js/synced-store.js:131-135 | The id of a note added at clock value `now` is `"id_"` followed by the decimal digits of `now` (no leading zero); `NoteIdInjective` makes it unique per millisecond. |
| Notes.NoteIdInjective | priv/static/js/store.js:36-39 | Two added notes get the same id exactly when they were added in the same millisecond. |
| NoteList.Find | priv/static/js/store.js:33 | `find` by id returns the first note with that id, or nothing exactly when no note has it. |
| NoteList.Without | priv/static/js/store.js:52 | `filter` keeps exactly the notes whose id differs, and never lengthens the array. |
| NoteList.ReplaceById | priv/static/js/store.js:57 | `map` keeps the length. Each position holds the new note if its id matched, and its old note otherwise. |
| NoteList.WithoutAppend | priv/static/js/store.js:51-53 | Removing distributes over concatenation, so the kept notes keep their relative order. |
| NoteList.WithoutCounts | js/store.js:47-49 | Removing keeps every copy of every note with another id and no copy of the removed id. |
| NoteList.FindWithout | priv/static/js/store.js:51-53 | After `remove({id})`, `get(id)` finds nothing. |
| NoteList.FindFront | priv/static/js/store.js:35-45 | After `add` prepends a note, `get` of its id returns it. |
| NoteList.FindReplaced | priv/static/js/store.js:55-58 | After `update`, `get` of the note's id returns the new note exactly when the id was present before. |
| NoteList.ReplaceKeepsOthers | js/store.js:51-53 | `update` changes nothing that `get` returns for any other id. |
| Store.NoteStore.constructor | priv/static/js/store.js:15-19 | A store starts with the notes read from local storage. |
| Store.NoteStore.All | priv/static/js/store.js:32 | `all` returns the current array, unfiltered and in order. |
| Store.NoteStore.Get | priv/static/js/store.js:33 | `get(id)` returns the first note with that id, or nothing exactly when none has it. |
| Store.NoteStore.Add | priv/static/js/store.js:35-45 | `add` prepends one note: id `"id_" + now`, `created = updated = now`, only type and content copied. The old notes follow in order. |
| Store.NoteStore.Reset | priv/static/js/store.js:47-49 | `reset` leaves the array empty. |
| Store.NoteStore.Remove | priv/static/js/store.js:51-53 | `remove({id})` keeps exactly the notes with other ids, in order. |
| Store.NoteStore.Update | priv/static/js/store.js:55-58 | `update` stamps `updated = now` and replaces every same-id note with it. Length and all other notes are unchanged. |
| LegacyStore.NoteStore.constructor | js/store.js:14-18 | A store starts with the notes read from local storage. |
| LegacyStore.NoteStore.All | js/store.js:31 | `all` returns the current array. |
| LegacyStore.NoteStore.Get | js/store.js:32 | `get(id)` returns the first note with that id, or nothing. |
| LegacyStore.NoteStore.Add | js/store.js:34-41 | `add` prepends a note with id `"id_" + Date.now()`, the given type and content, and a separately read `created`. There is no `updated`. The old notes follow in order. |
| LegacyStore.NoteStore.Reset | js/store.js:43-45 | `reset` empties the array. |
| LegacyStore.NoteStore.Remove | js/store.js:47-49 | `remove({id})` keeps exactly the notes with other ids, in order. |
| LegacyStore.NoteStore.Update | js/store.js:51-53 | `update` replaces same-id notes unchanged, with no timestamp. Length and other notes are unchanged. |
| DbStore.DBNoteStore.constructor | priv/static/js/db-store.js:2-7 | A store opened on a database holds its records, each under its own id. |
| DbStore.DBNoteStore.All | priv/static/js/db-store.js:9-20 | `all` returns every stored record, with no filtering. |
| DbStore.DBNoteStore.Get | priv/static/js/db-store.js:22-36 | `get(id)` returns the record under `id`, or nothing exactly when there is none. |
| DbStore.DBNoteStore.Add | priv/static/js/db-store.js:38-59 | `add` inserts a fresh record with `created = updated = now` and only type and content copied. It succeeds exactly when the id is free. A taken id writes nothing. |
| DbStore.DBNoteStore.Reset | priv/static/js/db-store.js:62-75 | `reset` clears the store. |
| DbStore.DBNoteStore.Remove | priv/static/js/db-store.js:77-90 | `remove({id})` deletes exactly the key `id`. |
| DbStore.DBNoteStore.Update | priv/static/js/db-store.js:92-107 | `update` stamps `updated = now` and puts the note under its id, inserting or replacing. Other keys are untouched. |
| Remote.Settle | priv/static/js/synced-store.js:52-69 | A transport fault or a non-ok status settles to `"no_network"`. An ok response settles to its JSON body, or rejects when the body does not parse. |
| Remote.EndpointOrRoot | priv/static/js/synced-store.js:3 | An empty endpoint falls back to `"/"`, so the endpoint is never empty. |
| Remote.ListParams | priv/static/js/synced-store.js:7-13 | `since` is added, as the decimal watermark, exactly when `lastSync > 0`. `deleted=true` is added exactly when `includeDeleted`. |
| Remote.ListUrl | priv/static/js/synced-store.js:14-16 | The list URL starts with the collection URL. It is the bare collection URL when neither parameter applies. |
| Remote.DecodeEncodeParam | priv/static/js/synced-store.js:9-12 | A `name=value` pair without `&` or `=` in its parts decodes back to itself. |
| Remote.QueryRoundTrip | priv/static/js/synced-store.js:14 | A `?`-suffix built from plain pairs decodes to exactly those pairs, in order. |
| Remote.ListUrlQuery | priv/static/js/synced-store.js:14-16 | For an endpoint without `?`, the part of the list URL from its first `?` on is exactly the query suffix built from the parameters (empty when there are none). |
| Remote.ListQueryRecovered | priv/static/js/synced-store.js:6-20 | A server cutting the list URL at its first `?` and parsing the query sees `since` exactly when `lastSync > 0`, parsing back to `lastSync`. It sees `deleted=true` exactly when `includeDeleted`. |
| Remote.WebNoteStore.constructor | priv/static/js/synced-store.js:2-4 | The client keeps `endpoint` or `"/"` and has sent nothing yet. |
| Remote.WebNoteStore.Add | priv/static/js/synced-store.js:30-39 | `add` sends one POST of the note to the collection URL and settles as `#request` maps the answer. |
| Remote.WebNoteStore.All | priv/static/js/synced-store.js:6-20 | `all` sends one GET of the list URL and settles as `#request` maps the answer. |
| SyncedStore.Visible | priv/static/js/synced-store.js:81-101 | Only stored notes are listed: never the `"meta"` record, tombstones only with `includeDeleted`, and when `since > 0` only notes with `updated > since`. Every stored note passing these filters is listed. |
| SyncedStore.MetaNeverListed | priv/static/js/synced-store.js:90-92 | In a store keyed by id, the `"meta"` key is never listed, whatever the arguments. |
| SyncedStore.TombstoneListing | priv/static/js/synced-store.js:90-98 | A tombstone is never listed without `includeDeleted`. With it, the tombstone is listed whenever its `updated` passes the `since` filter. |
| SyncedStore.AppliedAt | priv/static/js/synced-store.js:207-210 | After the apply step, a key some pulled note carries holds the last such note exactly as pulled. Every other key keeps its record. |
| SyncedStore.AppliedKeyed | priv/static/js/synced-store.js:209 | Applying pulled notes keeps every record under its own id. |
| SyncedStore.AppliedIdempotent | priv/static/js/synced-store.js:209 | Applying the same pulled notes twice leaves the store as one application did. |
| SyncedStore.PullMayLowerUpdated | priv/static/js/synced-store.js:209 | The apply step has no newer-wins check: a pulled note with a lower `updated` replaces the local copy. |
| SyncedStore.CommittedPass | priv/static/js/synced-store.js:207-220 | After a completed pass the watermark is the pass's start time. Pulled notes are stored exactly as the remote sent them, and keys that nothing pulled touched are unchanged. |
| SyncedStore.PulledNoteRepushed | priv/static/js/synced-store.js:190-222 | After a committed pass with watermark `now`, a pulled note whose `updated` is later than `now` is listed by `all(now, true)`, so the next pass pushes it back. |
| SyncedStore.SyncedNoteStore.constructor | priv/static/js/synced-store.js:73-79 | A store opened on a database holds its records under their ids and keeps the given remote client, or none. |
| SyncedStore.SyncedNoteStore.All | priv/static/js/synced-store.js:81-101 | `all(since, includeDeleted)` lists exactly `Visible` of the stored records, each being a stored note that passes the filter. |
| SyncedStore.SyncedNoteStore.Get | priv/static/js/synced-store.js:104-118 | `get(id)` returns the record under `id`, or nothing exactly when there is none. |
| SyncedStore.SyncedNoteStore.GetMeta | priv/static/js/synced-store.js:120-122 | `getMeta` returns the stored bookkeeping record, or `{lastSync: null}` when there is none. |
| SyncedStore.SyncedNoteStore.SetMeta | priv/static/js/synced-store.js:124-127 | `setMeta` writes the record under `"meta"` and nothing else. `getMeta` then returns it. |
| SyncedStore.SyncedNoteStore.Add | priv/static/js/synced-store.js:129-156 | `add` inserts `{id: "id_"+now, created = updated = now, deleted: null}` exactly when the id is free, and only then echoes one POST of it to the remote. A taken id changes nothing. |
| SyncedStore.SyncedNoteStore.Update | priv/static/js/synced-store.js:166-188 | Without `skipNetwork`, `update` stamps `updated = now` and echoes one POST. With `skipNetwork`, the note keeps its `updated` and no request is sent. Either way the note is put under its id and other keys are untouched. |
| SyncedStore.SyncedNoteStore.Remove | priv/static/js/synced-store.js:158-164 | `remove` writes a tombstone, stamped `deleted` and then `updated` from two clock readings, under the note's id. It echoes that tombstone to the remote. |
| SyncedStore.SyncedNoteStore.PushAll | priv/static/js/synced-store.js:196-199 | The push step posts each listed note once and nothing else. Its result is a rejection if any post rejected, otherwise offline if any post settled to `"no_network"`. |
| SyncedStore.SyncedNoteStore.ApplyPulled | priv/static/js/synced-store.js:207-210 | The apply step writes each pulled note in order with `skipNetwork`, leaving `Applied` of the old records. It sends no request. |
| SyncedStore.SyncedNoteStore.Sync | priv/static/js/synced-store.js:190-222 | A pass pushes `all(lastSync, true)`. Only if no push failed does it pull with the same watermark. Only if the pull succeeded does it apply the pulled notes and set `lastSync` to the time read before the push. A pass that stops early changes no local record, and the requests sent are exactly the pushes plus, when the push succeeded, the pull. |
| Editor.AttributeIsSet | priv/static/js/components.js:82 | `readonly` (and `checked`, at line 274) counts as set exactly when present with value `""` or `"true"`. An absent attribute is unset. |
| Editor.ReplaceBreaks | js/components.js:93 | The replacement leaves no `\r` or `\n` in the result. |
| Editor.RenderText | js/components.js:92-94 | `renderText` (and the identical `render` at js/jenot.js:91-93) always ends in `<br>` and contains no `\r` or `\n`. Text without breaks becomes `text + "<br>"`. |
| Editor.ReplaceBreaksPrefix | js/components.js:93 | Break-free text passes through the replacement unchanged, whatever follows it. |
| Editor.ReplaceBreaksLines | js/components.js:93 | Lines joined throughout by one break form (`\r\n`, `\r` or `\n`) come out joined by `<br>`. Each break becomes exactly one `<br>`, and `\r\n` is never two. |
| Editor.EditableArea.constructor | priv/static/js/components.js:12-27 | A connected element's textarea holds the element's text with the caret at its end, and is disabled exactly when `readonly` is set. |
| Editor.EditableArea.SetText | priv/static/js/components.js:39-42 | Setting `value` replaces the text. A change collapses the selection to the end; an unchanged text leaves the buffer as it was. |
| Editor.EditableArea.FocusStart | priv/static/js/components.js:44-47 | `focusStart` leaves the text and puts the caret at the start, so `cursorAtStart` holds. |
| Editor.EditableArea.FocusEnd | priv/static/js/components.js:49-52 | `focusEnd` leaves the text and puts the caret at the end, so `cursorAtEnd` holds. |
| Editor.EditableArea.CutTextAfterCursor | priv/static/js/components.js:54-61 | The kept text and the returned text concatenate to the old value. The kept text is as long as the old selection start, and the caret ends at its end. The copies at js/components.js:52-59 and js/jenot.js:51-58 are the same code. |
| Editor.EditableArea.Append | priv/static/js/components.js:63-70 | `append(t)` makes the value `old + t` and restores both selection offsets. The copies at js/components.js:61-68 and js/jenot.js:60-67 are the same code. |
| Editor.EditableArea.CursorAtStart | priv/static/js/components.js:72-74 | `cursorAtStart` holds exactly when the caret is collapsed at offset 0. This appears identically at js/components.js:70-72 and js/jenot.js:69-71. |
| Editor.EditableArea.CursorAtEnd | priv/static/js/components.js:76-78 | `cursorAtEnd` holds exactly when the caret is collapsed at the end of the text. This appears identically at js/components.js:74-76 and js/jenot.js:73-75. |
| Editor.EditableArea.UpdateReadonly | priv/static/js/components.js:80-85 | The textarea is disabled exactly when `readonly` is set; text and selection are untouched. The copy at js/components.js:78-83 is the same code. |
| Editor.TaskListItem.constructor | priv/static/js/components.js:233 | A connected item's checkbox is ticked exactly when `checked` is set. |
| Editor.TaskListItem.UpdateChecked | priv/static/js/components.js:272-277 | The checkbox is ticked exactly when the attribute is present with value `""` or `"true"`. The copy at js/jenot.js:182-187 is the same code. |
| NoteForm.ConvertToTaskList | priv/static/js/components.js:421-425 | One task per `\n`-separated line, so there are (number of `\n`) + 1 tasks. All are unchecked and hold no `\n`, and their texts are the lines in order. |
| NoteForm.ConvertToNote | priv/static/js/components.js:427-430 | The task texts joined by `\n`, in order, with the checked flags dropped: no tasks give `""`, and splitting the result at `\n` gives back the texts of a non-empty list of single-line tasks. |
| NoteForm.ConvertRoundTrip | priv/static/js/components.js:421-430 | `convertToNote(convertToTaskList(s)) == s` for every string. |
| NoteForm.ConvertBack | priv/static/js/components.js:421-430 | A non-empty list of unchecked single-line tasks survives `convertToNote` then `convertToTaskList`. |
| NoteForm.ContentKeyKnown | priv/static/js/components.js:432-437 | `contentMap` has an entry for a `type_typeof` key exactly when the type is `note` or `tasklist`. |
| NoteForm.Normalise | priv/static/js/components.js:543-546 | The lookup succeeds exactly for `note` and `tasklist`, and then leaves content of the type's shape. Content already of that shape is kept as is. Otherwise tasks become lines or lines become tasks. |
| NoteForm.NormaliseIdempotent | priv/static/js/components.js:432-437 | Normalising twice for one type changes nothing more. |
| NoteForm.SwitchBackRestoresText | priv/static/js/components.js:458-470 | Switching a text note to a task list and back restores its text. |
| NoteForm.NoteForm.constructor | priv/static/js/components.js:440-447 | A new form edits `{type: "note", content: ""}`. |
| NoteForm.NoteForm.SetContent | priv/static/js/components.js:543-557 | `#setContent` brings the content to its type's shape, keeping the type. When the type has no conversion, the call throws and the note is unchanged. |
| NoteForm.NoteForm.Load | priv/static/js/components.js:517-521 | `load` edits the given note with its content normalised to its type, or leaves it as given when the type has no conversion. |
| NoteForm.NoteForm.Reset | priv/static/js/components.js:523-531 | `#reset` restores `{type: "note", content: ""}`. |
| NoteForm.NoteForm.SelectType | priv/static/js/components.js:458-470 | A mode button sets the type and converts the content to the type's shape. |
| Routing.FindRoute | priv/static/js/router.js:36 | `find` by path returns a route with that path, or nothing exactly when no route has it. |
| Routing.FindRouteFirst | priv/static/js/router.js:36 | Among routes with the same path, the first in list order is found. |
| Routing.MatchURLToRoute | priv/static/js/router.js:35-43 | An exact match is returned whenever one exists, otherwise a `"*"` route. Nothing is returned exactly when neither exists. |
| Routing.MatchExactFirst | priv/static/js/router.js:35-43 | The first route with exactly the path is chosen, over both later exact routes and `"*"`. |
| Routing.MatchWildcardFirst | priv/static/js/router.js:38-40 | With no exact match, the first `"*"` route is chosen. |
| Routing.LoadRoute | priv/static/js/router.js:16-24 | `loadRoute` fails with "Route not found!" exactly when there is neither an exact nor a `"*"` route. Otherwise it runs a route with that path or `"*"`. |
| Routing.InitialPath | priv/static/js/router.js:46-47 | The initial path never contains `/`. |
| Routing.InitialPathNoSlash | priv/static/js/router.js:46-47 | A pathname without `/` splits into one part and resolves to `""`. |
| Routing.InitialPathSegment | priv/static/js/router.js:45-50 | The initial path is the segment between the first `/` and the next `/` or the end. |
| Routing.Redirect | priv/static/js/router.js:31-33 | `redirect` loads the route and leaves the history as it was. |
| Routing.NavigateTo | priv/static/js/router.js:26-29 | `navigateTo` pushes the path onto the history, even when the route then fails, and loads the route. |
| Routing.NavigateLikeRedirect | priv/static/js/router.js:26-33 | `navigateTo` and `redirect` resolve a path to the same route. Only the history differs, by the pushed path. |
| Routing.LoadInitialRoute | priv/static/js/router.js:45-50 | `loadInitialRoute` loads the route of the pathname's first segment without touching the history. |

## Left out

- Async ordering: every store method is one atomic step. The fire-and-forget echoes (`synced-store.js:153`, `:185`), the unawaited apply loop (`:209`) and the unawaited `setMeta` (`:219`) are modelled as running in program order.
- Overlapping sync passes: a pass is one atomic step. The app's interval timer can start a pass while another runs; that interleaving, and the lost watermark update it allows, is not modelled.
- SyncedStore.SyncedNoteStore.All: returns the listed notes as a map keyed by id. The order of IndexedDB `getAll` (ascending key) is not kept.
- DbStore.DBNoteStore.All: returns the records as a map keyed by id. The order of IndexedDB `getAll` (ascending key) is not kept.
- SyncedStore.SyncedNoteStore.PushAll: the pushes run in an arbitrary order and are modelled one after another. `Promise.all` issues them concurrently and keeps array order in its result. The result is only scanned for failures, so the order does not change the outcome.
- SyncedStore.SyncedNoteStore.Add: a taken id writes nothing and sends nothing, as modelled. The code's returned promise then never settles, because no error handler is attached; that hang is not modelled.
- SyncedStore.SyncedNoteStore.Sync: object-store writes are assumed to succeed, and a pulled body is assumed to be an array of well-formed notes (`Http<seq<Note>>` cannot carry anything else). In the code, each write attaches only `onsuccess` (synced-store.js:149, :181; db-store.js:57, :72, :87, :104), so a failed write leaves its promise pending. A pulled element without a usable string `id` makes `put` throw. Because the apply loop at synced-store.js:209 is not awaited, the `.then` at :217-219 advances `lastSync` even when an apply write failed or hangs. The model's Synced outcome, and `SyncedStore.CommittedPass`, therefore promise that every pulled note is stored as sent, which the code does not guarantee.
- SyncedStore.SyncedNoteStore.Sync: with no remote configured, the code throws a `TypeError` on the first use of `webStore`. The model returns `NoRemote` at once. In both cases no record changes and no request is sent.
- SyncedStore.SyncedNoteStore.Sync: the watermark is written as `Meta(Some(now))`. When a note (not a bookkeeping record) sits under the key `"meta"`, the code would write that note back with a `lastSync` field added; the model writes a plain bookkeeping record instead.
- DbStore.DBNoteStore.Add: a taken id writes nothing, as modelled, and the method reports `added == false`. The code's returned promise never settles in that case, because only a success handler is attached; that hang is not modelled.
- Remote.ListQueryRecovered: the server-side reading is proved only for an endpoint without `?`. With a `?` in the endpoint the server would cut the URL inside the endpoint.
- Editor.EditableArea: offsets and lengths count characters (Unicode scalar values), while a browser's `value.length`, `selectionStart` and `selectionEnd` count UTF-16 code units. The two differ once the text holds a character outside the Basic Multilingual Plane, such as an emoji.
- Store.NoteStore.All / LegacyStore.NoteStore.All: `all` hands out the array object itself, and `add` then changes that object in place with `unshift`, while `reset`, `remove` and `update` assign a fresh array. A caller holding an earlier `all()` result therefore sees later additions but not later removals or updates. The model returns the sequence as a value, so that aliasing is not captured.
- Argument mutation: `update`, `remove` and `setMeta` mutate the caller's object (`note.updated`, `note.deleted`, `meta.id`). The model returns the new value (`stamped`/`written`) instead of aliasing it.
- IndexedDB connection plumbing (`#connect`, `#dbConnect`, upgrade handling, error logging), localStorage persistence (`saveStorage`, `#readStorage`, the `storage` listener) and the `save` event: these are I/O. The constructors take the stored contents as a parameter.
- `WebNoteStore.get` and `WebNoteStore.update`: no store method calls them. `fetch`, headers and JSON encoding are folded into the `onPost`/`onGet` oracles.
- Percent-encoding of query parameters: the only values sent (`"true"` and decimal numbers) never need it.
- LegacyStore.NoteStore.Add: `created` is a `Date` object in the code. It is modelled as its clock value in milliseconds.
- Textarea line-break normalisation: the browser reports `\r\n` in a textarea's value as `\n`. That is not modelled; `Editor.EditableArea` keeps the text as assigned.
- Focus, the `#sync` display sizing, DOM construction, events (`contentChange`, `addTask`, `removeTask`, …), drag and drop with `getDragAfterElement` (floating-point geometry), the `TaskList` element and `NoteForm`'s UI updates are not modelled.
- The `if (this.inputElement)` / `if (this.checkboxElement)` guards in `#updateReadonly` / `#updateChecked`: an element that is not yet connected does nothing. The model's elements are always connected.
- NoteForm.NoteForm.Load: `load` keeps the caller's note object, with id and timestamps, and later mutates it. The model keeps only `type` and `content`. The form's `contentChange` listener that copies the editor value back is not modelled.
- Route callbacks: a route's callback is opaque and its effect is not modelled. `popstate` handling and `Router.init` only call `loadInitialRoute`.
- `dom.js` (`renderText` with link detection, `html`), reminders, notifications, the service worker and the app wiring in `priv/static/js/jenot.js` are not part of this model.
