# Stillwrite core, modelled in Dafny

Stillwrite is a freewriting editor with four parts:

- One text buffer.
- A fifteen-minute writing timer.
- A history drawer of past notes.
- An optional sign-in.

Notes are autosaved one second after typing stops. A guest's notes and settings live in browser local storage, under one key for the whole list of notes and one for the settings. A signed-in user's notes live in a per-user cloud document collection, and their settings in one cloud settings document. Both go through one storage adapter.

This project models the sequential logic of that app. Every operation is proved against a specification.

- `types.dfy` (module `Types`) holds the records: a note, the settings, a user, and JavaScript truthiness of a nullable string.
- `entries.dfy` (module `Entries`) holds the list operations that the shell, the adapter and the drawer share:
  - the snippet derivation
  - `findIndex` and `find` by id
  - the replace-or-prepend upsert
  - the delete filter
  - the `createdAt`-descending sort

  Id uniqueness is stated by counting (`CountId`). Every operation is proved to keep ids unique.
- `countdown.dfy` (module `Countdown`) holds the timer as a state machine (tick, typing auto-arm, reset) and the `mm:ss` renderer, with its inverse.
- `storage.dfy` (module `Storage`) holds the adapter as a class `Store`. Its fields are the two local keys and the per-user cloud collections and settings documents. A guest save or delete reads the whole list, changes it, and writes it back. Cloud calls that fail are swallowed.
- `history_panel.dfy` (module `History`) holds the drawer:
  - the sorted, labelled and highlighted rows
  - the header count and the empty notice
  - the `deleteId` confirmation state as a class
- `auth_dialog.dfy` (module `Auth`) holds the sign-in dialog as a class: the submit and Google guards, the calls made in order, and the error-code message table.
- `app.dfy` (module `App`) holds the editor shell as a class `Editor`, covering:
  - loading after a sign-in change
  - the one-shot choice of initial content
  - keystrokes and the timer
  - the autosave effect and the debounced save as one atomic step
  - new, open and delete of a note
  - settings changes

Time (`Date.now()`), the id generator and whether a cloud or authentication call fails are all parameters:

- `now` stands for `Date.now()`.
- `freshId` is the generated id. It must be non-empty and not yet used.
- `fault` and `Outcome` say whether a call fails.

Local storage plus JSON parsing is abstracted to what a read yields:

- `Missing`, `Unparseable`, `NonArray` or `List(entries)` for the notes key.
- `NoSettings`, `UnparseableSettings` or `StoredSettings(s)` for the settings key.

## Model

| member | source | states |
|---|---|---|
| Entries.Snippet | App.tsx:162 | at most 33 characters and no newline; position i is content[i] with a newline turned into a space; ends in "..." with length 33 exactly when the content is longer than 30, and otherwise has the content's length |
| Entries.IndexOf | App.tsx:174 | -1 when no note has the id, otherwise the first index holding it |
| Entries.Find | App.tsx:167 | a note is found exactly when one carries the id, and the found note is the first one in the list with that id |
| Entries.Upsert | App.tsx:173-182 | when the id is present: same length, the note at the first index holding the id, every other position unchanged; when absent: the note prepended to the unchanged list |
| Entries.UpsertCounts | App.tsx:173-182 | after an upsert into a list with at most one note of that id, exactly one note has it; every other id's count is unchanged; unique ids stay unique |
| Entries.UpsertFind | App.tsx:173-182 | a lookup of the upserted id returns the new note, and lookups of every other id are unchanged |
| Entries.RemoveId | App.tsx:236 | no note with the id remains; every other id keeps its count; the length drops by exactly the number removed; a note survives iff it was present and has another id |
| Entries.RemoveIdIdempotent | services/storage.ts:178-182 | deleting twice equals deleting once; unique ids stay unique; a lookup of the id finds nothing |
| Entries.SortByCreatedDesc | components/HistoryPanel.tsx:20-22 | a permutation of the input (equal multisets) ordered by createdAt non-increasing |
| Entries.SortCount | components/HistoryPanel.tsx:21 | sorting keeps the number of notes carrying each id |
| Entries.SortUnique | services/storage.ts:194 | sorting a list with unique ids yields unique ids |
| Countdown.Reset | App.tsx:384-387 | the full 900-second session, stopped, a reachable state |
| Countdown.Arm | App.tsx:308-312 | typing leaves the count alone and starts the timer iff it was running or stopped at exactly 900; keeps reachable states reachable |
| Countdown.Tick | App.tsx:127-141 | a running timer with time left drops by one and stops exactly when it reaches zero; otherwise nothing changes; never negative; keeps states in [0, 900] reachable |
| Countdown.TicksFrom | App.tsx:127-141 | started with s seconds, k ticks leave s-k running while k < s, and 0 stopped afterwards |
| Countdown.SessionCountdown | App.tsx:35 | from a started session, k ticks leave 900-k seconds while k < 900, then the timer is stopped at zero |
| Countdown.RunValid | App.tsx:127-141 | any sequence of ticks, keystrokes and resets keeps the count in [0, 900] and the timer in its reachable states |
| Countdown.ExpiredStaysExpired | App.tsx:310-312 | after expiry, ticks and typing leave the timer stopped at zero until a reset |
| Countdown.PadStart2 | App.tsx:282 | a string of two or more characters is unchanged; a shorter one is left-padded with '0' to exactly two characters, ending in the original |
| Countdown.DecimalString | App.tsx:282 | decimal digits only, one character iff below 10, at least three from 100 on |
| Countdown.FormatTime | App.tsx:279-283 | at least five characters with ':' before the last two; exactly five iff under 100 minutes |
| Countdown.FormatTimeRoundTrip | App.tsx:279-283 | for every count under 6000 seconds (a session is 900): two-digit minutes, ':', two-digit seconds under 60, and parsing the text gives the count back |
| Storage.Welcome | services/storage.ts:209-214 | the seeded note: id "welcome", the guide text, created at the read, no updatedAt, and a hand-written snippet that differs from the one the editor would derive from its text |
| Storage.GuestEntries | services/storage.ts:200-214 | a stored array is returned as it is, even when empty; a missing, unparseable or non-array value yields exactly one note, the welcome note, dated at the read |
| Storage.GuestSaved | services/storage.ts:159-167 | what guest `saveEntry` writes: a list holding the note, one longer than the guest read when the id was absent and as long when it was present |
| Storage.GuestDeleted | services/storage.ts:179-181 | what guest `deleteEntry` writes: the guest read without any note of the id, shorter by exactly their number, every note with another id kept |
| Storage.GuestRoundTrip | services/storage.ts:148-168 | after a guest save into a list with unique ids, every later guest read holds the saved note exactly once, finds it by id, and keeps ids unique |
| Storage.FirstGuestSave | services/storage.ts:159-167 | the first guest save into a never-written store persists [note, welcome], or [note] when the note is the welcome note itself |
| Storage.GuestDeleteIdempotent | services/storage.ts:178-182 | repeating a guest delete, at any later time, leaves the store as the first delete did |
| Storage.DeletedWelcomeStaysDeleted | services/storage.ts:178-182 | deleting the seeded welcome note from a never-written store leaves an empty list, which later reads return instead of a new welcome note |
| Storage.CloudEntries | services/storage.ts:186-198 | [] when the query fails; otherwise a permutation of the documents sorted by createdAt descending; unique ids stay unique |
| Storage.CloudRoundTrip | services/storage.ts:148-154 | after a cloud save that succeeds, the next cloud read holds the written document exactly once, sorted, with unique ids |
| Storage.Store.constructor | services/storage.ts:102-104 | a store nothing has been written to: both local keys missing, no cloud data |
| Storage.Store.IsCloud | services/storage.ts:109 | `userId && db`: the cloud is used iff the database is configured and the user id is present and non-empty |
| Storage.Store.GetEntries | services/storage.ts:185-215 | a user id with a configured database reads the cloud collection; anything else reads the guest key; in a valid store the result has unique ids |
| Storage.Store.SaveEntry | services/storage.ts:148-169 | cloud: the user's collection becomes the upsert of the note restamped at now, unchanged on failure; guest: the key holds the upsert into what a guest read returned; settings are untouched; ids stay unique |
| Storage.Store.DeleteEntry | services/storage.ts:171-183 | cloud: the note leaves the user's collection, unchanged on failure; guest: the key holds what a guest read returned minus the id; ids stay unique |
| Storage.Store.SettingsFor | services/storage.ts:121-146 | precedence: an existing cloud document (user, database, no failure) wins; otherwise parseable local settings; otherwise the defaults {22, lato, dark, not zen} |
| Storage.Store.GetSettings | services/storage.ts:121-146 | returns the settings chosen by that precedence; a cloud hit also overwrites the local key; nothing else changes; ids stay unique |
| Storage.Store.SaveSettings | services/storage.ts:108-119 | the local key always holds the new settings; the user's cloud document is written only with a user and a database and no failure; the entries are untouched |
| Storage.SettingsRoundTrip | services/storage.ts:108-146 | reading back after a save yields the saved settings for a guest; for a user it does too when the cloud write did not fail, or when it failed but no older cloud document exists; when it failed over an older document, the read returns that older document (the save is lost) |
| History.RowLabel | components/HistoryPanel.tsx:64 | never empty; the snippet when it is non-empty, "Empty entry" otherwise |
| History.RenderRow | components/HistoryPanel.tsx:38-46 | a row holds its note, is labelled with the note's row label (never empty), and is highlighted iff its id is the open note's |
| History.Render | components/HistoryPanel.tsx:20-44 | the header counts every note; "No entries yet." iff there are none; otherwise one row per note in createdAt-descending order, each captioned with its row label (the snippet, or "Empty entry"), highlighted iff it is the open note |
| History.RenderIsPermutation | components/HistoryPanel.tsx:20-22 | the rows show each note exactly as often as the list holds it |
| History.DeleteConfirmation.constructor | components/HistoryPanel.tsx:17 | no note awaits confirmation |
| History.DeleteConfirmation.DialogOpen | components/HistoryPanel.tsx:73 | `!!deleteId`: the dialog is open iff a non-empty id awaits confirmation |
| History.DeleteConfirmation.Handle | components/HistoryPanel.tsx:41-84 | a row click selects its note; trash records the id without selecting; Delete calls onDelete once with the recorded id iff there is one; Delete, Cancel and close clear it; afterwards the dialog is open only after a trash click (or a row click with it already open) |
| Auth.ErrorMessage | components/AuthDialog.tsx:57-60 | the message table: the three recognised codes get their own messages, any other code "Authentication failed."; never empty |
| Auth.AuthDialog.constructor | components/AuthDialog.tsx:16-20 | sign-in mode, empty fields, not loading, no error |
| Auth.AuthDialog.ToggleMode | components/AuthDialog.tsx:172 | flips sign-up and sign-in, nothing else |
| Auth.AuthDialog.Edit | components/AuthDialog.tsx:121-138 | the two fields take the typed values, nothing else |
| Auth.AuthDialog.Submit | components/AuthDialog.tsx:22-65 | empty email or password: no change and no call; unconfigured: "Firebase not configured.", not loading, no call; otherwise one sign-up or sign-in call, then on success onLogin before onClose with the fields cleared and no error, on failure the code's message; never loading afterwards |
| Auth.AuthDialog.GoogleLogin | components/AuthDialog.tsx:67-91 | unconfigured service or provider: "Firebase not configured." with loading untouched and no call; otherwise one popup call, then onLogin before onClose, or "Google sign in failed." on any failure; not loading afterwards |
| App.SavedEntry | App.tsx:162-170 | the saved note has the open id, the text, its snippet and updatedAt now; createdAt is the listed note's when that is non-zero, otherwise now |
| App.CreatedAtStable | App.tsx:167 | once saved with a non-zero creation time, a later save of the same note keeps that creation time |
| App.InitialContent | App.tsx:99-117 | the welcome note's text and id iff the list starts with the welcome note, otherwise an empty buffer and no id |
| App.FirstLaunchEditsWelcome | App.tsx:99-117 | a guest on a fresh profile opens the welcome note, and its first save replaces it: the store holds that one note with the typed text |
| App.ScopeOf | App.tsx:146 | the scope is truthy iff there is a user with a non-empty uid, and it is that uid |
| App.Editor.constructor | App.tsx:16-40 | default settings, no notes, empty buffer, no id, saved, not initialised, timer at 900 stopped; records whether the authentication service is configured |
| App.Editor.Reload | App.tsx:45-79 | records the user, replaces the notes and settings with what the store returns for that scope, and marks the shell initialised; a cloud settings document is copied to the local settings key and nothing else in the store changes; buffer, id and timer are kept |
| App.Editor.LoadInitialContent | App.tsx:99-117 | once, and only after initialisation: buffer and id become the initial-content choice; later runs change nothing |
| App.Editor.Edit | App.tsx:308-312 | the buffer takes the text and the timer is armed |
| App.Editor.AutosaveEffect | App.tsx:150-160 | no-op before initialisation; a fresh id only when there is no id and the buffer has text; `saving` exactly when an id was already set; an existing id never changes |
| App.Editor.ApplyOptimistic | App.tsx:173-182 | the in-memory list becomes the upsert of the note (copy, assign at its index, or put in front); ids stay unique; nothing else changes |
| App.Editor.FireSave | App.tsx:161-186 | the list becomes the upsert of the saved note; the store is written for the current scope only (a guest save leaves the cloud untouched, a cloud save the local key, neither touches the settings); status becomes `saved` whether or not the write failed; for a guest a later read holds the note exactly once; ids stay unique |
| App.Editor.NewEntry | App.tsx:219-225 | empty buffer, no id, timer reset to 900 and stopped; the list is untouched |
| App.Editor.LoadEntry | App.tsx:227-233 | the note's text and id, drawer closed, timer reset to 900 and stopped |
| App.Editor.DeleteEntry | App.tsx:235-242 | the note leaves the list and the store of the current scope only, with the settings untouched; if it was the open note the buffer is emptied, the id cleared and the timer reset, otherwise nothing else changes |
| App.Editor.Tick | App.tsx:127-141 | one timer tick, keeping the timer's reachable states |
| App.Editor.ResetTimer | App.tsx:384-387 | the timer goes back to 900, stopped |
| App.Editor.ChangeSettings | App.tsx:144-147 | the settings are applied and saved for the current scope; the stored entries are untouched |
| App.Editor.Start | App.tsx:44-96 | mounting as written: no state changes, so without an authentication service nothing is ever loaded |
| App.Editor.StartIntended | App.tsx:80-91 | mounting as intended: without an authentication service the guest notes and settings are loaded and the shell initialised; with one, loading is left to the state callback |
| App.StartWithoutAuth | App.tsx:80-91 | as written, without an authentication service: after mounting and effect runs the shell is uninitialised (only the spinner shows), the buffer has no id and the status stays `saved` |
| App.StartWithoutAuthIntended | App.tsx:80-91 | with the intended start-up: typed text gets an id, the save fires, and a later guest read holds that note exactly once with the typed text |

## Findings

| source | as written | input that shows it | evidently intended | confidence | as-written member | corrected member |
|---|---|---|---|---|---|---|
| App.tsx:80-91 | without an authentication service, the guest loader is only the subscription's cleanup function and is never called at mount, so the loading spinner stays and autosave never runs | open the app with no authentication keys configured (`auth` undefined): the loading spinner never goes away. Under the development-mode double mount, the simulated unmount runs the cleanup once and so loads the data; production builds show the defect | the loader runs once at mount: guest notes and settings load and the shell initialises | high; not executed | App.StartWithoutAuth | App.StartWithoutAuthIntended |

## Left out

- Rendering, class names, theme toggling on the document, textarea resizing, fullscreen and `getFontFamily`. These are presentation.
- The UI primitives, the chat panel, the AI client and the authentication and database initialisation are not part of this model. "Configured" is a boolean on the store and the dialog.
- The debounce timer, effect cleanup, `setInterval` scheduling and asynchronous interleaving. A debounced save firing is one atomic step (`App.Editor.FireSave`), and every cloud call completes within its step. Races between overlapping saves, and a save cancelled by a later keystroke, are not modelled.
- App.Editor.FireSave: the creation time is looked up in the list, and the store scope is taken from the user, both at the time the save fires. The source takes both `entries` and `user` from the effect's closure, and `user` is not a dependency of that effect. So a sign-in within the one-second window sends the pending save to the guest key, while the in-memory upsert goes into the newly loaded list. The model and the source differ only when the list or the user changed in between.
- App.Editor.Reload: the branch in the source that checks the buffer for the welcome text after a cloud load does nothing, so it is not modelled. The auth-state subscription itself is a library callback; only its effect is modelled.
- App.Editor.Start: the guest load that the source runs from the cleanup function on unmount is not modelled.
- App.Editor.AutosaveEffect: the id assigned in an effect run schedules no save in that same run, because that run still sees no id; the save is scheduled by the next run. The model keeps that.
- The random font choice, the font, font-size and theme handlers, and sign-out. These are thin callers of `App.Editor.ChangeSettings` or of the authentication library.
- `Date.now()`, the id generator and failures are parameters. Because the id generator is not available, the freshness of its ids is a precondition of `App.Editor.AutosaveEffect`.
- JSON parsing and serialisation and local storage. A read is abstracted to the slot it yields. Stored values that parse but are not notes or settings objects (for example `"null"` under the settings key) are not modelled.
- Storage.WelcomeNote: only the opening lines of the seeded guide are modelled; its long body is not part of this model.
- Entries.Snippet: characters are Dafny `char`s. The source slices UTF-16 code units, so it can split a surrogate pair where the model does not.
- Storage.CloudEntries: the order in which the document query returns documents is abstracted as the stored sequence.
- Entries.SortByCreatedDesc: the sort is stable (equal creation times keep their order), like the engine's `Array.prototype.sort`, but stability is not stated as a lemma. Only the permutation and the order are stated.
- Sorting a copy rather than the drawer's input holds by construction, since Dafny sequences are values.
- Storage.Store.SaveEntry: the cloud branch stamps `updatedAt` with its own clock reading. The model passes the same `now` as the save, while the source reads the clock twice.
- Auth.AuthDialog.Submit: an error without a `code` falls to the generic message. `Outcome.Failed` always carries a code, and a code that matches nothing behaves the same.
- Of a signed-in user, only the uid is used by the core. The other profile fields are carried but never inspected.
