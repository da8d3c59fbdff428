# Realtime relay of HackMD, modelled in Dafny

This project models the state machine at the heart of HackMD's realtime
relay (`lib/realtime.js`). The relay keeps two registries. The session
registry is `users`, from socket id to user record. The note registry is
`notes`, from note name to live note. Beside them it keeps two admission
queues, one for connects and one for disconnects, each with its busy flag.
The model also covers one handler per socket event, the periodic dirty
sweep and the status count.

The model is the class `Realtime.Relay`. Its fields are the registries,
the queues and the flags. Every `emit`, every `socket.disconnect()` and
every note save (the sweep's and the last user's) is appended to a `log`
of `Action`s instead of being performed. The other store calls are inputs
of the handler or of a completion method (see "## Left out"). The
permission write of `permission` is held in `permissionWrites` until its
answer; the record creation of find-or-create leaves no trace. Each handler is a method
whose `ensures` gives the new state and the log in terms of the old state.
Where a call goes on to process the next queued socket, the contract
states what is sent for the socket at hand as a prefix of the log, and
what the queued sockets' processing keeps. A ghost invariant `Valid()` is
kept by every method:

- each session listed by a note is routed to that note;
- a note's key list has no repeats;
- a note's hash is the hash of its body;
- a clean note's body is the last body read from or handed to the store;
- the connection queue has no repeats;
- an outstanding store read belongs to a queued socket whose note is not loaded.

Pure rules live in module `Protocol`:

- the permission gate and the origin allow-list of `change`;
- the public user record and the roster;
- the fan-out of an event over a socket list;
- joining and leaving a note;
- the saves of the sweep.

Lists and queues are in module `Sequences`, and the counting of the status
query is in module `Status`.

The model keeps the following behaviours of the code:

- `startConnection` and `disconnect` return without releasing their busy
  flag when the lookup finds no note name (`StartConnection`, `Disconnect`).
- The queue-clearing loops splice while stepping forward. On a queue with
  adjacent entries for the same socket, only the first entry goes
  (`Spliced`, `SplicedSkipsAdjacent`). Because the connection queue never
  holds a socket twice, there the loop removes every entry
  (`SplicedWithoutDups`).
- The dirty sweep clears `isDirty` as soon as the save is issued, not when
  the store answers (`Sweep`).
- The colour loop reads `color` off a key string. It never sees a clash,
  so the first colour drawn is kept (`PickColor`).
- A failed store read answers 404, closes the socket and releases the flag,
  but does not start the next queued socket (`LoadCompleted`).
- A failed find-or-create calls an undefined function and throws. The busy
  flag stays set and nothing else happens (`LoadCompleted`).
- A note mode other than `freely`, `editable` and `locked` falls through the
  gate of `change` (`MayChange`).
- A dirty note whose last user leaves stays in `notes`, still dirty, until
  its save is answered. Whoever joins it in the meantime loses it then
  (`LeaveNote`, `EvictionSaved`).
- The status query tallies the addresses in its first store callback and
  reads the registry sizes in its second one. A session that leaves in
  between is tallied but not counted online, so the report can list more
  distinct addresses than online sessions (`CountStatus`, `ReportStatus`,
  `StaleReport`).

Four behaviours one might expect of the relay do not hold in the code;
the model follows the code:

- a sweep write that fails leaves the note dirty;
- the colour of a new session avoids the colours in use;
- the next connect starts after every completion;
- a note is evicted only when no session is attached.

## Model

| member | source | states |
|---|---|---|
| Sequences.WithoutMembers | lib/realtime.js:298-304 | after every occurrence of `x` is taken out, `y` remains exactly when it was there and differs from `x` |
| Sequences.WithoutConcat | lib/realtime.js:299-304 | taking out `x` distributes over concatenation, so the remaining entries keep their relative order |
| Sequences.WithoutKeepsNoDups | lib/realtime.js:298 | deleting a key from a repeat-free key list leaves it repeat-free |
| Sequences.IndexOf | lib/realtime.js:300 | -1 exactly when `x` is absent, otherwise the first position holding `x` |
| Sequences.RemoveEvery | lib/realtime.js:299-304 | the search-and-splice `do…while` loop leaves exactly the list with every occurrence of the socket taken out |
| Sequences.SpliceMatching | lib/realtime.js:211-214 | the forward splicing loop over a queue leaves `Spliced(q, x)` |
| Sequences.SplicedShrinks | lib/realtime.js:211-214 | a queue holding the socket gets strictly shorter, which orders the recursion of the queues |
| Sequences.SplicedKeepsOthers | lib/realtime.js:211-214 | the loop neither loses nor adds any entry for another socket |
| Sequences.SplicedSubset | lib/realtime.js:211-214 | nothing that was not in the queue appears in it |
| Sequences.SplicedWithoutDups | lib/realtime.js:211-214 | on a queue without repeats the loop removes every entry for the socket and keeps the rest in order |
| Sequences.SplicedSkipsAdjacent | lib/realtime.js:329-332 | for the socket's first two entries, adjacent, wherever they sit, the loop removes the first, keeps the second and goes on splicing after it |
| Sequences.Contains | lib/realtime.js:95-100 | the linear search reports a hit exactly when the address is in the list |
| Sequences.KeySeq | lib/realtime.js:67 | the enumeration of a table's keys lists each key exactly once |
| Protocol.KeyOf | lib/realtime.js:137-151 | the lookup is falsy exactly when the referer names nothing; a named note yields its name; an invalid id yields the socket object, whose key is `[object Object]` |
| Protocol.DefaultPermission | lib/realtime.js:252-256 | `editable` exactly when the stored owner is set and not the string "null", else `freely` |
| Protocol.Materialized | lib/realtime.js:265-275 | a loaded note starts with no sockets, no users, clean, with the stored owner and body and the given token and hash |
| Protocol.MayChange | lib/realtime.js:600-614 | a change passes unless the note is `editable` and the session is not logged in, or `locked` and the session's user id is not the owner |
| Protocol.GateByMode | lib/realtime.js:600-614 | `freely` admits every change, `editable` exactly those of logged-in sessions, `locked` exactly those whose user id is the owner |
| Protocol.IsRelayed | lib/realtime.js:622-652 | the origin switch, case by case, relays exactly the origins of the allow-list and drops every other one |
| Protocol.RelayedOriginsCount | lib/realtime.js:622-637 | the allow-list has fifteen distinct tags, and `setValue` and the empty origin are not among them |
| Protocol.Stamp | lib/realtime.js:638-640 | the relayed operation keeps the decoded operation's origin and text and adds the sender, the note's token and the next token |
| Protocol.OutData | lib/realtime.js:346-358 | the public record carries the id, login, user id, colour, cursor, name, idle flag and type of the session record |
| Protocol.OutDataHidesAddress | lib/realtime.js:346-358 | the public record does not depend on the session's address or user agent |
| Protocol.NewUser | lib/realtime.js:422-433 | a fresh record has the socket's id, address, agent and colour, and is anonymous, not idle, with no cursor and no type |
| Protocol.Identify | lib/realtime.js:360-390 | a logged-in session takes the profile's name and user id, any other one a guest name and no user id; no other field changes |
| Protocol.RosterExact | lib/realtime.js:153-161 | the roster has an entry for a session exactly when it is a key of the note's table with a record, and each entry is that record's public part |
| Protocol.CollectRoster | lib/realtime.js:156-161 | the key loop yields the roster of the note's table |
| Protocol.JoinedAttached | lib/realtime.js:205-206 | joining puts the session in the note's key list and socket list and changes nothing else |
| Protocol.LeftDetached | lib/realtime.js:297-304 | leaving takes the session out of both lists and changes nothing else |
| Protocol.LeftTable | lib/realtime.js:297-324 | after a session leaves a note every note only loses sessions, the left note lacks the session, it is dropped exactly when no user is left and it is clean, and other notes are untouched |
| Protocol.EvictionSaves | lib/realtime.js:305-311 | a save is issued exactly when the last user leaves a dirty note, with the note's body and its title |
| Protocol.FanOutAll | lib/realtime.js:643-648 | a broadcast sends exactly one event to each entry of the socket list, in list order, sender included |
| Protocol.FanOutExcept | lib/realtime.js:177-182 | a broadcast that skips the sender is the broadcast to the list with the sender taken out |
| Protocol.Broadcast | lib/realtime.js:463-466 | the socket loop emits `FanOut` of the list |
| Protocol.PickColor | lib/realtime.js:398-420 | the colour kept is always the first one drawn |
| Protocol.SweepSavesExact | lib/realtime.js:67-79 | the sweep saves each dirty note exactly once, with its current body and its title, and saves nothing else |
| Status.AddressesBound | lib/realtime.js:92-103 | there are no more distinct addresses than sessions |
| Status.StatusBounds | lib/realtime.js:89-131 | distinct addresses and logged-in sessions are bounded by all sessions, and the distinct logged-in addresses by both |
| Status.CountsOf | lib/realtime.js:89-117 | the tallies of one registry: distinct addresses and logged-in sessions at most the sessions, and distinct logged-in addresses at most both |
| Status.SnapshotBounds | lib/realtime.js:118-131 | a report whose tallies and sizes come from one registry is within the four bounds |
| Status.StaleReport | lib/realtime.js:118-131 | a lone logged-in session that leaves between the two callbacks yields a report with one distinct address, one logged-in session and no session online |
| Status.Tally | lib/realtime.js:89-117 | the three lists the loop builds have as many entries as there are distinct addresses, logged-in sessions and distinct logged-in addresses |
| Realtime.Relay.Edited | lib/realtime.js:452-457 | a different body replaces the old one, is rehashed, restamped and marks the note dirty; an equal body changes nothing |
| Realtime.Relay.constructor | lib/realtime.js:64-65 | the relay starts with empty registries, idle flags and empty queues |
| Realtime.Relay.NotenameFromSocket | lib/realtime.js:137-151 | the key is the referer's, and an invalid id is answered with a 404 and a close |
| Realtime.Relay.EmitOnlineUsers | lib/realtime.js:153-171 | the note's roster goes to every socket of the note |
| Realtime.Relay.EmitUserStatus | lib/realtime.js:173-183 | the sender's public record goes to every other socket of the note |
| Realtime.Relay.EmitRefresh | lib/realtime.js:185-197 | the note's snapshot goes to the socket alone |
| Realtime.Relay.Attach | lib/realtime.js:204-208 | the note gains the session in both lists, then the roster and the snapshot are sent |
| Realtime.Relay.ReleaseConnection | lib/realtime.js:210-216 | the socket leaves the connection queue, every other entry stays, and the flag is released |
| Realtime.Relay.FinishConnection | lib/realtime.js:204-218 | the session is attached and out of the queue, the log begins with the join's roster and snapshot, notes only gain sessions, and afterwards the flag is held or the queue is empty |
| Realtime.Relay.StartConnection | lib/realtime.js:230-282 | nothing happens while busy; otherwise the flag is taken and the socket is finished on a loaded note with the join's roster and snapshot, or waits for the store read, or is stuck holding the flag when no note name is found |
| Realtime.Relay.Connection | lib/realtime.js:392-438 | a record with the first colour and the derived identity is filed, the socket is queued and started with the same four outcomes, and the log of each outcome is given (as a prefix on a join) |
| Realtime.Relay.Admit | lib/realtime.js:392-437 | the record is filed and the socket appended to the connection queue |
| Realtime.Relay.Register | lib/realtime.js:422-437 | the record is filed under the socket id and the socket appended to the connection queue |
| Realtime.Relay.LoadCompleted | lib/realtime.js:238-277 | a failed read answers 404, closes, releases the flag and starts nobody; a failed find-or-create keeps the flag; otherwise the loaded note is filed and the socket finished on it, the log beginning with the join's roster and snapshot |
| Realtime.Relay.Install | lib/realtime.js:265-275 | the loaded note is filed under its name |
| Realtime.Relay.LeaveNote | lib/realtime.js:297-324 | the note becomes `LeftTable` of the old one, the eviction save is logged and, for a dirty note, the eviction is put on hold |
| Realtime.Relay.Depart | lib/realtime.js:294-325 | the record goes, the note is left, and the session is in no note |
| Realtime.Relay.Detach | lib/realtime.js:294-326 | `Depart`, followed by the new roster to those who remain |
| Realtime.Relay.ReleaseDisconnect | lib/realtime.js:328-334 | the socket leaves the disconnect queue by the forward splice, and the flag is released |
| Realtime.Relay.DetachAndRelease | lib/realtime.js:294-334 | the record goes, the notes become `DepartTable`, the log gains exactly the eviction save and the roster to those who remain (`DepartLog`), the held evictions exactly `DepartEvictions`, and the socket leaves the disconnect queue with the flag released |
| Realtime.Relay.Disconnect | lib/realtime.js:284-344 | nothing happens while busy; a socket with no note name leaves the flag held; otherwise the session is gone from the registry and every note, the log begins with the socket's own eviction save and roster, notes only lose sessions, and afterwards the flag is held or the queue is empty; a queue holding only the socket has its exact outcome stated |
| Realtime.Relay.DisconnectEvent | lib/realtime.js:590-593 | the socket is queued for disconnect; while busy or with no note name nothing else changes; otherwise, the queue being empty whenever the flag is free, the socket is processed alone: the record goes, the notes become `DepartTable`, the log gains exactly the lookup's rejections and `DepartLog`, and the flag is free with an empty queue |
| Realtime.Relay.EvictionSaved | lib/realtime.js:312-313 | the answered save deletes the note |
| Realtime.Relay.VersionRequest | lib/realtime.js:541-543 | the version goes to the socket |
| Realtime.Relay.OnlineUsersRequest | lib/realtime.js:524-538 | the roster goes to the requesting socket alone |
| Realtime.Relay.Update | lib/realtime.js:446-467 | the note becomes `Edited` and every socket of the note receives one check with the new hash and time |
| Realtime.Relay.Change | lib/realtime.js:596-653 | a change that passes the gate, decodes and has a listed origin moves the token to `nextOtk` and sends the stamped operation to every socket; anything else changes no note and sends nothing |
| Realtime.Relay.Forward | lib/realtime.js:638-648 | the stamped operation carries the sender, the old token and the new token, and only the note's token changes |
| Realtime.Relay.Permission | lib/realtime.js:484-493 | only a logged-in owner changes the mode, which is applied at once and its store write put on hold; nothing is sent yet |
| Realtime.Relay.PermissionSaved | lib/realtime.js:493-507 | when the store answers the write, the new mode goes to every socket the note lists at that moment, and to none on an error; the write is no longer pending |
| Realtime.Relay.UserStatus | lib/realtime.js:470-481 | the reported idle flag and type are recorded and the sender's record goes to every other socket; a missing record aborts |
| Realtime.Relay.Cursor | lib/realtime.js:546-571 | the cursor is recorded and the sender's record goes to every other socket |
| Realtime.Relay.CursorBlur | lib/realtime.js:574-587 | the cursor is cleared and every other socket is told |
| Realtime.Relay.UserChanged | lib/realtime.js:515-521 | when the sender is in the note, its record takes the identity derived from the profile and the roster is re-sent; otherwise nothing changes |
| Realtime.Relay.ClearedOk | lib/realtime.js:76-78 | after every flag is cleared and the dirty bodies are recorded as written, the invariant still holds |
| Realtime.Relay.ClearDirty | lib/realtime.js:67-80 | the sweep loop clears every note's flag and issues exactly `SweepSaves` |
| Realtime.Relay.Sweep | lib/realtime.js:66-84 | one sweep logs the saves of the dirty notes in visiting order, clears every flag at once and changes nothing else |
| Realtime.Relay.CountStatus | lib/realtime.js:87-117 | on a store error nothing; otherwise the store's count and the tallies of the registry as it is in the first callback |
| Realtime.Relay.ReportStatus | lib/realtime.js:118-131 | on a store error nothing; otherwise the tallies beside the registry sizes as they are in the second callback |

## Left out

- Cookie and session authentication (`secure`, `onAuthorizeSuccess`, `onAuthorizeFail`) is not modelled. The logged-in flag, user id and display name come in as an `Auth` value.
- LZString compression and JSON encoding of payloads are not modelled. Payloads are logged as they are before compression. The decoded operation of `change` is an `Option<Op>`, `None` when decoding yields nothing. A `JSON.parse` that throws is not modelled.
- md5 is the uninterpreted `Hash`, and `Note.getNoteTitle` is `TitleOf`.
- `shortId.generate` becomes the `otk`/`nextOtk` parameters. The model does not prove that the tokens are fresh.
- `randomcolor` becomes the colour oracle `draw`, and `chance.last()` becomes the `guestSurname` parameter.
- URL parsing of the referer, the id check and its decoding are the oracle `route`.
- The store and the domain modules are parameters or separate completions:
  - `readFromDB` followed by `findOrNewNote` is `LoadCompleted`;
  - the last-disconnect `saveToDB` callback is `EvictionSaved`;
  - the answer of the `findNote`/`updatePermission` pair is `PermissionSaved`, whose `saved` flag says whether both succeeded;
  - `countFromDB` and `getUserCount` are the `Option` parameters of `CountStatus` and `ReportStatus`, one method per callback; the optional `callback` of `getStatus` is taken as given.
- Timing is not modelled. The `setInterval` timer and the `async.each` concurrency become one sequential `Sweep` whose visiting order is its result. The callbacks of the sweep's saves are empty and are not modelled.
- Logging and the `config.debug` branches, including their `getStatus` calls, are not modelled.
- A handler that reads a missing record throws in the code, and the exception reaches no handler. The model lets such a handler return without effect. One case is reachable: a socket still in the connection queue has a session record but no key in its note's table, and its `user changed` passes `undefined` to `updateUserData` (`UserChanged`). `user status`, `cursor focus`, `cursor activity` and `cursor blur` are treated the same way when the session record is gone. The uncaught exception itself is not modelled.
- `change` on a `locked` note reads `request.user._id` without checking `request.user` and would throw without one; the model assumes `request.user` is present (`permission` checks it, and `Auth.loggedIn` stands for both of its tests).
- Realtime.Relay.PermissionSaved: broadcasts over the socket list of the note filed under the name when the store answers. The code keeps the note object it found at request time; if that note was evicted and loaded again in between, the code uses the old object's list and the model the new one.
- Sockets are identified by id. References to sockets and the `sock != socket` comparisons become id comparisons.
- Realtime.Relay.Connection: requires a socket id that has never connected, since the transport assigns each socket a fresh id.
- Realtime.Relay.Connection: when the socket joins a loaded note, states the log only up to the join's roster and snapshot. What the queued sockets processed in the same call send is not stated.
- Realtime.Relay.StartConnection: when the socket joins a loaded note, states the log only up to the join's roster and snapshot, for the same reason.
- Realtime.Relay.FinishConnection: states the log only up to the join's roster and snapshot, and the notes only as having gained sessions. The queue's new head may be processed in the same call.
- Realtime.Relay.LoadCompleted: on success, states the log only up to the join's roster and snapshot, for the same reason.
- Realtime.Relay.Disconnect: on a queue holding more than the socket, states the log and the held evictions only up to the socket's own part, and the notes only as having lost sessions, since the later entries are processed in the same call. The handler never reaches that case, because the queue is empty whenever the flag is free (`DisconnectEvent` states its exact outcome).
- Realtime.Relay.UserChanged: the profile's `displayName || username` choice is taken as already made in `Auth.displayName`.
