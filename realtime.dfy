/** The relay's state machine (lib/realtime.js): the session registry, the
    note registry, the connect and disconnect admission queues with their
    busy flags, and one method per inbound event. Every `emit`, every
    `disconnect()` of a socket and every note save is appended to `log`
    instead of being performed. */
module Realtime {
  import opened Wrappers
  import opened Sequences
  import opened Protocol
  import Status

  class Relay {
    /** What each socket's handshake referer names (URL parsing, the id
        validity check and the id decoding are outside the model). */
    const route: SockId -> Route
    /** The md5 digest of a body. */
    const Hash: string -> string
    /** The title the note module extracts from a body. */
    const TitleOf: string -> string
    /** The server version string. */
    const version: string

    var users: map<SockId, User>
    var notes: map<string, Note>
    var isConnectionBusy: bool
    var connectionSocketQueue: seq<SockId>
    var isDisconnectBusy: bool
    var disconnectSocketQueue: seq<SockId>
    /** The socket whose store read (followed by find-or-create) is outstanding. */
    var pendingLoad: Option<SockId>
    /** Notes whose last-disconnect save was issued and whose eviction waits for the store's reply. */
    var pendingEvictions: multiset<string>
    var log: seq<Action>
    /** Permission changes whose store write (`findNote`, then
        `updatePermission`) is outstanding, by note name and new mode. */
    var permissionWrites: multiset<(string, string)>

    /** Every socket id that has ever connected. */
    ghost var connected: set<SockId>
    /** Per note, the last body read from or handed to the store. */
    ghost var lastStored: map<string, string>

    /** The key the socket's note is filed under, `None` when the lookup is falsy. */
    function NoteKey(s: SockId): Option<string> {
      KeyOf(route(s))
    }

    /** What the lookup itself sends: an invalid id gets `info {code: 404}` and the socket is closed. */
    function Rejections(s: SockId): seq<Action> {
      if route(s).Invalid? then [Emit(s, Info(404)), Close(s)] else []
    }

    /** The `online users` broadcast that follows a join, leave or identity change. */
    function RosterLog(s: SockId, ns: map<string, Note>, us: map<SockId, User>): seq<Action> {
      Rejections(s) +
      var k := NoteKey(s);
      if k.Some? && k.value in ns
      then FanOut(ns[k.value].socks, OnlineUsers(Roster(ns[k.value].users, us)), None)
      else []
    }

    /** The snapshot sent to one socket on join or on request. */
    function RefreshLog(s: SockId, ns: map<string, Note>): seq<Action> {
      Rejections(s) +
      var k := NoteKey(s);
      if k.Some? && k.value in ns then [Emit(s, Snapshot(ns[k.value]))] else []
    }

    /** What joining note `k` sends: the new roster to everyone on the note,
        then the note's snapshot to the joiner. */
    function JoinLog(s: SockId, k: string, ns: map<string, Note>, us: map<SockId, User>): seq<Action>
      requires k in ns
    {
      var joined := ns[k := Attached(ns[k], s)];
      RosterLog(s, joined, us) + RefreshLog(s, joined)
    }

    /** The note table after session `s` of note `k` disconnects. */
    function DepartTable(s: SockId, k: string, ns: map<string, Note>): map<string, Note> {
      if k in ns then LeftTable(ns, k, s) else ns
    }

    /** What the disconnect of session `s` of note `k` sends: the note's
        save when `s` was its last user and it is dirty, then the roster to
        those who remain. */
    function DepartLog(s: SockId, k: string, ns: map<string, Note>, us: map<SockId, User>): seq<Action> {
      (if k in ns then EvictionSaves(ns, k, s, TitleOf) else []) + RosterLog(s, DepartTable(s, k, ns), us - {s})
    }

    /** The eviction the disconnect puts on hold until its save is answered. */
    function DepartEvictions(s: SockId, k: string, ns: map<string, Note>): multiset<string> {
      if k in ns && Orphaned(ns, k, s) then multiset{k} else multiset{}
    }

    /** The `user status` broadcast to everyone but the sender. */
    function StatusLog(s: SockId, ns: map<string, Note>, us: map<SockId, User>): seq<Action> {
      Rejections(s) +
      var k := NoteKey(s);
      if k.Some? && k.value in ns && s in us
      then FanOut(ns[k.value].socks, Msg.UserStatus(OutData(us[s])), Some(s))
      else []
    }

    /** A note after an `update` carrying `body` at time `now`: a body that
        differs replaces the old one, is rehashed, restamped and marks the
        note dirty; the same body changes nothing. */
    function Edited(n: Note, body: string, now: int): (r: Note)
      ensures r.body == body
      ensures n.body != body ==> r.hash == Hash(body)
      ensures n.hash == Hash(n.body) ==> r.hash == Hash(r.body)
      ensures r.isDirty <==> n.isDirty || n.body != body
      ensures n.body == body ==> r == n
      ensures n.body != body ==> r.updatetime == now
      ensures r.(body := n.body, hash := n.hash, updatetime := n.updatetime, isDirty := n.isDirty) == n
    {
      if n.body != body then n.(body := body, hash := Hash(body), updatetime := now, isDirty := true) else n
    }

    /** What the relay keeps true of one live note filed under `n`. */
    ghost predicate NoteOk(n: string, note: Note, stored: map<string, string>) {
      // a session is attached only to the note its referer names
      && (forall x :: x in note.users ==> NoteKey(x) == Some(n))
      && (forall x :: x in note.socks ==> NoteKey(x) == Some(n))
      && NoDups(note.users)
      // the hash reflects the body
      && note.hash == Hash(note.body)
      // a clean note's body is what the store was last given or gave
      && (!note.isDirty ==> n in stored && stored[n] == note.body)
    }

    ghost predicate NotesOk(ns: map<string, Note>, stored: map<string, string>) {
      forall n :: n in ns ==> NoteOk(n, ns[n], stored)
    }

    ghost predicate UsersOk(us: map<SockId, User>, seen: set<SockId>) {
      && (forall s :: s in us ==> us[s].id == s)
      && us.Keys <= seen
    }

    ghost predicate QueueOk(q: seq<SockId>, seen: set<SockId>, pending: Option<SockId>, busy: bool, ns: map<string, Note>) {
      && NoDups(q)
      && (forall s :: s in q ==> s in seen)
      && (pending.Some? ==>
            busy && pending.value in q && NoteKey(pending.value).Some? && NoteKey(pending.value).value !in ns)
    }

    ghost predicate Valid()
      reads this`users, this`connected, this`connectionSocketQueue, this`pendingLoad, this`isConnectionBusy,
        this`notes, this`lastStored
    {
      && UsersOk(users, connected)
      && QueueOk(connectionSocketQueue, connected, pendingLoad, isConnectionBusy, notes)
      && NotesOk(notes, lastStored)
    }

    lemma NotesOkSet(ns: map<string, Note>, stored: map<string, string>, k: string, note: Note)
      requires NotesOk(ns, stored) && NoteOk(k, note, stored)
      ensures NotesOk(ns[k := note], stored)
    {
      var ns' := ns[k := note];
      forall n | n in ns' ensures NoteOk(n, ns'[n], stored) {
        if n != k {
          assert NoteOk(n, ns[n], stored);
        }
      }
    }

    /** Replacing note `k` by one that differs only in fields the invariant does not constrain. */
    lemma NotesOkRelabel(ns: map<string, Note>, stored: map<string, string>, k: string, note: Note)
      requires NotesOk(ns, stored) && k in ns
      requires note.users == ns[k].users && note.socks == ns[k].socks
      requires note.body == ns[k].body && note.hash == ns[k].hash && note.isDirty == ns[k].isDirty
      ensures NotesOk(ns[k := note], stored)
    {
      assert NoteOk(k, ns[k], stored);
      NotesOkSet(ns, stored, k, note);
    }

    /** Replacing note `k` while recording `body` as its stored content. */
    lemma NotesOkStore(ns: map<string, Note>, stored: map<string, string>, k: string, note: Note, body: string)
      requires NotesOk(ns, stored) && NoteOk(k, note, stored[k := body])
      ensures NotesOk(ns[k := note], stored[k := body])
    {
      var ns' := ns[k := note];
      var stored' := stored[k := body];
      forall n | n in ns' ensures NoteOk(n, ns'[n], stored') {
        if n != k {
          assert NoteOk(n, ns[n], stored);
        }
      }
    }

    lemma AttachedOk(k: string, note: Note, s: SockId, stored: map<string, string>)
      requires NoteOk(k, note, stored) && NoteKey(s) == Some(k)
      ensures NoteOk(k, Attached(note, s), stored)
    {
      if s !in note.users {
        AppendFresh(note.users, s);
      }
    }

    lemma DetachedOk(k: string, note: Note, s: SockId, stored: map<string, string>)
      requires NoteOk(k, note, stored)
      ensures NoteOk(k, Detached(note, s), stored)
    {
      WithoutKeepsNoDups(note.users, s);
      forall x | x in Without(note.users, s) ensures x in note.users {
        WithoutMembers(note.users, s, x);
      }
      forall x | x in Without(note.socks, s) ensures x in note.socks {
        WithoutMembers(note.socks, s, x);
      }
    }

    constructor (route: SockId -> Route, hash: string -> string, titleOf: string -> string, version: string)
      ensures Valid()
      ensures this.route == route && Hash == hash && TitleOf == titleOf && this.version == version
      ensures users == map[] && notes == map[] && log == [] && pendingEvictions == multiset{}
      ensures !isConnectionBusy && connectionSocketQueue == [] && pendingLoad.None?
      ensures !isDisconnectBusy && disconnectSocketQueue == [] && permissionWrites == multiset{}
    {
      this.route := route;
      Hash := hash;
      TitleOf := titleOf;
      this.version := version;
      users := map[];
      notes := map[];
      isConnectionBusy := false;
      connectionSocketQueue := [];
      isDisconnectBusy := false;
      disconnectSocketQueue := [];
      pendingLoad := None;
      pendingEvictions := multiset{};
      permissionWrites := multiset{};
      log := [];
      connected := {};
      lastStored := map[];
    }

    /** getNotenameFromSocket. */
    method NotenameFromSocket(s: SockId) returns (key: Option<string>)
      modifies this`log
      ensures key == NoteKey(s)
      ensures log == old(log) + Rejections(s)
    {
      key := NoteKey(s);
      if route(s).Invalid? {
        log := log + [Emit(s, Info(404)), Close(s)];
      }
    }

    /** emitOnlineUsers: the roster of the socket's note to every socket of it. */
    method EmitOnlineUsers(s: SockId)
      modifies this`log
      ensures log == old(log) + RosterLog(s, notes, users)
    {
      var key := NotenameFromSocket(s);
      if key.None? || key.value !in notes {
        return;
      }
      var note := notes[key.value];
      var roster := CollectRoster(note.users, users);
      var out := Broadcast(note.socks, OnlineUsers(roster), None);
      log := log + out;
      ConcatAssoc(old(log), Rejections(s), out);
    }

    /** emitUserStatus: the sender's public record to every other socket of its note. */
    method EmitUserStatus(s: SockId)
      modifies this`log
      ensures log == old(log) + StatusLog(s, notes, users)
    {
      var key := NotenameFromSocket(s);
      if key.None? || key.value !in notes {
        return;
      }
      if s !in users {
        // reading a field of the missing record throws
        return;
      }
      var out := Broadcast(notes[key.value].socks, Msg.UserStatus(OutData(users[s])), Some(s));
      log := log + out;
      ConcatAssoc(old(log), Rejections(s), out);
    }

    /** emitRefresh: the note's snapshot to the socket. */
    method EmitRefresh(s: SockId)
      modifies this`log
      ensures log == old(log) + RefreshLog(s, notes)
    {
      var key := NotenameFromSocket(s);
      if key.None? || key.value !in notes {
        return;
      }
      log := log + [Emit(s, Snapshot(notes[key.value]))];
      ConcatAssoc(old(log), Rejections(s), [Emit(s, Snapshot(notes[key.value]))]);
    }

    /** The first half of finishConnection: join the note, then tell everyone. */
    method Attach(s: SockId, k: string)
      requires Valid() && k in notes && NoteKey(s) == Some(k)
      modifies this`notes, this`log
      ensures Valid()
      ensures notes == old(notes)[k := Attached(old(notes)[k], s)]
      ensures log == old(log) + RosterLog(s, notes, users) + RefreshLog(s, notes)
    {
      var note := notes[k];
      AttachedOk(k, note, s, lastStored);
      NotesOkSet(notes, lastStored, k, Attached(note, s));
      notes := notes[k := Attached(note, s)];
      EmitOnlineUsers(s);
      EmitRefresh(s);
    }

    /** The tail of finishConnection before the next head is started: the
        socket is spliced out of the connection queue and the flag released. */
    method ReleaseConnection(s: SockId)
      requires Valid() && s in connectionSocketQueue && pendingLoad.None?
      modifies this`connectionSocketQueue, this`isConnectionBusy
      ensures Valid() && !isConnectionBusy
      ensures connectionSocketQueue == Without(old(connectionSocketQueue), s)
      ensures |connectionSocketQueue| < |old(connectionSocketQueue)|
      ensures forall x :: x in connectionSocketQueue ==> x in old(connectionSocketQueue) && x != s
    {
      ghost var q0 := connectionSocketQueue;
      SplicedWithoutDups(q0, s);
      WithoutKeepsNoDups(q0, s);
      SplicedShrinks(q0, s);
      connectionSocketQueue := SpliceMatching(connectionSocketQueue, s);
      forall x | x in connectionSocketQueue ensures x in q0 && x != s {
        WithoutMembers(q0, s, x);
      }
      isConnectionBusy := false;
    }

    /** finishConnection: attach, clear the socket from the connection queue,
        release the flag and start the queue's new head. */
    method FinishConnection(s: SockId, k: string)
      requires Valid() && k in notes && NoteKey(s) == Some(k)
      requires s in connectionSocketQueue && pendingLoad.None?
      modifies this`notes, this`log, this`connectionSocketQueue, this`isConnectionBusy, this`pendingLoad
      decreases |connectionSocketQueue|, 0
      ensures Valid()
      ensures k in notes && s in notes[k].users && s in notes[k].socks
      ensures s !in connectionSocketQueue
      ensures AllJoined(old(notes), notes)
      ensures forall x :: x in connectionSocketQueue ==> x in old(connectionSocketQueue)
      ensures isConnectionBusy || connectionSocketQueue == []
      ensures old(log) + JoinLog(s, k, old(notes), users) <= log
    {
      ghost var n0 := notes;
      ghost var l0 := log;
      AllJoinedAttached(notes, k, s);
      Attach(s, k);
      ghost var n1 := notes;
      JoinedAttached(n0[k], s);
      ConcatAssoc(l0, RosterLog(s, n1, users), RefreshLog(s, n1));
      ghost var l1 := log;
      assert l0 + JoinLog(s, k, n0, users) == l1;
      ReleaseConnection(s);
      if connectionSocketQueue != [] {
        StartConnection(connectionSocketQueue[0]);
        AllJoinedTrans(n0, n1, notes);
        assert Joined(n1[k], notes[k]);
        assert l1 <= log;
      }
    }

    /** startConnection. Does nothing while another connect is in progress;
        otherwise takes the flag, and either joins a note already in memory,
        or issues the store read (completed by LoadCompleted), or, when the
        lookup is falsy, returns still holding the flag. */
    method StartConnection(s: SockId)
      requires Valid() && s in connectionSocketQueue
      modifies this`notes, this`log, this`connectionSocketQueue, this`isConnectionBusy, this`pendingLoad
      decreases |connectionSocketQueue|, 1
      ensures Valid()
      ensures old(isConnectionBusy) ==>
        isConnectionBusy && notes == old(notes) && log == old(log)
        && connectionSocketQueue == old(connectionSocketQueue) && pendingLoad == old(pendingLoad)
      ensures !old(isConnectionBusy) && NoteKey(s).None? ==>
        isConnectionBusy && notes == old(notes) && log == old(log)
        && connectionSocketQueue == old(connectionSocketQueue) && pendingLoad.None?
      ensures !old(isConnectionBusy) && NoteKey(s).Some? && NoteKey(s).value !in old(notes) ==>
        isConnectionBusy && notes == old(notes) && log == old(log) + Rejections(s)
        && connectionSocketQueue == old(connectionSocketQueue) && pendingLoad == Some(s)
      ensures !old(isConnectionBusy) && NoteKey(s).Some? && NoteKey(s).value in old(notes) ==>
        var k := NoteKey(s).value;
        && k in notes && s in notes[k].users && s in notes[k].socks && s !in connectionSocketQueue
        && old(log) + Rejections(s) + JoinLog(s, k, old(notes), users) <= log
      ensures AllJoined(old(notes), notes)
      ensures forall x :: x in connectionSocketQueue ==> x in old(connectionSocketQueue)
      ensures isConnectionBusy || connectionSocketQueue == []
      ensures old(log) <= log
    {
      if isConnectionBusy {
        return;
      }
      isConnectionBusy := true;
      var key := NotenameFromSocket(s);
      if key.None? {
        return;
      }
      if key.value !in notes {
        pendingLoad := Some(s);
        return;
      }
      FinishConnection(s, key.value);
      ConcatAssoc(old(log), Rejections(s), JoinLog(s, key.value, old(notes), users));
    }

    /** The `connection` handler: register the session with its colour and
        identity, queue the socket and try to start it. */
    method Connection(s: SockId, address: string, agent: string, auth: Auth, guestSurname: string, draw: int -> string)
      requires Valid() && s !in connected
      modifies this`users, this`connected, this`notes, this`log, this`connectionSocketQueue,
        this`isConnectionBusy, this`pendingLoad
      ensures Valid()
      ensures connected == old(connected) + {s}
      ensures users == old(users)[s := Identify(NewUser(s, address, agent, draw(0)), auth, guestSurname)]
      ensures old(isConnectionBusy) ==>
        isConnectionBusy && notes == old(notes) && pendingLoad == old(pendingLoad)
        && connectionSocketQueue == old(connectionSocketQueue) + [s] && log == old(log) + Rejections(s)
      ensures !old(isConnectionBusy) && NoteKey(s).None? ==>
        isConnectionBusy && notes == old(notes) && connectionSocketQueue == old(connectionSocketQueue) + [s]
        && log == old(log)
      ensures !old(isConnectionBusy) && NoteKey(s).Some? && NoteKey(s).value !in old(notes) ==>
        isConnectionBusy && notes == old(notes) && pendingLoad == Some(s)
        && connectionSocketQueue == old(connectionSocketQueue) + [s]
        && log == old(log) + Rejections(s) + Rejections(s)
      ensures !old(isConnectionBusy) && NoteKey(s).Some? && NoteKey(s).value in old(notes) ==>
        var k := NoteKey(s).value;
        && k in notes && s in notes[k].users && s in notes[k].socks && s !in connectionSocketQueue
        && old(log) + Rejections(s) + Rejections(s) + JoinLog(s, k, old(notes), users) <= log
      ensures AllJoined(old(notes), notes)
      ensures isConnectionBusy || connectionSocketQueue == []
      ensures old(log) <= log
    {
      Admit(s, address, agent, auth, guestSurname, draw);
      StartConnection(s);
    }

    /** The part of the `connection` handler before the start: the lookup,
        the colour draw, and the registration of the session. */
    method Admit(s: SockId, address: string, agent: string, auth: Auth, guestSurname: string, draw: int -> string)
      requires Valid() && s !in connected
      modifies this`users, this`connected, this`log, this`connectionSocketQueue
      ensures Valid()
      ensures connected == old(connected) + {s}
      ensures users == old(users)[s := Identify(NewUser(s, address, agent, draw(0)), auth, guestSurname)]
      ensures connectionSocketQueue == old(connectionSocketQueue) + [s]
      ensures log == old(log) + Rejections(s)
    {
      var key := NotenameFromSocket(s);
      var color := draw(0);
      if key.Some? && key.value in notes {
        color := PickColor(notes[key.value].users, draw);
      }
      Register(Identify(NewUser(s, address, agent, color), auth, guestSurname));
    }

    /** Files a fresh session record in the registry and appends its socket
        to the connection queue. */
    method Register(u: User)
      requires Valid() && u.id !in connected
      modifies this`users, this`connected, this`connectionSocketQueue
      ensures Valid()
      ensures users == old(users)[u.id := u] && connected == old(connected) + {u.id}
      ensures connectionSocketQueue == old(connectionSocketQueue) + [u.id]
    {
      users := users[u.id := u];
      connected := connected + {u.id};
      assert u.id !in connectionSocketQueue;
      AppendFresh(connectionSocketQueue, u.id);
      connectionSocketQueue := connectionSocketQueue + [u.id];
    }

    /** Completion of the store read issued by startConnection, together
        with the find-or-create of the note record that follows it. */
    method LoadCompleted(read: Option<Stored>, record: NoteRecord, otk: string)
      requires Valid() && pendingLoad.Some?
      modifies this`notes, this`log, this`connectionSocketQueue, this`isConnectionBusy, this`pendingLoad,
        this`lastStored
      ensures Valid()
      ensures old(log) <= log
      ensures var s := old(pendingLoad).value;
        read.None? ==>
          !isConnectionBusy && pendingLoad.None? && notes == old(notes) && lastStored == old(lastStored)
          && connectionSocketQueue == Without(old(connectionSocketQueue), s)
          && log == old(log) + [Emit(s, Info(404)), Close(s)]
      ensures read.Some? && record.RecordError? ==>
        isConnectionBusy && notes == old(notes) && lastStored == old(lastStored)
        && connectionSocketQueue == old(connectionSocketQueue) && log == old(log)
      ensures var s := old(pendingLoad).value; var k := NoteKey(s).value;
        read.Some? && !record.RecordError? ==>
          var loaded := Materialized(read.value, LoadedPermission(record, read.value.owner), otk, Hash(read.value.content));
          && k !in old(notes) && AllJoined(old(notes)[k := loaded], notes)
          && k in notes && s in notes[k].users && s in notes[k].socks
          && s !in connectionSocketQueue
          && lastStored == old(lastStored)[k := read.value.content]
          && old(log) + JoinLog(s, k, old(notes)[k := loaded], users) <= log
    {
      var s := pendingLoad.value;
      var k := NoteKey(s).value;
      pendingLoad := None;
      if read.None? {
        log := log + [Emit(s, Info(404)), Close(s)];
        ReleaseConnection(s);
        // the next queued socket is not started here
      } else if record.RecordError? {
        // the error path calls an undefined function and throws: the flag stays set
      } else {
        var st := read.value;
        var loaded := Materialized(st, LoadedPermission(record, st.owner), otk, Hash(st.content));
        Install(k, loaded);
        FinishConnection(s, k);
      }
    }

    /** Files a note just read from the store under `k`, its body being the stored content. */
    method Install(k: string, loaded: Note)
      requires Valid() && pendingLoad.None?
      requires loaded.users == [] && loaded.socks == [] && !loaded.isDirty && loaded.hash == Hash(loaded.body)
      modifies this`notes, this`lastStored
      ensures Valid()
      ensures notes == old(notes)[k := loaded] && lastStored == old(lastStored)[k := loaded.body]
    {
      NotesOkStore(notes, lastStored, k, loaded, loaded.body);
      notes := notes[k := loaded];
      lastStored := lastStored[k := loaded.body];
    }

    lemma NotesOkRemove(ns: map<string, Note>, stored: map<string, string>, k: string)
      requires NotesOk(ns, stored)
      ensures NotesOk(ns - {k}, stored)
    {
      var ns' := ns - {k};
      forall n | n in ns' ensures NoteOk(n, ns'[n], stored) {
        assert NoteOk(n, ns[n], stored);
      }
    }

    /** The note-table half of disconnect's main branch: take the session
        out of note `k`, then evict the note when no user is left, at once
        when clean, after issuing its save when dirty. */
    method LeaveNote(s: SockId, k: string)
      requires Valid() && k in notes
      modifies this`notes, this`log, this`pendingEvictions, this`lastStored
      ensures Valid()
      ensures notes == LeftTable(old(notes), k, s)
      ensures log == old(log) + EvictionSaves(old(notes), k, s, TitleOf)
      ensures pendingEvictions == old(pendingEvictions) + if Orphaned(old(notes), k, s) then multiset{k} else multiset{}
      ensures lastStored == if Orphaned(old(notes), k, s) then old(lastStored)[k := old(notes)[k].body] else old(lastStored)
    {
      var note := notes[k];
      DetachedOk(k, note, s, lastStored);
      var socks := RemoveEvery(note.socks, s);
      note := note.(users := Without(note.users, s), socks := socks);
      if |note.users| <= 0 {
        if note.isDirty {
          log := log + [Save(k, TitleOf(note.body), note.body)];
          NotesOkStore(notes, lastStored, k, note, note.body);
          lastStored := lastStored[k := note.body];
          pendingEvictions := pendingEvictions + multiset{k};
          notes := notes[k := note];
        } else {
          NotesOkRemove(notes, lastStored, k);
          notes := notes - {k};
        }
      } else {
        NotesOkSet(notes, lastStored, k, note);
        notes := notes[k := note];
      }
    }

    /** The part of disconnect between the lookup and the queue bookkeeping:
        drop the session record, leave the note, and tell those who remain. */
    method Detach(s: SockId, k: string)
      requires Valid() && NoteKey(s) == Some(k)
      modifies this`users, this`notes, this`log, this`pendingEvictions, this`lastStored
      ensures Valid()
      ensures users == old(users) - {s}
      ensures notes == if k in old(notes) then LeftTable(old(notes), k, s) else old(notes)
      ensures log == old(log) + (if k in old(notes) then EvictionSaves(old(notes), k, s, TitleOf) else [])
        + RosterLog(s, notes, users)
      ensures pendingEvictions ==
        old(pendingEvictions) + if k in old(notes) && Orphaned(old(notes), k, s) then multiset{k} else multiset{}
      ensures s !in users && Absent(s, notes)
      ensures AllLeft(old(notes), notes)
      ensures old(log) <= log && old(pendingEvictions) <= pendingEvictions
    {
      ghost var ev := if k in notes then EvictionSaves(notes, k, s, TitleOf) else [];
      Depart(s, k);
      EmitOnlineUsers(s);
      ConcatAssoc(old(log), ev, RosterLog(s, notes, users));
    }

    /** Detach up to the broadcast. */
    method Depart(s: SockId, k: string)
      requires Valid() && NoteKey(s) == Some(k)
      modifies this`users, this`notes, this`log, this`pendingEvictions, this`lastStored
      ensures Valid()
      ensures users == old(users) - {s}
      ensures notes == if k in old(notes) then LeftTable(old(notes), k, s) else old(notes)
      ensures log == old(log) + if k in old(notes) then EvictionSaves(old(notes), k, s, TitleOf) else []
      ensures pendingEvictions ==
        old(pendingEvictions) + if k in old(notes) && Orphaned(old(notes), k, s) then multiset{k} else multiset{}
      ensures s !in users && Absent(s, notes)
      ensures AllLeft(old(notes), notes)
    {
      users := users - {s};
      if k in notes {
        LeaveNote(s, k);
      }
      AbsentElsewhere(s, k);
    }

    /** A session whose note is `k` is listed by no other note. */
    lemma AbsentElsewhere(s: SockId, k: string)
      requires NotesOk(notes, lastStored) && NoteKey(s) == Some(k)
      requires k in notes ==> s !in notes[k].users && s !in notes[k].socks
      ensures Absent(s, notes)
    {
      forall n | n in notes ensures s !in notes[n].users && s !in notes[n].socks {
        if n != k {
          assert NoteOk(n, notes[n], lastStored);
        }
      }
    }

    /** The tail of disconnect before the next head is processed: the
        socket is spliced out of the disconnect queue and the flag released. */
    method ReleaseDisconnect(s: SockId)
      requires s in disconnectSocketQueue
      modifies this`disconnectSocketQueue, this`isDisconnectBusy
      ensures !isDisconnectBusy
      ensures disconnectSocketQueue == Spliced(old(disconnectSocketQueue), s)
      ensures |disconnectSocketQueue| < |old(disconnectSocketQueue)|
    {
      SplicedShrinks(disconnectSocketQueue, s);
      disconnectSocketQueue := SpliceMatching(disconnectSocketQueue, s);
      isDisconnectBusy := false;
    }

    /** Disconnect's main branch up to the processing of the next head. */
    method DetachAndRelease(s: SockId, k: string)
      requires Valid() && NoteKey(s) == Some(k) && s in disconnectSocketQueue
      modifies this`users, this`notes, this`log, this`pendingEvictions, this`lastStored,
        this`disconnectSocketQueue, this`isDisconnectBusy
      ensures Valid() && !isDisconnectBusy
      ensures disconnectSocketQueue == Spliced(old(disconnectSocketQueue), s)
      ensures |disconnectSocketQueue| < |old(disconnectSocketQueue)|
      ensures users == old(users) - {s}
      ensures notes == DepartTable(s, k, old(notes))
      ensures log == old(log) + DepartLog(s, k, old(notes), old(users))
      ensures pendingEvictions == old(pendingEvictions) + DepartEvictions(s, k, old(notes))
      ensures s !in users && Absent(s, notes)
      ensures AllLeft(old(notes), notes)
    {
      ghost var ev := if k in notes then EvictionSaves(notes, k, s, TitleOf) else [];
      Detach(s, k);
      assert notes == DepartTable(s, k, old(notes)) && users == old(users) - {s};
      ConcatAssoc(old(log), ev, RosterLog(s, notes, users));
      ReleaseDisconnect(s);
    }

    /** disconnect. Does nothing while another disconnect is in progress;
        otherwise takes the flag and, when the lookup is falsy, returns still
        holding it; else detaches, clears the socket from the disconnect
        queue, releases the flag and processes the queue's new head. */
    method Disconnect(s: SockId)
      requires Valid() && s in disconnectSocketQueue
      modifies this`users, this`notes, this`log, this`pendingEvictions, this`lastStored,
        this`disconnectSocketQueue, this`isDisconnectBusy
      decreases |disconnectSocketQueue|
      ensures Valid()
      ensures old(isDisconnectBusy) ==>
        isDisconnectBusy && users == old(users) && notes == old(notes) && log == old(log)
        && disconnectSocketQueue == old(disconnectSocketQueue) && pendingEvictions == old(pendingEvictions)
      ensures !old(isDisconnectBusy) && NoteKey(s).None? ==>
        isDisconnectBusy && users == old(users) && notes == old(notes) && log == old(log)
        && disconnectSocketQueue == old(disconnectSocketQueue) && pendingEvictions == old(pendingEvictions)
      ensures !old(isDisconnectBusy) && NoteKey(s).Some? ==>
        var k := NoteKey(s).value;
        && s !in users && Absent(s, notes)
        && old(log) + Rejections(s) + DepartLog(s, k, old(notes), old(users)) <= log
        && old(pendingEvictions) + DepartEvictions(s, k, old(notes)) <= pendingEvictions
      ensures !old(isDisconnectBusy) && NoteKey(s).Some? && old(disconnectSocketQueue) == [s] ==>
        var k := NoteKey(s).value;
        && !isDisconnectBusy && disconnectSocketQueue == []
        && users == old(users) - {s} && notes == DepartTable(s, k, old(notes))
        && log == old(log) + Rejections(s) + DepartLog(s, k, old(notes), old(users))
        && pendingEvictions == old(pendingEvictions) + DepartEvictions(s, k, old(notes))
      ensures forall x :: x in users ==> x in old(users) && users[x] == old(users)[x]
      ensures AllLeft(old(notes), notes)
      ensures isDisconnectBusy || disconnectSocketQueue == []
      ensures old(log) <= log && old(pendingEvictions) <= pendingEvictions
    {
      if isDisconnectBusy {
        return;
      }
      isDisconnectBusy := true;
      var key := NotenameFromSocket(s);
      if key.None? {
        return;
      }
      ghost var l0 := log;
      DetachAndRelease(s, key.value);
      ConcatAssoc(old(log), Rejections(s), DepartLog(s, key.value, old(notes), old(users)));
      if disconnectSocketQueue != [] {
        ghost var n1 := notes;
        ghost var l1 := log;
        Disconnect(disconnectSocketQueue[0]);
        AllLeftTrans(old(notes), n1, notes);
        AbsentLeft(s, n1, notes);
        assert l0 <= l1 <= log;
      }
    }

    /** The `disconnect` handler: queue the socket and try to process it.
        The disconnect queue is empty whenever its flag is free (the
        constructor starts so and `Disconnect` keeps it), so a free flag
        means the socket is processed alone. */
    method DisconnectEvent(s: SockId)
      requires Valid()
      requires isDisconnectBusy || disconnectSocketQueue == []
      modifies this`users, this`notes, this`log, this`pendingEvictions, this`lastStored,
        this`disconnectSocketQueue, this`isDisconnectBusy
      ensures Valid()
      ensures old(isDisconnectBusy) ==>
        isDisconnectBusy && users == old(users) && notes == old(notes) && log == old(log)
        && disconnectSocketQueue == old(disconnectSocketQueue) + [s] && pendingEvictions == old(pendingEvictions)
      ensures !old(isDisconnectBusy) && NoteKey(s).None? ==>
        isDisconnectBusy && users == old(users) && notes == old(notes) && log == old(log)
        && disconnectSocketQueue == old(disconnectSocketQueue) + [s] && pendingEvictions == old(pendingEvictions)
      ensures !old(isDisconnectBusy) && NoteKey(s).Some? ==>
        var k := NoteKey(s).value;
        && !isDisconnectBusy && disconnectSocketQueue == []
        && s !in users && Absent(s, notes)
        && users == old(users) - {s} && notes == DepartTable(s, k, old(notes))
        && log == old(log) + Rejections(s) + DepartLog(s, k, old(notes), old(users))
        && pendingEvictions == old(pendingEvictions) + DepartEvictions(s, k, old(notes))
      ensures forall x :: x in users ==> x in old(users) && users[x] == old(users)[x]
      ensures AllLeft(old(notes), notes)
      ensures isDisconnectBusy || disconnectSocketQueue == []
      ensures old(log) <= log && old(pendingEvictions) <= pendingEvictions
    {
      disconnectSocketQueue := disconnectSocketQueue + [s];
      Disconnect(s);
    }

    /** The store's reply to the last-disconnect save: the note is deleted,
        whoever has joined it since. */
    method EvictionSaved(k: string)
      requires Valid() && k in pendingEvictions
      modifies this`notes, this`pendingEvictions
      ensures Valid()
      ensures notes == old(notes) - {k}
      ensures pendingEvictions == old(pendingEvictions) - multiset{k}
    {
      NotesOkRemove(notes, lastStored, k);
      notes := notes - {k};
      pendingEvictions := pendingEvictions - multiset{k};
    }

    /** The `version` handler. */
    method VersionRequest(s: SockId)
      modifies this`log
      ensures log == old(log) + [Emit(s, Version(version))]
    {
      log := log + [Emit(s, Version(version))];
    }

    /** The `online users` handler: the roster to the requesting socket alone. */
    method OnlineUsersRequest(s: SockId)
      modifies this`log
      ensures var k := NoteKey(s);
        log == old(log) + Rejections(s) +
          if k.Some? && k.value in notes then [Emit(s, OnlineUsers(Roster(notes[k.value].users, users)))] else []
    {
      var key := NotenameFromSocket(s);
      if key.None? || key.value !in notes {
        return;
      }
      var roster := CollectRoster(notes[key.value].users, users);
      log := log + [Emit(s, OnlineUsers(roster))];
      ConcatAssoc(old(log), Rejections(s), [Emit(s, OnlineUsers(roster))]);
    }

    /** The `update` handler: apply the body, then send every socket of the
        note (the sender included) the note's hash and update time. */
    method Update(s: SockId, body: string, now: int)
      requires Valid()
      modifies this`notes, this`log
      ensures Valid()
      ensures var k := NoteKey(s);
        k.Some? && k.value in old(notes) ==>
          var n := Edited(old(notes)[k.value], body, now);
          && notes == old(notes)[k.value := n]
          && log == old(log) + Rejections(s) + FanOut(n.socks, Check(s, n.hash, n.updatetime), None)
      ensures var k := NoteKey(s);
        !(k.Some? && k.value in old(notes)) ==> notes == old(notes) && log == old(log) + Rejections(s)
    {
      var key := NotenameFromSocket(s);
      if key.None? || key.value !in notes {
        return;
      }
      var note := notes[key.value];
      assert NoteOk(key.value, note, lastStored);
      note := Edited(note, body, now);
      NotesOkSet(notes, lastStored, key.value, note);
      notes := notes[key.value := note];
      var out := Broadcast(note.socks, Check(s, note.hash, note.updatetime), None);
      log := log + out;
      ConcatAssoc(old(log), Rejections(s), out);
    }

    /** The `change` handler: the permission gate, the decode, the origin
        allow-list, then the operation stamped with the sender and the token
        chain (the note's token becomes `nextOtk`) goes to every socket of
        the note, the sender included. */
    method Change(s: SockId, auth: Auth, op: Option<Op>, nextOtk: string)
      requires Valid()
      modifies this`notes, this`log
      ensures Valid()
      ensures var k := NoteKey(s);
        if k.Some? && k.value in old(notes) then
          var n := old(notes)[k.value];
          if MayChange(n.permission, n.owner, auth) && op.Some? && IsRelayed(op.value.origin) then
            && notes == old(notes)[k.value := n.(otk := nextOtk)]
            && log == old(log) + Rejections(s) + FanOut(n.socks, Msg.Change(Stamp(op.value, s, n.otk, nextOtk)), None)
          else notes == old(notes) && log == old(log) + Rejections(s)
        else notes == old(notes) && log == old(log) + Rejections(s)
    {
      var key := NotenameFromSocket(s);
      if key.None? || key.value !in notes {
        return;
      }
      var note := notes[key.value];
      if note.permission == "editable" {
        if !auth.loggedIn {
          return;
        }
      } else if note.permission == "locked" {
        if note.owner != auth.uid {
          return;
        }
      }
      if op.None? {
        return;
      }
      if op.value.origin !in RelayedOrigins {
        return;
      }
      ghost var out := FanOut(note.socks, Msg.Change(Stamp(op.value, s, note.otk, nextOtk)), None);
      Forward(s, key.value, op.value, nextOtk);
      ConcatAssoc(old(log), Rejections(s), out);
    }

    /** The tail of the `change` handler once the operation is admitted: the
        note's token moves to `nextOtk` and the stamped operation goes to
        every socket of the note. */
    method Forward(s: SockId, k: string, op: Op, nextOtk: string)
      requires Valid() && k in notes
      modifies this`notes, this`log
      ensures Valid()
      ensures notes == old(notes)[k := old(notes)[k].(otk := nextOtk)]
      ensures log == old(log) + FanOut(old(notes)[k].socks, Msg.Change(Stamp(op, s, old(notes)[k].otk, nextOtk)), None)
    {
      var note := notes[k];
      var stamped := Stamp(op, s, note.otk, nextOtk);
      NotesOkRelabel(notes, lastStored, k, note.(otk := nextOtk));
      notes := notes[k := note.(otk := nextOtk)];
      var out := Broadcast(note.socks, Msg.Change(stamped), None);
      log := log + out;
    }

    /** The `permission` handler. Only a logged-in owner may change the
        mode; the new mode is applied at once and its store write is issued
        (answered by `PermissionSaved`). */
    method Permission(s: SockId, auth: Auth, permission: string)
      requires Valid()
      modifies this`notes, this`log, this`permissionWrites
      ensures Valid()
      ensures !auth.loggedIn ==>
        notes == old(notes) && log == old(log) && permissionWrites == old(permissionWrites)
      ensures auth.loggedIn ==>
        var k := NoteKey(s);
        && log == old(log) + Rejections(s)
        && if k.Some? && k.value in old(notes) && old(notes)[k.value].owner == auth.uid then
             && notes == old(notes)[k.value := old(notes)[k.value].(permission := permission)]
             && permissionWrites == old(permissionWrites) + multiset{(k.value, permission)}
           else notes == old(notes) && permissionWrites == old(permissionWrites)
    {
      if !auth.loggedIn {
        return;
      }
      var key := NotenameFromSocket(s);
      if key.None? || key.value !in notes {
        return;
      }
      var note := notes[key.value];
      if note.owner != auth.uid {
        return;
      }
      NotesOkRelabel(notes, lastStored, key.value, note.(permission := permission));
      notes := notes[key.value := note.(permission := permission)];
      permissionWrites := permissionWrites + multiset{(key.value, permission)};
    }

    /** The store's answer to a permission write: when both `findNote` and
        `updatePermission` succeed (`saved`), the new mode goes to every
        socket the note lists at that moment; on an error nothing is sent. */
    method PermissionSaved(k: string, permission: string, saved: bool)
      requires (k, permission) in permissionWrites
      modifies this`log, this`permissionWrites
      ensures permissionWrites == old(permissionWrites) - multiset{(k, permission)}
      ensures log == old(log) +
        if saved && k in notes then FanOut(notes[k].socks, PermissionChanged(permission), None) else []
    {
      permissionWrites := permissionWrites - multiset{(k, permission)};
      if saved && k in notes {
        var out := Broadcast(notes[k].socks, PermissionChanged(permission), None);
        log := log + out;
      }
    }

    /** The `user status` handler: record the reported flags (when any),
        then broadcast the sender's record. */
    method UserStatus(s: SockId, data: Option<StatusData>)
      requires Valid()
      modifies this`users, this`log
      ensures Valid()
      ensures var k := NoteKey(s);
        if !(k.Some? && k.value in notes) || (data.Some? && s !in old(users)) then
          users == old(users) && log == old(log) + Rejections(s)
        else
          && users == (if data.Some? then old(users)[s := old(users)[s].(idle := data.value.idle, kind := data.value.kind)]
                       else old(users))
          && log == old(log) + Rejections(s) + StatusLog(s, notes, users)
    {
      var key := NotenameFromSocket(s);
      if key.None? || key.value !in notes {
        return;
      }
      if data.Some? {
        if s !in users {
          // writing a field of the missing record throws
          return;
        }
        users := users[s := users[s].(idle := data.value.idle, kind := data.value.kind)];
      }
      EmitUserStatus(s);
    }

    /** The `cursor focus` and `cursor activity` handlers: record the
        sender's cursor and send its record to every other socket of the note. */
    method Cursor(s: SockId, kind: CursorKind, data: Option<string>)
      requires Valid()
      modifies this`users, this`log
      ensures Valid()
      ensures var k := NoteKey(s);
        if k.Some? && k.value in notes && s in old(users) then
          var u := old(users)[s].(cursor := data);
          && users == old(users)[s := u]
          && log == old(log) + Rejections(s) + FanOut(notes[k.value].socks, CursorMoved(kind, OutData(u)), Some(s))
        else users == old(users) && log == old(log) + Rejections(s)
    {
      var key := NotenameFromSocket(s);
      if key.None? || key.value !in notes {
        return;
      }
      if s !in users {
        // writing a field of the missing record throws
        return;
      }
      users := users[s := users[s].(cursor := data)];
      var out := Broadcast(notes[key.value].socks, CursorMoved(kind, OutData(users[s])), Some(s));
      log := log + out;
      ConcatAssoc(old(log), Rejections(s), out);
    }

    /** The `cursor blur` handler: clear the sender's cursor and tell every other socket of the note. */
    method CursorBlur(s: SockId)
      requires Valid()
      modifies this`users, this`log
      ensures Valid()
      ensures var k := NoteKey(s);
        if k.Some? && k.value in notes && s in old(users) then
          && users == old(users)[s := old(users)[s].(cursor := None)]
          && log == old(log) + Rejections(s) + FanOut(notes[k.value].socks, Msg.CursorBlur(s), Some(s))
        else users == old(users) && log == old(log) + Rejections(s)
    {
      var key := NotenameFromSocket(s);
      if key.None? || key.value !in notes {
        return;
      }
      if s !in users {
        // writing a field of the missing record throws
        return;
      }
      users := users[s := users[s].(cursor := None)];
      var out := Broadcast(notes[key.value].socks, Msg.CursorBlur(s), Some(s));
      log := log + out;
      ConcatAssoc(old(log), Rejections(s), out);
    }

    /** The `user changed` handler: re-derive the identity of the record the
        note's user table holds for the sender, then re-broadcast the roster. */
    method UserChanged(s: SockId, auth: Auth, guestSurname: string)
      requires Valid()
      modifies this`users, this`log
      ensures Valid()
      ensures var k := NoteKey(s);
        if k.Some? && k.value in notes && s in notes[k.value].users && s in old(users) then
          && users == old(users)[s := Identify(old(users)[s], auth, guestSurname)]
          && log == old(log) + Rejections(s) + RosterLog(s, notes, users)
        else users == old(users) && log == old(log) + Rejections(s)
    {
      var key := NotenameFromSocket(s);
      if key.None? || key.value !in notes {
        return;
      }
      if s !in notes[key.value].users || s !in users {
        // the record is missing and writing its fields throws
        return;
      }
      users := users[s := Identify(users[s], auth, guestSurname)];
      EmitOnlineUsers(s);
    }

    /** The note table once the notes in `visited` have had their dirty flag cleared. */
    ghost function Cleared(ns: map<string, Note>, visited: set<string>): map<string, Note> {
      map k | k in ns :: if k in visited then ns[k].(isDirty := false) else ns[k]
    }

    lemma ClearedStep(ns: map<string, Note>, visited: set<string>, key: string)
      requires key in ns && key !in visited
      ensures Cleared(ns, visited)[key] == ns[key]
      ensures Cleared(ns, visited)[key := ns[key].(isDirty := false)] == Cleared(ns, visited + {key})
    {
    }

    /** The bodies of the dirty notes of `ns`. */
    ghost function DirtyBodies(ns: map<string, Note>): map<string, string> {
      map k | k in ns && ns[k].isDirty :: ns[k].body
    }

    /** Clearing every dirty flag keeps the invariant once the dirty bodies
        are recorded as handed to the store. */
    lemma ClearedOk(ns: map<string, Note>, stored: map<string, string>)
      requires NotesOk(ns, stored)
      ensures NotesOk(Cleared(ns, ns.Keys), stored + DirtyBodies(ns))
    {
      var ns' := Cleared(ns, ns.Keys);
      var stored' := stored + DirtyBodies(ns);
      forall n | n in ns' ensures NoteOk(n, ns'[n], stored') {
        assert NoteOk(n, ns[n], stored);
      }
    }

    /** The loop of the dirty-note sweep over the notes in `order`: each
        dirty note's save is issued with its current body and its flag cleared. */
    method ClearDirty(order: seq<string>, ns0: map<string, Note>) returns (ns: map<string, Note>, saves: seq<Action>)
      requires NoDups(order) && forall k :: k in order <==> k in ns0
      ensures ns == Cleared(ns0, ns0.Keys)
      ensures saves == SweepSaves(order, ns0, TitleOf)
    {
      ns := ns0;
      saves := [];
      ghost var visited: set<string> := {};
      for i := 0 to |order|
        invariant visited <= ns0.Keys && ns == Cleared(ns0, visited)
        invariant forall j :: 0 <= j < i ==> order[j] in visited
        invariant forall j :: i <= j < |order| ==> order[j] !in visited
        invariant saves == SweepSaves(order[..i], ns0, TitleOf)
      {
        var key := order[i];
        PrefixStep(order, i);
        SweepSavesAppend(order[..i], key, ns0, TitleOf);
        ClearedStep(ns0, visited, key);
        var note := ns[key];
        if note.isDirty {
          saves := saves + [Save(key, TitleOf(note.body), note.body)];
          ns := ns[key := note.(isDirty := false)];
        } else {
          assert ns[key := note.(isDirty := false)] == ns;
        }
        visited := visited + {key};
        forall j | i + 1 <= j < |order| ensures order[j] !in visited {
          assert order[j] != order[i];
        }
      }
      assert order[..|order|] == order;
      forall k | k in ns0 ensures k in visited {
        var j :| 0 <= j < |order| && order[j] == k;
      }
    }

    /** One pass of the dirty-note sweep, visiting the notes in the order
        returned: each dirty note's save is issued and its flag cleared
        right away, without waiting for the store's answer. */
    method Sweep() returns (order: seq<string>)
      requires Valid()
      modifies this`notes, this`log, this`lastStored
      ensures Valid()
      ensures NoDups(order) && forall k :: k in order <==> k in old(notes)
      ensures log == old(log) + SweepSaves(order, old(notes), TitleOf)
      ensures notes.Keys == old(notes).Keys
      ensures forall k :: k in notes ==> notes[k] == old(notes)[k].(isDirty := false)
    {
      order := KeySeq(notes.Keys);
      var ns, saves := ClearDirty(order, notes);
      ClearedOk(notes, lastStored);
      lastStored := lastStored + DirtyBodies(notes);
      notes := ns;
      log := log + saves;
    }

    /** The first callback of the status query (`countFromDB`): on a store
        error nothing is counted; otherwise the registry as it is now is tallied. */
    method CountStatus(count: Option<int>) returns (counts: Option<Status.Counts>)
      ensures counts == if count.Some? then Some(Status.CountsOf(count.value, users)) else None
    {
      if count.None? {
        return None;
      }
      var distinct, registered, distinctRegistered := Status.Tally(users);
      counts := Some(Status.Counts(count.value, distinct, registered, distinctRegistered));
    }

    /** The second callback (`getUserCount`), one store round trip after the
        first: the registry sizes are read in the state at that time. */
    method ReportStatus(counts: Status.Counts, regCount: Option<int>) returns (report: Option<Status.Report>)
      ensures report == if regCount.Some? then Some(Status.Assembled(counts, |notes|, |users|, regCount.value)) else None
    {
      if regCount.None? {
        return None;
      }
      report := Some(Status.Report(|notes|, |users|, counts.distinct, counts.notesCount, regCount.value,
        counts.registered, counts.distinctRegistered));
    }
  }
}
