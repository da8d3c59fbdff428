/** The values the relay keeps and exchanges: session records, live notes,
    the events it sends to sockets, and the pure rules it applies to them
    (the permission gate, the origin allow-list, the presence roster and
    the fan-out of one event to a list of sockets). */
module Protocol {
  import opened Wrappers
  import opened Sequences

  /** A socket is known by its id, which the transport assigns uniquely. */
  type SockId = string

  /** What the referer of a socket's handshake names.
      `Named(n)` is the reserved features note or a valid note id decoded
      to `n` (an empty `n` stands for a decode that yields nothing);
      `Invalid` is an id that fails the validity check. */
  datatype Route = Named(name: string) | Invalid

  /** An invalid id makes the lookup return the socket object itself, which,
      used as a property key, reads as this string. */
  const ObjectKey: string := "[object Object]"

  /** The key the relay uses for a socket's note; `None` when the lookup
      result is falsy. */
  function KeyOf(r: Route): (k: Option<string>)
    ensures k.None? <==> r == Named("")
    ensures r.Named? && r.name != "" ==> k == Some(r.name)
    ensures r.Invalid? ==> k == Some(ObjectKey)
  {
    match r
    case Named(n) => if n == "" then None else Some(n)
    case Invalid => Some(ObjectKey)
  }

  /** What the authorisation layer attached to the socket's request. */
  datatype Auth = Auth(loggedIn: bool, uid: Option<string>, displayName: string)

  /** One entry of the session registry. */
  datatype User = User(
    id: SockId,
    address: string,
    agent: string,
    color: string,
    cursor: Option<string>,
    login: bool,
    userid: Option<string>,
    name: Option<string>,
    idle: bool,
    kind: Option<string>)

  /** The public part of a user record sent to collaborators. */
  datatype UserOut = UserOut(
    id: SockId,
    login: bool,
    userid: Option<string>,
    color: string,
    cursor: Option<string>,
    name: Option<string>,
    idle: bool,
    kind: Option<string>)

  /** A live note. `users` lists the keys of the note's user table in
      insertion order; each key's record is the session registry's entry
      (the source stores the same object in both tables). */
  datatype Note = Note(
    owner: Option<string>,
    permission: string,
    socks: seq<SockId>,
    users: seq<SockId>,
    body: string,
    isDirty: bool,
    otk: string,
    hash: string,
    updatetime: int)

  /** A decoded edit operation: its origin tag and the rest of its fields. */
  datatype Op = Op(origin: string, content: string)

  /** An operation as relayed: stamped with its sender and the token chain. */
  datatype StampedOp = StampedOp(origin: string, content: string, id: SockId, otk: string, nextotk: string)

  datatype CursorKind = Focus | Activity

  /** Events sent to a socket (payloads as they are before compression). */
  datatype Msg =
    | Info(code: int)
    | OnlineUsers(roster: seq<UserOut>)
    | Refresh(owner: Option<string>, permission: string, body: string, otk: string, hash: string, updatetime: int)
    | UserStatus(user: UserOut)
    | Check(id: SockId, hash: string, updatetime: int)
    | PermissionChanged(permission: string)
    | CursorMoved(kind: CursorKind, user: UserOut)
    | CursorBlur(id: SockId)
    | Change(op: StampedOp)
    | Version(version: string)

  /** What the relay does to the outside world, in order. */
  datatype Action =
    | Emit(to: SockId, msg: Msg)
    | Close(sock: SockId)
    | Save(notename: string, title: string, body: string)

  /** A note row as read from the store. */
  datatype Stored = Stored(owner: Option<string>, content: string, updateTime: int)

  /** The result of finding or creating the note's domain record. */
  datatype NoteRecord = RecordError | Existing(permission: string) | Created

  /** Status flags a client reports. */
  datatype StatusData = StatusData(idle: bool, kind: Option<string>)

  /** Permission offered to find-or-create: `editable` for a note whose
      owner is set (truthy and not the string "null"), `freely` otherwise. */
  function DefaultPermission(owner: Option<string>): (p: string)
    ensures p == "editable" <==> owner.Some? && owner.value != "" && owner.value != "null"
    ensures p == "editable" || p == "freely"
  {
    if owner.Some? && owner.value != "" && owner.value != "null" then "editable" else "freely"
  }

  /** The permission a freshly loaded note takes: the existing record's, or
      the default offered when the record is created. */
  function LoadedPermission(record: NoteRecord, owner: Option<string>): string
    requires !record.RecordError?
  {
    if record.Existing? then record.permission else DefaultPermission(owner)
  }

  /** A note as built on a cache miss, before anyone is attached. */
  function Materialized(st: Stored, permission: string, otk: string, hash: string): (n: Note)
    ensures n.socks == [] && n.users == [] && !n.isDirty
    ensures n.owner == st.owner && n.body == st.content && n.otk == otk && n.hash == hash
  {
    Note(st.owner, permission, [], [], st.content, false, otk, hash, st.updateTime)
  }

  /** The permission gate of the change handler. A mode other than the
      three named ones falls through the switch and lets the change pass. */
  function MayChange(permission: string, owner: Option<string>, auth: Auth): (r: bool)
    ensures r <==> (permission == "editable" ==> auth.loggedIn) && (permission == "locked" ==> owner == auth.uid)
  {
    if permission == "editable" then auth.loggedIn
    else if permission == "locked" then owner == auth.uid
    else true
  }

  lemma GateByMode(owner: Option<string>, auth: Auth)
    ensures MayChange("freely", owner, auth)
    ensures MayChange("editable", owner, auth) <==> auth.loggedIn
    ensures MayChange("locked", owner, auth) <==> owner == auth.uid
  {
  }

  /** The fifteen origin tags whose operations are relayed. */
  const RelayedOrigins: set<string> := {
    "+input", "+delete", "+transpose", "paste", "cut", "undo", "redo", "drag",
    "*compose", "case", "+insertLine", "+swapLine", "+joinLines", "+duplicateLine", "+sortLines"
  }

  /** The origin switch of the change handler, case by case; any other
      origin lands in its default branch. */
  predicate IsRelayed(origin: string): (r: bool)
    ensures r <==> origin in RelayedOrigins
  {
    match origin
    case "+input" => true
    case "+delete" => true
    case "+transpose" => true
    case "paste" => true
    case "cut" => true
    case "undo" => true
    case "redo" => true
    case "drag" => true
    case "*compose" => true
    case "case" => true
    case "+insertLine" => true
    case "+swapLine" => true
    case "+joinLines" => true
    case "+duplicateLine" => true
    case "+sortLines" => true
    case _ => false
  }

  /** The allow-list holds fifteen distinct tags; an origin such as
      `setValue`, which a whole-document replacement carries, is not one. */
  lemma RelayedOriginsCount()
    ensures |RelayedOrigins| == 15
    ensures !IsRelayed("setValue") && !IsRelayed("")
  {
  }

  /** The decoded operation with the sender and the token chain added. */
  function Stamp(op: Op, id: SockId, otk: string, nextotk: string): (r: StampedOp)
    ensures r.origin == op.origin && r.content == op.content
    ensures r.id == id && r.otk == otk && r.nextotk == nextotk
  {
    StampedOp(op.origin, op.content, id, otk, nextotk)
  }

  /** The public part of a session record: everything but the address and
      the user agent. */
  function OutData(u: User): (r: UserOut)
    ensures r.id == u.id && r.login == u.login && r.userid == u.userid && r.color == u.color
    ensures r.cursor == u.cursor && r.name == u.name && r.idle == u.idle && r.kind == u.kind
  {
    UserOut(u.id, u.login, u.userid, u.color, u.cursor, u.name, u.idle, u.kind)
  }

  /** Collaborators never see a session's address or user agent. */
  lemma OutDataHidesAddress(u: User, address: string, agent: string)
    ensures OutData(u.(address := address, agent := agent)) == OutData(u)
  {
  }

  /** A fresh session record before its identity is bound: anonymous, not
      idle, with no cursor and no reported type. */
  function NewUser(id: SockId, address: string, agent: string, color: string): (r: User)
    ensures r.id == id && r.address == address && r.agent == agent && r.color == color
    ensures r.cursor.None? && !r.login && r.userid.None? && r.name.None? && !r.idle && r.kind.None?
  {
    User(id, address, agent, color, None, false, None, None, false, None)
  }

  /** Re-derive the identity binding from the authorisation context: a
      logged-in user takes the profile's name and user id, anyone else a
      guest name and no user id. Presence fields are left alone. */
  function Identify(u: User, auth: Auth, guestSurname: string): (r: User)
    ensures r.login == auth.loggedIn
    ensures r.userid == (if auth.loggedIn then auth.uid else None)
    ensures r.name == Some(if auth.loggedIn then auth.displayName else "Guest " + guestSurname)
    ensures r.(login := u.login, userid := u.userid, name := u.name) == u
  {
    if auth.loggedIn then u.(name := Some(auth.displayName), userid := auth.uid, login := true)
    else u.(userid := None, name := Some("Guest " + guestSurname), login := false)
  }

  /** The presence roster of a note: the public record of each key of its
      user table, in key order, skipping keys whose record is gone. */
  function Roster(members: seq<SockId>, users: map<SockId, User>): seq<UserOut> {
    if members == [] then []
    else (if members[0] in users then [OutData(users[members[0]])] else []) + Roster(members[1..], users)
  }

  /** The roster holds exactly the members that still have a record. */
  lemma {:induction false} RosterExact(members: seq<SockId>, users: map<SockId, User>, x: SockId)
    requires forall s :: s in users ==> users[s].id == s
    ensures (exists u :: u in Roster(members, users) && u.id == x) <==> x in members && x in users
    ensures forall u :: u in Roster(members, users) ==> u.id in users && u == OutData(users[u.id])
  {
    if members != [] {
      RosterExact(members[1..], users, x);
      assert members == [members[0]] + members[1..];
      var head := if members[0] in users then [OutData(users[members[0]])] else [];
      assert Roster(members, users) == head + Roster(members[1..], users);
      if x in members && x in users && x == members[0] {
        assert OutData(users[x]) in Roster(members, users);
      }
    }
  }

  lemma {:induction false} RosterAppend(members: seq<SockId>, x: SockId, users: map<SockId, User>)
    ensures Roster(members + [x], users) == Roster(members, users) + Roster([x], users)
  {
    if members == [] {
      assert members + [x] == [x];
    } else {
      var m := members + [x];
      assert m[0] == members[0] && m[1..] == members[1..] + [x];
      RosterAppend(members[1..], x, users);
      ConcatAssoc(if members[0] in users then [OutData(users[members[0]])] else [],
        Roster(members[1..], users), Roster([x], users));
    }
  }

  /** The pass over the keys of a note's user table that collects the
      public record of each key that still has one. */
  method CollectRoster(members: seq<SockId>, users: map<SockId, User>) returns (out: seq<UserOut>)
    ensures out == Roster(members, users)
  {
    out := [];
    for i := 0 to |members|
      invariant out == Roster(members[..i], users)
    {
      assert members[..i + 1] == members[..i] + [members[i]];
      RosterAppend(members[..i], members[i], users);
      if members[i] in users {
        out := out + [OutData(users[members[i]])];
      }
    }
    assert members[..|members|] == members;
  }

  /** The full snapshot sent on refresh. */
  function Snapshot(n: Note): Msg {
    Refresh(n.owner, n.permission, n.body, n.otk, n.hash, n.updatetime)
  }

  /** A note after `s` joins it: the user table gets the key `s` (a key
      already there keeps its place) and `s` is pushed onto the socket list. */
  function Attached(n: Note, s: SockId): Note {
    n.(users := if s in n.users then n.users else n.users + [s], socks := n.socks + [s])
  }

  /** A note after `s` leaves it: its key and every entry in the socket list go. */
  function Detached(n: Note, s: SockId): Note {
    n.(users := Without(n.users, s), socks := Without(n.socks, s))
  }

  /** `b` is `a` with possibly more sessions attached and nothing else changed. */
  ghost predicate Joined(a: Note, b: Note) {
    && b.(users := a.users, socks := a.socks) == a
    && (forall x :: x in a.users ==> x in b.users)
    && a.socks <= b.socks
  }

  /** `b` is `a` with possibly fewer sessions attached and nothing else changed. */
  ghost predicate Left(a: Note, b: Note) {
    && b.(users := a.users, socks := a.socks) == a
    && (forall x :: x in b.users ==> x in a.users)
    && (forall x :: x in b.socks ==> x in a.socks)
  }

  lemma JoinedAttached(n: Note, s: SockId)
    ensures Joined(n, Attached(n, s))
    ensures s in Attached(n, s).users && s in Attached(n, s).socks
  {
    assert n.socks <= n.socks + [s];
  }

  lemma JoinedTrans(a: Note, b: Note, c: Note)
    requires Joined(a, b) && Joined(b, c)
    ensures Joined(a, c)
  {
  }

  /** Every note of `a` is still there in `b`, joined by possibly more sessions. */
  ghost predicate AllJoined(a: map<string, Note>, b: map<string, Note>) {
    b.Keys == a.Keys && forall n :: n in a ==> Joined(a[n], b[n])
  }

  lemma AllJoinedTrans(a: map<string, Note>, b: map<string, Note>, c: map<string, Note>)
    requires AllJoined(a, b) && AllJoined(b, c)
    ensures AllJoined(a, c)
  {
    forall n | n in a ensures Joined(a[n], c[n]) {
      JoinedTrans(a[n], b[n], c[n]);
    }
  }

  /** Attaching a session to one note joins the whole table. */
  lemma AllJoinedAttached(m: map<string, Note>, k: string, s: SockId)
    requires k in m
    ensures AllJoined(m, m[k := Attached(m[k], s)])
  {
    JoinedAttached(m[k], s);
  }

  /** Leaving takes the session out of both lists of the note and changes nothing else. */
  lemma LeftDetached(n: Note, s: SockId)
    ensures Left(n, Detached(n, s))
    ensures s !in Detached(n, s).users && s !in Detached(n, s).socks
  {
    WithoutMembers(n.users, s, s);
    WithoutMembers(n.socks, s, s);
    forall x | x in Without(n.users, s) ensures x in n.users {
      WithoutMembers(n.users, s, x);
    }
    forall x | x in Without(n.socks, s) ensures x in n.socks {
      WithoutMembers(n.socks, s, x);
    }
  }

  lemma LeftTrans(a: Note, b: Note, c: Note)
    requires Left(a, b) && Left(b, c)
    ensures Left(a, c)
  {
  }

  /** Every note of `b` was in `a`, with possibly fewer sessions attached. */
  ghost predicate AllLeft(a: map<string, Note>, b: map<string, Note>) {
    forall n :: n in b ==> n in a && Left(a[n], b[n])
  }

  lemma AllLeftTrans(a: map<string, Note>, b: map<string, Note>, c: map<string, Note>)
    requires AllLeft(a, b) && AllLeft(b, c)
    ensures AllLeft(a, c)
  {
    forall n | n in c ensures n in a && Left(a[n], c[n]) {
      LeftTrans(a[n], b[n], c[n]);
    }
  }

  /** No note of `m` lists session `s`. */
  ghost predicate Absent(s: SockId, m: map<string, Note>) {
    forall n :: n in m ==> s !in m[n].users && s !in m[n].socks
  }

  /** A session absent from every note stays absent when sessions only leave. */
  lemma AbsentLeft(s: SockId, a: map<string, Note>, b: map<string, Note>)
    requires Absent(s, a) && AllLeft(a, b)
    ensures Absent(s, b)
  {
    forall n | n in b ensures s !in b[n].users && s !in b[n].socks {
      assert Left(a[n], b[n]);
    }
  }

  /** Session `s` leaving note `k` empties it of users while it holds unsaved edits. */
  predicate Orphaned(ns: map<string, Note>, k: string, s: SockId)
    requires k in ns
  {
    Without(ns[k].users, s) == [] && ns[k].isDirty
  }

  /** The note table after session `s` leaves note `k`. The note loses the
      session; once no user is left a clean note is dropped, while a dirty
      one stays until its save is answered. */
  function LeftTable(ns: map<string, Note>, k: string, s: SockId): (r: map<string, Note>)
    requires k in ns
    ensures AllLeft(ns, r)
    ensures k in r ==> r[k] == Detached(ns[k], s) && s !in r[k].users && s !in r[k].socks
    ensures k !in r <==> Without(ns[k].users, s) == [] && !ns[k].isDirty
    ensures forall n :: n in ns && n != k ==> n in r && r[n] == ns[n]
  {
    LeftDetached(ns[k], s);
    var d := Detached(ns[k], s);
    if d.users == [] && !d.isDirty then ns - {k} else ns[k := d]
  }

  /** The save issued when session `s` leaves note `k`: one, with the
      note's body, when the note is orphaned. */
  function EvictionSaves(ns: map<string, Note>, k: string, s: SockId, titleOf: string -> string): (r: seq<Action>)
    requires k in ns
    ensures r != [] <==> Orphaned(ns, k, s)
    ensures r != [] ==> r == [Save(k, titleOf(ns[k].body), ns[k].body)]
  {
    if Orphaned(ns, k, s) then SaveOf(k, Detached(ns[k], s), titleOf) else []
  }

  /** One `msg` to every socket in `socks` except `except`, in list order. */
  function FanOut(socks: seq<SockId>, msg: Msg, except: Option<SockId>): seq<Action> {
    if socks == [] then []
    else (if except == Some(socks[0]) then [] else [Emit(socks[0], msg)]) + FanOut(socks[1..], msg, except)
  }

  /** To everyone: exactly one event per entry of `socks`, in `socks` order. */
  lemma {:induction false} FanOutAll(socks: seq<SockId>, msg: Msg)
    ensures |FanOut(socks, msg, None)| == |socks|
    ensures forall i :: 0 <= i < |socks| ==> FanOut(socks, msg, None)[i] == Emit(socks[i], msg)
  {
    if socks != [] {
      FanOutAll(socks[1..], msg);
      var rest := FanOut(socks[1..], msg, None);
      assert FanOut(socks, msg, None) == [Emit(socks[0], msg)] + rest;
      forall i | 0 <= i < |socks| ensures FanOut(socks, msg, None)[i] == Emit(socks[i], msg) {
        if i > 0 {
          assert FanOut(socks, msg, None)[i] == rest[i - 1];
          assert socks[1..][i - 1] == socks[i];
        }
      }
    }
  }

  /** To everyone else: the same as sending to the list with the sender taken out. */
  lemma {:induction false} FanOutExcept(socks: seq<SockId>, msg: Msg, s: SockId)
    ensures FanOut(socks, msg, Some(s)) == FanOut(Without(socks, s), msg, None)
  {
    if socks != [] {
      FanOutExcept(socks[1..], msg, s);
      if socks[0] != s {
        assert ([socks[0]] + Without(socks[1..], s))[1..] == Without(socks[1..], s);
      }
    }
  }

  lemma {:induction false} FanOutAppend(socks: seq<SockId>, x: SockId, msg: Msg, except: Option<SockId>)
    ensures FanOut(socks + [x], msg, except) == FanOut(socks, msg, except) + FanOut([x], msg, except)
  {
    if socks == [] {
      assert socks + [x] == [x];
    } else {
      assert (socks + [x])[1..] == socks[1..] + [x];
      FanOutAppend(socks[1..], x, msg, except);
    }
  }

  /** The loop over a note's socket list that sends `msg` to each entry (but the sender, when given). */
  method Broadcast(socks: seq<SockId>, msg: Msg, except: Option<SockId>) returns (out: seq<Action>)
    ensures out == FanOut(socks, msg, except)
  {
    out := [];
    for i := 0 to |socks|
      invariant out == FanOut(socks[..i], msg, except)
    {
      assert socks[..i + 1] == socks[..i] + [socks[i]];
      FanOutAppend(socks[..i], socks[i], msg, except);
      if except != Some(socks[i]) {
        out := out + [Emit(socks[i], msg)];
      }
    }
    assert socks[..|socks|] == socks;
  }

  /** The `color` property read off a key of the note's user table. The
      keys are strings, and a string has no such property: the read is
      always undefined. */
  function ColorProperty(key: SockId): Option<string> {
    None
  }

  /** The colour retry loop of the connection handler, with `draw(i)` the
      i-th colour the generator produces. It compares each key's `color`
      property with the candidate, so it never sees a clash and keeps the
      first colour drawn. */
  method PickColor(keys: seq<SockId>, draw: int -> string) returns (color: string)
    ensures color == draw(0)
  {
    color := draw(0);
    var randomcount := 0;
    var maxrandomcount := 5;
    var found := false;
    var again := true;
    while again
      invariant 0 <= randomcount <= maxrandomcount
      invariant !found && color == draw(0)
      decreases if again then maxrandomcount + 1 - randomcount else 0
    {
      for i := 0 to |keys|
        invariant !found
      {
        if ColorProperty(keys[i]) == Some(color) {
          found := true;
        }
      }
      if found {
        randomcount := randomcount + 1;
        color := draw(randomcount);
      }
      again := found && randomcount < maxrandomcount;
    }
  }

  /** The save the sweep issues for note `k`: one, with its current body, when dirty. */
  function SaveOf(k: string, n: Note, titleOf: string -> string): seq<Action> {
    if n.isDirty then [Save(k, titleOf(n.body), n.body)] else []
  }

  /** The saves the dirty sweep issues when it visits the notes in `order`. */
  function SweepSaves(order: seq<string>, notes: map<string, Note>, titleOf: string -> string): seq<Action> {
    if order == [] then []
    else (if order[0] in notes then SaveOf(order[0], notes[order[0]], titleOf) else []) + SweepSaves(order[1..], notes, titleOf)
  }

  lemma {:induction false} SweepSavesAppend(order: seq<string>, k: string, notes: map<string, Note>, titleOf: string -> string)
    requires k in notes
    ensures SweepSaves(order + [k], notes, titleOf) == SweepSaves(order, notes, titleOf) + SaveOf(k, notes[k], titleOf)
  {
    if order == [] {
      assert order + [k] == [k] && [k][1..] == [];
    } else {
      var o := order + [k];
      assert o[0] == order[0] && o[1..] == order[1..] + [k];
      SweepSavesAppend(order[1..], k, notes, titleOf);
      ConcatAssoc(if order[0] in notes then SaveOf(order[0], notes[order[0]], titleOf) else [],
        SweepSaves(order[1..], notes, titleOf), SaveOf(k, notes[k], titleOf));
    }
  }

  /** Each dirty note is saved exactly once, with its current body, and nothing else is saved. */
  lemma {:induction false} SweepSavesExact(order: seq<string>, notes: map<string, Note>, titleOf: string -> string, a: Action)
    requires forall k :: k in order ==> k in notes
    requires NoDups(order)
    ensures a in SweepSaves(order, notes, titleOf) <==>
      a.Save? && a.notename in order && notes[a.notename].isDirty
      && a.body == notes[a.notename].body && a.title == titleOf(a.body)
    ensures multiset(SweepSaves(order, notes, titleOf))[a] <= 1
  {
    if order != [] {
      var t := order[1..];
      assert NoDups(t) by {
        forall i, j | 0 <= i < j < |t| ensures t[i] != t[j] {
          assert t[i] == order[i + 1] && t[j] == order[j + 1];
        }
      }
      assert order[0] !in t by {
        forall k | 0 <= k < |t| ensures t[k] != order[0] {
          assert t[k] == order[k + 1];
        }
      }
      SweepSavesExact(t, notes, titleOf, a);
      assert order == [order[0]] + t;
      var head := SaveOf(order[0], notes[order[0]], titleOf);
      assert SweepSaves(order, notes, titleOf) == head + SweepSaves(t, notes, titleOf);
      if a in head {
        assert a.notename == order[0];
        assert a !in SweepSaves(t, notes, titleOf);
      }
    }
  }
}
