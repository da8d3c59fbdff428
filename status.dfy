/** The counting done by the status query over the session registry. */
module Status {
  import opened Wrappers
  import opened Sequences
  import opened Protocol

  /** The figures the status query reports. */
  datatype Report = Report(
    onlineNotes: nat,
    onlineUsers: nat,
    distinctOnlineUsers: nat,
    notesCount: int,
    registeredUsers: int,
    onlineRegisteredUsers: nat,
    distinctOnlineRegisteredUsers: nat)

  /** What the first store callback computes: the store's note count and
      the three address tallies of the session registry at that moment. */
  datatype Counts = Counts(notesCount: int, distinct: nat, registered: nat, distinctRegistered: nat)

  /** Network addresses of the sessions whose ids are in `ks`. */
  function AddressesOf(users: map<SockId, User>, ks: set<SockId>): set<string> {
    set s | s in ks && s in users :: users[s].address
  }

  /** Sessions, among those in `ks`, bound to a logged-in user. */
  function LoggedInOf(users: map<SockId, User>, ks: set<SockId>): set<SockId> {
    set s | s in ks && s in users && users[s].login
  }

  function Addresses(users: map<SockId, User>): set<string> {
    AddressesOf(users, users.Keys)
  }

  function LoggedIn(users: map<SockId, User>): set<SockId> {
    LoggedInOf(users, users.Keys)
  }

  function LoggedInAddresses(users: map<SockId, User>): set<string> {
    AddressesOf(users, LoggedIn(users))
  }

  /** No more distinct addresses than sessions they come from. */
  lemma {:induction false} AddressesBound(users: map<SockId, User>, ks: set<SockId>)
    requires ks <= users.Keys
    ensures |AddressesOf(users, ks)| <= |ks|
    decreases ks
  {
    if ks != {} {
      var x :| x in ks;
      AddressesBound(users, ks - {x});
      assert AddressesOf(users, ks) == AddressesOf(users, ks - {x}) + {users[x].address};
    }
  }

  lemma SubsetCard<T>(a: set<T>, b: set<T>)
    requires a <= b
    ensures |a| <= |b|
  {
    assert b == a + (b - a);
  }

  /** The bounds between the status figures. */
  lemma StatusBounds(users: map<SockId, User>)
    ensures |Addresses(users)| <= |users|
    ensures |LoggedIn(users)| <= |users|
    ensures |LoggedInAddresses(users)| <= |LoggedIn(users)|
    ensures |LoggedInAddresses(users)| <= |Addresses(users)|
  {
    AddressesBound(users, users.Keys);
    assert LoggedIn(users) <= users.Keys;
    SubsetCard(LoggedIn(users), users.Keys);
    AddressesBound(users, LoggedIn(users));
    SubsetCard(LoggedInAddresses(users), Addresses(users));
  }

  /** The ids among the first `j` keys. */
  function Seen(ks: seq<SockId>, j: nat): set<SockId>
    requires j <= |ks|
  {
    set s | s in ks[..j]
  }

  /** What visiting the `j`-th key adds to each of the three collections. */
  lemma VisitKey(users: map<SockId, User>, ks: seq<SockId>, j: nat)
    requires j < |ks| && NoDups(ks) && ks[j] in users
    ensures AddressesOf(users, Seen(ks, j + 1)) == AddressesOf(users, Seen(ks, j)) + {users[ks[j]].address}
    ensures users[ks[j]].login ==> LoggedInOf(users, Seen(ks, j + 1)) == LoggedInOf(users, Seen(ks, j)) + {ks[j]}
    ensures !users[ks[j]].login ==> LoggedInOf(users, Seen(ks, j + 1)) == LoggedInOf(users, Seen(ks, j))
    ensures ks[j] !in LoggedInOf(users, Seen(ks, j))
    ensures users[ks[j]].login ==>
      AddressesOf(users, LoggedInOf(users, Seen(ks, j + 1))) == AddressesOf(users, LoggedInOf(users, Seen(ks, j))) + {users[ks[j]].address}
    ensures !users[ks[j]].login ==>
      AddressesOf(users, LoggedInOf(users, Seen(ks, j + 1))) == AddressesOf(users, LoggedInOf(users, Seen(ks, j)))
  {
    assert ks[..j + 1] == ks[..j] + [ks[j]];
    assert Seen(ks, j + 1) == Seen(ks, j) + {ks[j]};
  }

  /** A duplicate-free list that holds exactly the elements of `s` is as long as `s` is large. */
  lemma ListCard(list: seq<string>, s: set<string>)
    requires NoDups(list) && forall a :: a in list <==> a in s
    ensures |list| == |s|
  {
    assert (set a | a in list) == s;
    DistinctCard(list);
  }

  /** The status query's pass over the session registry: a list of distinct
      addresses, a list of the logged-in sessions' addresses, and a list of
      their distinct addresses, each built with a linear search. */
  method Tally(users: map<SockId, User>) returns (distinct: nat, registered: nat, distinctRegistered: nat)
    ensures distinct == |Addresses(users)|
    ensures registered == |LoggedIn(users)|
    ensures distinctRegistered == |LoggedInAddresses(users)|
  {
    var keys := KeySeq(users.Keys);
    var distinctaddresses: seq<string> := [];
    var regaddresses: seq<string> := [];
    var distinctregaddresses: seq<string> := [];
    ghost var seenAddresses: set<string> := {};
    ghost var seenLoggedIn: set<SockId> := {};
    ghost var seenLoggedInAddresses: set<string> := {};
    for j := 0 to |keys|
      invariant seenAddresses == AddressesOf(users, Seen(keys, j))
      invariant seenLoggedIn == LoggedInOf(users, Seen(keys, j))
      invariant seenLoggedInAddresses == AddressesOf(users, LoggedInOf(users, Seen(keys, j)))
      invariant NoDups(distinctaddresses) && forall a :: a in distinctaddresses <==> a in seenAddresses
      invariant |regaddresses| == |seenLoggedIn|
      invariant NoDups(distinctregaddresses) && forall a :: a in distinctregaddresses <==> a in seenLoggedInAddresses
    {
      var key := keys[j];
      var user := users[key];
      VisitKey(users, keys, j);
      var found := Contains(distinctaddresses, user.address);
      if !found {
        AppendFresh(distinctaddresses, user.address);
        distinctaddresses := distinctaddresses + [user.address];
      }
      seenAddresses := seenAddresses + {user.address};
      if user.login {
        regaddresses := regaddresses + [user.address];
        seenLoggedIn := seenLoggedIn + {key};
        found := Contains(distinctregaddresses, user.address);
        if !found {
          AppendFresh(distinctregaddresses, user.address);
          distinctregaddresses := distinctregaddresses + [user.address];
        }
        seenLoggedInAddresses := seenLoggedInAddresses + {user.address};
      }
    }
    assert keys[..|keys|] == keys;
    assert Seen(keys, |keys|) == users.Keys;
    ListCard(distinctaddresses, Addresses(users));
    ListCard(distinctregaddresses, LoggedInAddresses(users));
    distinct := |distinctaddresses|;
    registered := |regaddresses|;
    distinctRegistered := |distinctregaddresses|;
  }

  /** The tallies of one registry, within the bounds that hold between them. */
  function CountsOf(notesCount: int, users: map<SockId, User>): (c: Counts)
    ensures c.notesCount == notesCount
    ensures c.distinct <= |users| && c.registered <= |users|
    ensures c.distinctRegistered <= c.registered && c.distinctRegistered <= c.distinct
  {
    StatusBounds(users);
    Counts(notesCount, |Addresses(users)|, |LoggedIn(users)|, |LoggedInAddresses(users)|)
  }

  /** The report the second store callback assembles: the tallies of the
      first callback beside the registry sizes read when the second one runs. */
  function Assembled(c: Counts, onlineNotes: nat, onlineUsers: nat, regCount: int): Report {
    Report(onlineNotes, onlineUsers, c.distinct, c.notesCount, regCount, c.registered, c.distinctRegistered)
  }

  /** Tallied and sized in one state, the report is within its bounds. */
  lemma SnapshotBounds(notesCount: int, users: map<SockId, User>, onlineNotes: nat, regCount: int)
    ensures var r := Assembled(CountsOf(notesCount, users), onlineNotes, |users|, regCount);
      && r.distinctOnlineUsers <= r.onlineUsers && r.onlineRegisteredUsers <= r.onlineUsers
      && r.distinctOnlineRegisteredUsers <= r.onlineRegisteredUsers
      && r.distinctOnlineRegisteredUsers <= r.distinctOnlineUsers
  {
  }

  /** A lone logged-in session that disconnects between the two callbacks is
      tallied but no longer online: the report then counts one distinct
      address and one logged-in session, and no session online. */
  lemma StaleReport(u: User)
    requires u.login
    ensures var users := map[u.id := u];
      var r := Assembled(CountsOf(0, users), 0, |users - {u.id}|, 0);
      && r.onlineUsers == 0 && r.distinctOnlineUsers == 1 && r.onlineRegisteredUsers == 1
  {
    var users := map[u.id := u];
    assert users.Keys == {u.id};
    assert Addresses(users) == {u.address};
    assert LoggedIn(users) == {u.id};
    assert (users - {u.id}).Keys == {};
    assert |users - {u.id}| == |(users - {u.id}).Keys|;
  }
}
