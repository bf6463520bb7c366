/** `data/FirebaseRepository.kt`: the writes the app makes to the database, and
    the body of every value listener as a reduction from the snapshot it
    receives to what it emits. The identity provider's answers, the outcome of
    every write and the clock are parameters. */
module Repository {
  import opened KotlinCore
  import opened Store
  import opened Sorting
  import Messages
  import Users

  type Message = Messages.Message
  type User = Users.User

  /** How the `setValue(...)` call completes once awaited. */
  datatype WriteOutcome = Committed | Rejected(error: Exception)

  /** How the identity provider's sign-up or sign-in call completes: with an
      exception, or with an `AuthResult` whose `user` may be null. */
  datatype AuthOutcome = AuthFailed(error: Exception) | Authenticated(uid: Option<string>)

  function UserPath(uid: string): Path { ["users", uid] }

  function StatusPath(uid: string): Path { ["status", uid, "isOnline"] }

  function MailboxPath(owner: string, peer: string, messageId: string): Path {
    ["chats", owner, peer, messageId]
  }

  /** The profile `registerUser` saves: no picture, and online. */
  function NewProfile(uid: string, name: string, email: string): User {
    Users.User(uid, name, email, "", true)
  }

  /** A presence value read with `getValue(Boolean::class.java) ?: false`: online
      only when `true` was stored, offline when nothing was. */
  function Presence(status: Option<bool>): (online: bool)
    ensures online <==> status == Some(true)
    ensures status.None? ==> !online
  {
    status.GetOr(false)
  }

  /** The value a read of `status/uid/isOnline` finds: the stored boolean if any. */
  function ReadStatus(t: Tree, uid: string): (status: Option<bool>)
    ensures status.Some? <==> StatusPath(uid) in t && t[StatusPath(uid)].BoolValue?
  {
    if StatusPath(uid) in t && t[StatusPath(uid)].BoolValue? then Some(t[StatusPath(uid)].b) else None
  }

  /** A presence read after a committed status write finds exactly the flag
      written, and a user whose status was never written reads as offline. */
  lemma {:induction false} PresenceReadsBackWrites(t: Tree, uid: string, isOnline: bool)
    ensures Presence(ReadStatus(SetLeaf(t, StatusPath(uid), BoolValue(isOnline)), uid)) == isOnline
    ensures Presence(ReadStatus(LoginEffect(t, Authenticated(Some(uid)), Committed).0, uid))
    ensures StatusPath(uid) !in t ==> !Presence(ReadStatus(t, uid))
  {
    SetLeafFacts(t, StatusPath(uid), BoolValue(isOnline));
    SetLeafFacts(t, StatusPath(uid), BoolValue(true));
  }

  // ---------------------------------------------------------------------------
  // sendMessage: two independent writes, no rollback

  /** The tree and the result after `sendMessage(message)`, given how each of
      its two writes completes. */
  function SendEffect(t: Tree, m: Message, first: WriteOutcome, second: WriteOutcome): (Tree, Result<()>) {
    if first.Rejected? then (t, Failure(first.error))
    else if second.Rejected? then (SenderCopy(t, m), Failure(second.error))
    else (SetRecord(SenderCopy(t, m), MailboxPath(m.receiverId, m.senderId, m.messageId), Messages.ToMap(m)), Success(()))
  }

  /** The first write of `sendMessage`: the sender's copy. */
  function SenderCopy(t: Tree, m: Message): Tree {
    SetRecord(t, MailboxPath(m.senderId, m.receiverId, m.messageId), Messages.ToMap(m))
  }

  /** A send whose writes both commit succeeds, leaves `message.toMap()` in the
      sender's and in the receiver's mailbox, and changes nothing else. */
  lemma {:induction false} SendDelivers(t: Tree, m: Message)
    ensures var (t', r) := SendEffect(t, m, Committed, Committed);
      && r == Success(())
      && HoldsRecord(t', MailboxPath(m.senderId, m.receiverId, m.messageId), Messages.ToMap(m))
      && HoldsRecord(t', MailboxPath(m.receiverId, m.senderId, m.messageId), Messages.ToMap(m))
      && SameAwayFrom(t, t', MailboxPath(m.senderId, m.receiverId, m.messageId),
                              MailboxPath(m.receiverId, m.senderId, m.messageId))
  {
    DualWriteFacts(t, MailboxPath(m.senderId, m.receiverId, m.messageId),
                   MailboxPath(m.receiverId, m.senderId, m.messageId), Messages.ToMap(m));
  }

  /** If the first write is rejected nothing is written; if only the second is
      rejected the sender's copy stays and the receiver's mailbox entry is as
      before: the send fails without rolling back. */
  lemma {:induction false} SendFailures(t: Tree, m: Message, e: Exception)
    ensures SendEffect(t, m, Rejected(e), Committed) == (t, Failure(e))
    ensures SendEffect(t, m, Rejected(e), Rejected(e)) == (t, Failure(e))
    ensures var (t', r) := SendEffect(t, m, Committed, Rejected(e));
      && r == Failure(e)
      && HoldsRecord(t', MailboxPath(m.senderId, m.receiverId, m.messageId), Messages.ToMap(m))
      && SameAwayFrom(t, t', MailboxPath(m.senderId, m.receiverId, m.messageId),
                              MailboxPath(m.senderId, m.receiverId, m.messageId))
  {
    SetRecordFacts(t, MailboxPath(m.senderId, m.receiverId, m.messageId), Messages.ToMap(m));
  }

  /** Sending the same message twice leaves the tree as sending it once, and
      re-sending after a half-done send completes it. */
  lemma {:induction false} SendIdempotent(t: Tree, m: Message, e: Exception)
    ensures var once := SendEffect(t, m, Committed, Committed).0;
      SendEffect(once, m, Committed, Committed).0 == once
    ensures var half := SendEffect(t, m, Committed, Rejected(e)).0;
      SendEffect(half, m, Committed, Committed).0 == SendEffect(t, m, Committed, Committed).0
  {
    DualWriteIdempotent(t, MailboxPath(m.senderId, m.receiverId, m.messageId),
                        MailboxPath(m.receiverId, m.senderId, m.messageId), Messages.ToMap(m));
  }

  // ---------------------------------------------------------------------------
  // registerUser and loginUser

  /** The tree and the result after `registerUser`, given how sign-up and the two
      writes complete. */
  function RegisterEffect(t: Tree, email: string, name: string, auth: AuthOutcome,
                          profileWrite: WriteOutcome, statusWrite: WriteOutcome): (Tree, Result<string>)
  {
    if auth.AuthFailed? then (t, Failure(auth.error))
    else if auth.uid.None? then (t, Failure(Exception(Some("User creation failed"))))
    else if profileWrite.Rejected? then (t, Failure(profileWrite.error))
    else if statusWrite.Rejected? then (SaveProfile(t, auth.uid.value, name, email), Failure(statusWrite.error))
    else (SetLeaf(SaveProfile(t, auth.uid.value, name, email), StatusPath(auth.uid.value), BoolValue(true)), Success(auth.uid.value))
  }

  /** The profile write of `registerUser`. */
  function SaveProfile(t: Tree, uid: string, name: string, email: string): Tree {
    SetRecord(t, UserPath(uid), Users.ToMap(NewProfile(uid, name, email)))
  }

  /** The tree and the result after `loginUser`. */
  function LoginEffect(t: Tree, auth: AuthOutcome, statusWrite: WriteOutcome): (Tree, Result<string>) {
    if auth.AuthFailed? then (t, Failure(auth.error))
    else if auth.uid.None? then (t, Failure(Exception(Some("Login failed"))))
    else if statusWrite.Rejected? then (t, Failure(statusWrite.error))
    else (SetLeaf(t, StatusPath(auth.uid.value), BoolValue(true)), Success(auth.uid.value))
  }

  /** A registration that succeeds returns the new uid and leaves the profile
      (empty picture, online) under `users/uid`, `true` under
      `status/uid/isOnline`, and nothing else changed. */
  lemma {:induction false} RegisterSucceeds(t: Tree, email: string, name: string, uid: string)
    ensures RegisterEffect(t, email, name, Authenticated(Some(uid)), Committed, Committed).1 == Success(uid)
    ensures var t' := RegisterEffect(t, email, name, Authenticated(Some(uid)), Committed, Committed).0;
      && HoldsRecord(t', UserPath(uid), Users.ToMap(NewProfile(uid, name, email)))
      && StatusPath(uid) in t' && t'[StatusPath(uid)] == BoolValue(true)
      && SameAwayFrom(t, t', UserPath(uid), StatusPath(uid))
  {
    var rec := Users.ToMap(NewProfile(uid, name, email));
    assert !Related(UserPath(uid), StatusPath(uid)) by {
      assert UserPath(uid)[0] != StatusPath(uid)[0];
    }
    SetRecordThenLeaf(t, UserPath(uid), rec, StatusPath(uid), BoolValue(true));
  }

  /** A registration or a login that fails reports the error, and if the
      identity provider refused or returned no user nothing is written. */
  lemma {:induction false} AuthFailureWritesNothing(t: Tree, email: string, name: string, auth: AuthOutcome,
                                                   profileWrite: WriteOutcome, statusWrite: WriteOutcome)
    requires auth.AuthFailed? || auth.uid.None?
    ensures RegisterEffect(t, email, name, auth, profileWrite, statusWrite).0 == t
    ensures LoginEffect(t, auth, statusWrite).0 == t
    ensures RegisterEffect(t, email, name, auth, profileWrite, statusWrite).1.Failure?
    ensures LoginEffect(t, auth, statusWrite).1.Failure?
    ensures auth.Authenticated? ==>
      RegisterEffect(t, email, name, auth, profileWrite, statusWrite).1.error.message == Some("User creation failed")
      && LoginEffect(t, auth, statusWrite).1.error.message == Some("Login failed")
  {
  }

  /** A login that succeeds writes exactly `true` under `status/uid/isOnline`. */
  lemma {:induction false} LoginMarksOnline(t: Tree, uid: string)
    ensures var (t', r) := LoginEffect(t, Authenticated(Some(uid)), Committed);
      && r == Success(uid)
      && StatusPath(uid) in t' && t'[StatusPath(uid)] == BoolValue(true)
      && SameAwayFrom(t, t', StatusPath(uid), StatusPath(uid))
  {
    SetLeafFacts(t, StatusPath(uid), BoolValue(true));
  }

  /** `sendMessage` keeps the tree well formed: no leaf ever hides another
      below it, whichever of its writes commit. */
  lemma {:induction false} SendKeepsTreeWellFormed(t: Tree, m: Message, first: WriteOutcome, second: WriteOutcome)
    requires PrefixFree(t)
    ensures PrefixFree(SendEffect(t, m, first, second).0)
  {
    SetRecordFacts(t, MailboxPath(m.senderId, m.receiverId, m.messageId), Messages.ToMap(m));
    SetRecordFacts(SenderCopy(t, m), MailboxPath(m.receiverId, m.senderId, m.messageId), Messages.ToMap(m));
  }

  /** `registerUser` keeps the tree well formed. */
  lemma {:induction false} RegisterKeepsTreeWellFormed(t: Tree, email: string, name: string, auth: AuthOutcome,
                                                      profileWrite: WriteOutcome, statusWrite: WriteOutcome)
    requires PrefixFree(t)
    ensures PrefixFree(RegisterEffect(t, email, name, auth, profileWrite, statusWrite).0)
  {
    if auth.AuthFailed? || auth.uid.None? || profileWrite.Rejected? {
    } else if statusWrite.Rejected? {
      SaveProfileKeepsWellFormed(t, auth.uid.value, name, email);
    } else {
      SaveProfileKeepsWellFormed(t, auth.uid.value, name, email);
      SetLeafKeepsWellFormed(SaveProfile(t, auth.uid.value, name, email), StatusPath(auth.uid.value), BoolValue(true));
    }
  }

  lemma SaveProfileKeepsWellFormed(t: Tree, uid: string, name: string, email: string)
    requires PrefixFree(t)
    ensures PrefixFree(SaveProfile(t, uid, name, email))
  {
    SetRecordKeepsWellFormed(t, UserPath(uid), Users.ToMap(NewProfile(uid, name, email)));
  }

  /** `loginUser` keeps the tree well formed. */
  lemma {:induction false} LoginKeepsTreeWellFormed(t: Tree, auth: AuthOutcome, statusWrite: WriteOutcome)
    requires PrefixFree(t)
    ensures PrefixFree(LoginEffect(t, auth, statusWrite).0)
  {
    if auth.Authenticated? && auth.uid.Some? {
      SetLeafFacts(t, StatusPath(auth.uid.value), BoolValue(true));
    }
  }

  // ---------------------------------------------------------------------------
  // The repository: writes

  class FirebaseRepository {
    /** `FirebaseDatabase.getInstance().reference`: one database shared by every
        repository instance. */
    const database: Database

    constructor (database: Database)
      ensures this.database == database
    {
      this.database := database;
    }

    /** `registerUser`: sign up, save the profile, then mark the user online. */
    method RegisterUser(email: string, password: string, name: string, auth: AuthOutcome,
                        profileWrite: WriteOutcome, statusWrite: WriteOutcome)
      returns (r: Result<string>)
      modifies database
      ensures (database.tree, r) == RegisterEffect(old(database.tree), email, name, auth, profileWrite, statusWrite)
    {
      if auth.AuthFailed? {
        return Failure(auth.error);
      }
      if auth.uid.None? {
        return Failure(Exception(Some("User creation failed")));
      }
      var uid := auth.uid.value;
      var user := NewProfile(uid, name, email);
      var saved := SetValueRecord(UserPath(uid), Users.ToMap(user), profileWrite);
      if saved.Failure? {
        return Failure(saved.error);
      }
      var marked := SetValueLeaf(StatusPath(uid), BoolValue(true), statusWrite);
      if marked.Failure? {
        return Failure(marked.error);
      }
      r := Success(uid);
    }

    /** `loginUser`: sign in, then mark the user online. */
    method LoginUser(email: string, password: string, auth: AuthOutcome, statusWrite: WriteOutcome)
      returns (r: Result<string>)
      modifies database
      ensures (database.tree, r) == LoginEffect(old(database.tree), auth, statusWrite)
    {
      if auth.AuthFailed? {
        return Failure(auth.error);
      }
      if auth.uid.None? {
        return Failure(Exception(Some("Login failed")));
      }
      var uid := auth.uid.value;
      var marked := SetValueLeaf(StatusPath(uid), BoolValue(true), statusWrite);
      if marked.Failure? {
        return Failure(marked.error);
      }
      r := Success(uid);
    }

    /** `logout`: sign out and, if someone was signed in, mark them offline. The
        write is not awaited, so its outcome is not reported. */
    method Logout(currentUserId: Option<string>, statusWrite: WriteOutcome)
      modifies database
      ensures database.tree ==
        if currentUserId.Some? && statusWrite.Committed?
        then SetLeaf(old(database.tree), StatusPath(currentUserId.value), BoolValue(false))
        else old(database.tree)
    {
      if currentUserId.Some? {
        var _ := SetValueLeaf(StatusPath(currentUserId.value), BoolValue(false), statusWrite);
      }
    }

    /** `updateOnlineStatus`: writes exactly the given flag, without awaiting it. */
    method UpdateOnlineStatus(userId: string, isOnline: bool, statusWrite: WriteOutcome)
      modifies database
      ensures database.tree ==
        if statusWrite.Committed?
        then SetLeaf(old(database.tree), StatusPath(userId), BoolValue(isOnline))
        else old(database.tree)
    {
      var _ := SetValueLeaf(StatusPath(userId), BoolValue(isOnline), statusWrite);
    }

    /** `sendMessage`: the message goes to `chats/sender/receiver/id`, then to
        `chats/receiver/sender/id`; the second write is attempted only if the
        first committed, and the first is never undone. */
    method SendMessage(message: Message, first: WriteOutcome, second: WriteOutcome)
      returns (r: Result<()>)
      modifies database
      ensures (database.tree, r) == SendEffect(old(database.tree), message, first, second)
    {
      var rec := Messages.ToMap(message);
      var mine := SetValueRecord(MailboxPath(message.senderId, message.receiverId, message.messageId), rec, first);
      if mine.Failure? {
        return Failure(mine.error);
      }
      var theirs := SetValueRecord(MailboxPath(message.receiverId, message.senderId, message.messageId), rec, second);
      if theirs.Failure? {
        return Failure(theirs.error);
      }
      r := Success(());
    }

    /** `child(..).setValue(v).await()` for a primitive `v`. */
    method SetValueLeaf(p: Path, v: Value, outcome: WriteOutcome) returns (r: Result<()>)
      modifies database
      ensures outcome.Committed? ==> r == Success(()) && database.tree == SetLeaf(old(database.tree), p, v)
      ensures outcome.Rejected? ==> r == Failure(outcome.error) && database.tree == old(database.tree)
    {
      if outcome.Rejected? {
        return Failure(outcome.error);
      }
      database.tree := SetLeaf(database.tree, p, v);
      r := Success(());
    }

    /** `child(..).setValue(rec).await()` for a map of primitives. */
    method SetValueRecord(p: Path, rec: Record, outcome: WriteOutcome) returns (r: Result<()>)
      modifies database
      ensures outcome.Committed? ==> r == Success(()) && database.tree == SetRecord(old(database.tree), p, rec)
      ensures outcome.Rejected? ==> r == Failure(outcome.error) && database.tree == old(database.tree)
    {
      if outcome.Rejected? {
        return Failure(outcome.error);
      }
      database.tree := SetRecord(database.tree, p, rec);
      r := Success(());
    }
  }

  // ---------------------------------------------------------------------------
  // getMessages and getLatestMessage: listeners on chats/sender/receiver

  /** The snapshot's children decoded in snapshot order, with `now` as the clock. */
  function DecodeMessages(children: seq<Record>, now: Long): (ms: seq<Message>)
    ensures |ms| == |children|
    ensures forall i :: 0 <= i < |children| ==> ms[i] == Messages.FromMap(children[i], now)
  {
    seq(|children|, i requires 0 <= i < |children| => Messages.FromMap(children[i], now))
  }

  /** The children a list of messages is stored as: one `toMap()` each. */
  function EncodeMessages(ms: seq<Message>): (children: seq<Record>)
    ensures |children| == |ms|
  {
    seq(|ms|, i requires 0 <= i < |ms| => Messages.ToMap(ms[i]))
  }

  /** Decoding the stored children gives back the messages written, in order,
      whatever the clock says. */
  lemma {:induction false} DecodeEncodedMessages(ms: seq<Message>, now: Long)
    ensures DecodeMessages(EncodeMessages(ms), now) == ms
  {
    var d := DecodeMessages(EncodeMessages(ms), now);
    forall i | 0 <= i < |ms| ensures d[i] == ms[i] {
      Messages.RoundTrip(ms[i], now);
    }
  }

  function TimestampOf(m: Message): int {
    m.timestamp
  }

  /** The `getMessages` listener: decode every child into a list, then emit it
      `sortedBy { it.timestamp }`. The emission is ordered by timestamp, is a
      permutation of the decoded children, and messages with equal timestamps
      keep their snapshot order. */
  method OnMessagesData(children: seq<Record>, now: Long) returns (emitted: seq<Message>)
    ensures SortedBy(emitted, TimestampOf)
    ensures multiset(emitted) == multiset(DecodeMessages(children, now))
    ensures forall t :: KeyFilter(emitted, TimestampOf, t) == KeyFilter(DecodeMessages(children, now), TimestampOf, t)
  {
    var messages: seq<Message> := [];
    for i := 0 to |children|
      invariant |messages| == i
      invariant forall j :: 0 <= j < i ==> messages[j] == Messages.FromMap(children[j], now)
    {
      var message := Messages.FromMap(children[i], now);
      messages := messages + [message];
    }
    assert messages == DecodeMessages(children, now);
    emitted := SortBy(messages, TimestampOf);
    SortByIsStableSort(messages, TimestampOf);
  }

  /** `ms[k]` is what a left-to-right scan with a strict `>` seeded with `0L`
      keeps: a positive maximal timestamp, and the first one in order. */
  ghost predicate IsFirstLatest(ms: seq<Message>, k: int) {
    && 0 <= k < |ms|
    && ms[k].timestamp > 0
    && (forall i :: 0 <= i < |ms| ==> ms[i].timestamp <= ms[k].timestamp)
    && (forall i :: 0 <= i < k ==> ms[i].timestamp < ms[k].timestamp)
  }

  /** The `getLatestMessage` listener. It emits null exactly when no child has a
      positive timestamp, and otherwise the first child with the largest one. */
  method OnLatestMessageData(children: seq<Record>, now: Long) returns (latest: Option<Message>)
    ensures latest.None? <==> forall i :: 0 <= i < |children| ==> Messages.FromMap(children[i], now).timestamp <= 0
    ensures latest.Some? ==>
      exists k :: IsFirstLatest(DecodeMessages(children, now), k) && latest.value == Messages.FromMap(children[k], now)
  {
    ghost var ms := DecodeMessages(children, now);
    var latestMessage: Option<Message> := None;
    var latestTimestamp: Long := 0;
    ghost var at := 0;
    for i := 0 to |children|
      invariant latestMessage.None? ==> latestTimestamp == 0 && forall j :: 0 <= j < i ==> ms[j].timestamp <= 0
      invariant latestMessage.Some? ==>
        && 0 <= at < i && latestMessage.value == ms[at] && latestTimestamp == ms[at].timestamp > 0
        && (forall j :: 0 <= j < i ==> ms[j].timestamp <= ms[at].timestamp)
        && (forall j :: 0 <= j < at ==> ms[j].timestamp < ms[at].timestamp)
    {
      var message := Messages.FromMap(children[i], now);
      if message.timestamp > latestTimestamp {
        latestTimestamp := message.timestamp;
        latestMessage := Some(message);
        at := i;
      }
    }
    if latestMessage.Some? {
      assert IsFirstLatest(ms, at);
    }
    latest := latestMessage;
  }

  // ---------------------------------------------------------------------------
  // getUser: listener on users/uid, then a one-shot read of status/uid/isOnline

  /** What the `getUser` listener does with a snapshot. */
  datatype UserStep = EmitNull | LookUpPresence(user: User)

  function OnUserData(snapshot: Option<Record>): (step: UserStep)
    ensures step == EmitNull <==> snapshot.None?
    ensures step.LookUpPresence? ==> step.user == Users.FromMap(snapshot.value)
  {
    match snapshot
    case None => EmitNull
    case Some(rec) => LookUpPresence(Users.FromMap(rec))
  }

  /** The one-shot presence read completes: emit the profile with its presence,
      `false` when none was ever written. */
  function OnUserPresence(user: User, status: Option<bool>): (emitted: User)
    ensures emitted.isOnline <==> status == Some(true)
    ensures emitted.(isOnline := user.isOnline) == user
  {
    user.(isOnline := Presence(status))
  }

  /** `getUser(userId)` on a stored profile: the profile is decoded as
      written, and the user emitted is that profile with the presence found
      under `status/userId/isOnline` (the argument, not the decoded `uid`),
      offline when none is stored. The two ids agree for a profile written by
      `registerUser`: the record at `users/userId` then decodes to `userId`. */
  lemma {:induction false} GetUserEmitsStoredProfile(userId: string, u: User, t: Tree, name: string, email: string)
    ensures OnUserData(Some(Users.ToMap(u))) == LookUpPresence(u)
    ensures OnUserPresence(u, ReadStatus(t, userId))
         == u.(isOnline := StatusPath(userId) in t && t[StatusPath(userId)] == BoolValue(true))
    ensures HoldsRecord(SaveProfile(t, userId, name, email), UserPath(userId), Users.ToMap(NewProfile(userId, name, email)))
    ensures Users.FromMap(Users.ToMap(NewProfile(userId, name, email))).uid == userId
  {
    Users.RoundTrip(u);
    Users.RoundTrip(NewProfile(userId, name, email));
    SetRecordFacts(t, UserPath(userId), Users.ToMap(NewProfile(userId, name, email)));
  }

  // ---------------------------------------------------------------------------
  // getAllUsers: listeners on users and on status, merged in `usersMap`

  /** `mutableMapOf<String, User>()`: a `LinkedHashMap`, whose `values` come in
      the order the keys were first put. */
  datatype UsersMap = UsersMap(order: seq<string>, entries: map<string, User>) {
    ghost predicate Valid() {
      && (forall i, j :: 0 <= i < j < |order| ==> order[i] != order[j])
      && (forall k :: k in entries <==> k in order)
    }

    /** `usersMap[k] = u`: a new key goes last, an existing key keeps its place. */
    function Put(k: string, u: User): (r: UsersMap)
      ensures r.entries == entries[k := u]
      ensures k in entries ==> r.order == order
      ensures k !in entries ==> r.order == order + [k]
      ensures Valid() ==> r.Valid()
    {
      if k in entries then UsersMap(order, entries[k := u]) else UsersMap(order + [k], entries[k := u])
    }

    /** `usersMap.values.toList()`. */
    function Values(): (vs: seq<User>)
      requires Valid()
      ensures |vs| == |order|
      ensures forall i :: 0 <= i < |order| ==> vs[i] == entries[order[i]]
    {
      seq(|order|, i requires 0 <= i < |order| => entries[order[i]])
    }
  }

  const EmptyUsersMap := UsersMap([], map[])

  /** The invariant of `usersMap` in a `getAllUsers` flow for `currentUserId`:
      the current user is never in it, and every entry is filed under its uid. */
  ghost predicate DirectoryInvariant(um: UsersMap, currentUserId: string) {
    && um.Valid()
    && currentUserId !in um.entries
    && (forall k :: k in um.entries ==> um.entries[k].uid == k)
  }

  /** An emission of a flow in which the invariant holds never lists the current user. */
  lemma ValuesExcludeCurrentUser(um: UsersMap, currentUserId: string)
    requires DirectoryInvariant(um, currentUserId)
    ensures forall i :: 0 <= i < |um.Values()| ==> um.Values()[i].uid != currentUserId
  {
  }

  /** `values.toList()` lists every entry exactly once: each element is an
      entry, each entry is listed, and there are as many elements as entries. */
  lemma {:induction false} ValuesListEveryEntryOnce(um: UsersMap)
    requires um.Valid()
    ensures forall i :: 0 <= i < |um.Values()| ==> um.Values()[i] in um.entries.Values
    ensures forall k :: k in um.entries ==> um.entries[k] in um.Values()
    ensures |um.Values()| == |um.entries|
  {
    var vs := um.Values();
    forall k | k in um.entries ensures um.entries[k] in vs {
      var i :| 0 <= i < |um.order| && um.order[i] == k;
      assert vs[i] == um.entries[k];
    }
    DistinctCard(um.order);
    assert um.entries.Keys == set x | x in um.order;
  }

  /** A sequence without repetitions has as many distinct elements as entries. */
  lemma {:induction false} DistinctCard(s: seq<string>)
    requires forall i, j :: 0 <= i < j < |s| ==> s[i] != s[j]
    ensures |set x | x in s| == |s|
  {
    if s != [] {
      var init := s[..|s| - 1];
      DistinctCard(init);
      assert (set x | x in s) == (set x | x in init) + {s[|s| - 1]};
      assert s[|s| - 1] !in (set x | x in init);
    }
  }

  /** The users of a `users` snapshot other than the current one, in snapshot order. */
  function ForeignUsers(children: seq<Record>, currentUserId: string): (us: seq<User>)
    ensures forall i :: 0 <= i < |us| ==> us[i].uid != currentUserId
  {
    if children == [] then []
    else
      var u := Users.FromMap(children[|children| - 1]);
      ForeignUsers(children[..|children| - 1], currentUserId) + (if u.uid != currentUserId then [u] else [])
  }

  /** Putting each user under its uid, in order. */
  function PutAll(um: UsersMap, us: seq<User>): UsersMap {
    if us == [] then um else PutAll(um, us[..|us| - 1]).Put(us[|us| - 1].uid, us[|us| - 1])
  }

  /** The uids of a list of users. */
  function Uids(us: seq<User>): set<string> {
    set i | 0 <= i < |us| :: us[i].uid
  }

  /** The `users` listener only ever adds or replaces entries: the keys after it
      are the old keys and the uids put, and every old key keeps its place in the
      iteration order. */
  lemma {:induction false} PutAllKeys(um: UsersMap, us: seq<User>)
    ensures PutAll(um, us).entries.Keys == um.entries.Keys + Uids(us)
    ensures um.Valid() ==> PutAll(um, us).Valid() && um.order <= PutAll(um, us).order
  {
    if us != [] {
      var init := us[..|us| - 1];
      PutAllKeys(um, init);
      assert Uids(us) == Uids(init) + {us[|us| - 1].uid} by {
        assert forall i :: 0 <= i < |init| ==> init[i] == us[i];
      }
    }
  }

  /** An entry no user of the batch is filed under is left as it was. */
  lemma {:induction false} PutAllUntouched(um: UsersMap, us: seq<User>, k: string)
    requires k !in Uids(us)
    ensures k in PutAll(um, us).entries <==> k in um.entries
    ensures k in um.entries ==> PutAll(um, us).entries[k] == um.entries[k]
  {
    if us != [] {
      var init := us[..|us| - 1];
      assert k != us[|us| - 1].uid;
      assert k !in Uids(init) by {
        assert forall i :: 0 <= i < |init| ==> init[i] == us[i];
      }
      PutAllUntouched(um, init, k);
    }
  }

  /** The entry under a uid is the last user of the batch filed under it. */
  lemma {:induction false} PutAllLastWins(um: UsersMap, us: seq<User>, i: int)
    requires 0 <= i < |us|
    requires forall j :: i < j < |us| ==> us[j].uid != us[i].uid
    ensures us[i].uid in PutAll(um, us).entries && PutAll(um, us).entries[us[i].uid] == us[i]
  {
    if i < |us| - 1 {
      var init := us[..|us| - 1];
      PutAllLastWins(um, init, i);
    }
  }

  /** Putting users other than the current one keeps the invariant. */
  lemma {:induction false} PutAllInvariant(um: UsersMap, us: seq<User>, currentUserId: string)
    requires DirectoryInvariant(um, currentUserId)
    requires forall i :: 0 <= i < |us| ==> us[i].uid != currentUserId
    ensures DirectoryInvariant(PutAll(um, us), currentUserId)
  {
    if us != [] {
      PutAllInvariant(um, us[..|us| - 1], currentUserId);
    }
  }

  /** A child of the `status` snapshot: its key and its `isOnline` value. */
  datatype StatusChild = StatusChild(key: string, isOnline: Option<bool>)

  /** The status listener acts on a child only for a known user other than the current one. */
  predicate Applies(um: UsersMap, currentUserId: string, c: StatusChild) {
    c.key != currentUserId && c.key in um.entries
  }

  /** One status child: `usersMap[id] = user.copy(isOnline = ...)` when it applies. */
  function ApplyStatus(um: UsersMap, currentUserId: string, c: StatusChild): UsersMap {
    if Applies(um, currentUserId, c) then um.Put(c.key, um.entries[c.key].(isOnline := Presence(c.isOnline)))
    else um
  }

  /** `usersMap` after the status listener ran over `cs`. */
  function StatusFold(um: UsersMap, currentUserId: string, cs: seq<StatusChild>): (r: UsersMap)
    ensures r.order == um.order && r.entries.Keys == um.entries.Keys
    ensures um.Valid() ==> r.Valid()
  {
    if cs == [] then um
    else ApplyStatus(StatusFold(um, currentUserId, cs[..|cs| - 1]), currentUserId, cs[|cs| - 1])
  }

  /** The lists the status listener emits over `cs`: one per child that applies. */
  function StatusEmissions(um: UsersMap, currentUserId: string, cs: seq<StatusChild>): seq<seq<User>>
    requires um.Valid()
  {
    if cs == [] then []
    else
      var before := StatusFold(um, currentUserId, cs[..|cs| - 1]);
      StatusEmissions(um, currentUserId, cs[..|cs| - 1])
        + (if Applies(before, currentUserId, cs[|cs| - 1])
           then [ApplyStatus(before, currentUserId, cs[|cs| - 1]).Values()]
           else [])
  }

  /** A status update keeps the invariant. */
  lemma {:induction false} StatusFoldInvariant(um: UsersMap, currentUserId: string, cs: seq<StatusChild>)
    requires DirectoryInvariant(um, currentUserId)
    ensures DirectoryInvariant(StatusFold(um, currentUserId, cs), currentUserId)
  {
    if cs != [] {
      StatusFoldInvariant(um, currentUserId, cs[..|cs| - 1]);
    }
  }

  /** A status update changes nothing of a profile but its `isOnline`. */
  lemma {:induction false} StatusFoldOnlyPresence(um: UsersMap, currentUserId: string, cs: seq<StatusChild>, k: string)
    requires k in um.entries
    ensures StatusFold(um, currentUserId, cs).entries[k]
      == um.entries[k].(isOnline := StatusFold(um, currentUserId, cs).entries[k].isOnline)
  {
    if cs != [] {
      StatusFoldOnlyPresence(um, currentUserId, cs[..|cs| - 1], k);
    }
  }

  /** A user no status child names keeps the entry it had. */
  lemma {:induction false} StatusFoldUntouched(um: UsersMap, currentUserId: string, cs: seq<StatusChild>, k: string)
    requires k in um.entries
    requires forall i :: 0 <= i < |cs| ==> cs[i].key != k
    ensures StatusFold(um, currentUserId, cs).entries[k] == um.entries[k]
  {
    if cs != [] {
      var init := cs[..|cs| - 1];
      assert forall i :: 0 <= i < |init| ==> init[i] == cs[i];
      StatusFoldUntouched(um, currentUserId, init, k);
    }
  }

  /** A known user other than the current one ends with the presence of the last
      status child naming it, `false` when that child has no boolean. */
  lemma {:induction false} StatusFoldLastWins(um: UsersMap, currentUserId: string, cs: seq<StatusChild>, i: int)
    requires 0 <= i < |cs| && cs[i].key in um.entries && cs[i].key != currentUserId
    requires forall j :: i < j < |cs| ==> cs[j].key != cs[i].key
    ensures StatusFold(um, currentUserId, cs).entries[cs[i].key].isOnline == Presence(cs[i].isOnline)
  {
    if i < |cs| - 1 {
      StatusFoldLastWins(um, currentUserId, cs[..|cs| - 1], i);
    }
  }

  /** Every list the status listener emits leaves out the current user. */
  lemma {:induction false} StatusEmissionsExcludeCurrentUser(um: UsersMap, currentUserId: string, cs: seq<StatusChild>)
    requires DirectoryInvariant(um, currentUserId)
    ensures forall e: seq<User>, i :: e in StatusEmissions(um, currentUserId, cs) && 0 <= i < |e| ==> e[i].uid != currentUserId
  {
    if cs != [] {
      var init := cs[..|cs| - 1];
      StatusEmissionsExcludeCurrentUser(um, currentUserId, init);
      StatusFoldInvariant(um, currentUserId, init);
      var before := StatusFold(um, currentUserId, init);
      if Applies(before, currentUserId, cs[|cs| - 1]) {
        StatusFoldInvariant(um, currentUserId, cs);
        ValuesExcludeCurrentUser(StatusFold(um, currentUserId, cs), currentUserId);
      }
    }
  }

  /** A put leaves at least one entry, so an emission that follows a put is
      never the empty list. */
  lemma {:induction false} PutNeverEmptiesValues(um: UsersMap, k: string, u: User)
    requires um.Valid()
    ensures um.Put(k, u).Values() != []
  {
    var r := um.Put(k, u);
    ValuesListEveryEntryOnce(r);
    assert k in r.entries;
  }

  /** The status listener emits only after updating a known user, so none of
      its emissions is the empty list. */
  lemma {:induction false} StatusEmissionsNonEmpty(um: UsersMap, currentUserId: string, cs: seq<StatusChild>)
    requires um.Valid()
    ensures forall e :: e in StatusEmissions(um, currentUserId, cs) ==> e != []
  {
    if cs != [] {
      var init := cs[..|cs| - 1];
      var c := cs[|cs| - 1];
      StatusEmissionsNonEmpty(um, currentUserId, init);
      var before := StatusFold(um, currentUserId, init);
      if Applies(before, currentUserId, c) {
        PutNeverEmptiesValues(before, c.key, before.entries[c.key].(isOnline := Presence(c.isOnline)));
      }
    }
  }

  /** What `getAllUsers` does when it is collected: emit one list and close, or
      listen with a `usersMap` to fill. */
  datatype AllUsersStart = EmitAndClose(emitted: seq<User>) | Listen(currentUserId: string, usersMap: UsersMap)

  /** With nobody signed in the flow emits one empty list and closes. Otherwise
      it listens for the signed-in user, from an empty `usersMap` in which the
      directory invariant holds, so no later emission lists that user. */
  function OpenAllUsers(currentUserId: Option<string>): (start: AllUsersStart)
    ensures start.EmitAndClose? <==> currentUserId.None?
    ensures start.EmitAndClose? ==> start.emitted == []
    ensures start.Listen? ==>
      && start.currentUserId == currentUserId.value
      && DirectoryInvariant(start.usersMap, start.currentUserId)
      && start.usersMap.Values() == []
  {
    match currentUserId
    case None => EmitAndClose([])
    case Some(uid) => Listen(uid, EmptyUsersMap)
  }

  /** The state of one `getAllUsers` flow while it listens: the captured
      `currentUserId` and the `usersMap` its callbacks share. */
  class AllUsersFlow {
    const currentUserId: string
    var usersMap: UsersMap

    ghost predicate Valid()
      reads this
    {
      DirectoryInvariant(usersMap, currentUserId)
    }

    constructor (currentUserId: string)
      ensures Valid()
      ensures this.currentUserId == currentUserId && usersMap == EmptyUsersMap
    {
      this.currentUserId := currentUserId;
      usersMap := EmptyUsersMap;
    }

    /** The `users` listener: put every decoded user other than the current one
        and start one presence lookup for each; nothing is emitted yet. */
    method OnUsersData(children: seq<Record>) returns (lookups: seq<User>)
      requires Valid()
      modifies this
      ensures Valid()
      ensures usersMap == PutAll(old(usersMap), ForeignUsers(children, currentUserId))
      ensures lookups == ForeignUsers(children, currentUserId)
    {
      lookups := [];
      for i := 0 to |children|
        invariant Valid()
        invariant lookups == ForeignUsers(children[..i], currentUserId)
        invariant usersMap == PutAll(old(usersMap), lookups)
      {
        assert children[..i + 1][..i] == children[..i];
        var user := Users.FromMap(children[i]);
        if user.uid != currentUserId {
          assert (lookups + [user])[..|lookups|] == lookups;
          usersMap := usersMap.Put(user.uid, user);
          lookups := lookups + [user];
        }
      }
      assert children[..|children|] == children;
    }

    /** A presence lookup started by the `users` listener completes: store the
        user it captured with that presence and emit the whole list. */
    method OnPresenceFetched(user: User, status: Option<bool>) returns (emitted: seq<User>)
      requires Valid() && user.uid != currentUserId
      modifies this
      ensures Valid()
      ensures usersMap == old(usersMap).Put(user.uid, user.(isOnline := Presence(status)))
      ensures emitted == usersMap.Values()
      ensures emitted != [] && forall i :: 0 <= i < |emitted| ==> emitted[i].uid != currentUserId
    {
      PutNeverEmptiesValues(usersMap, user.uid, user.(isOnline := Presence(status)));
      usersMap := usersMap.Put(user.uid, user.(isOnline := Presence(status)));
      emitted := usersMap.Values();
    }

    /** The `status` listener: for each child naming a known user other than the
        current one, update that user's presence and emit the whole list. */
    method OnStatusData(children: seq<StatusChild>) returns (emissions: seq<seq<User>>)
      requires Valid()
      modifies this
      ensures Valid()
      ensures usersMap == StatusFold(old(usersMap), currentUserId, children)
      ensures emissions == StatusEmissions(old(usersMap), currentUserId, children)
      ensures forall e: seq<User>, i :: e in emissions && 0 <= i < |e| ==> e[i].uid != currentUserId
      ensures forall e :: e in emissions ==> e != []
    {
      emissions := [];
      for i := 0 to |children|
        invariant usersMap == StatusFold(old(usersMap), currentUserId, children[..i])
        invariant emissions == StatusEmissions(old(usersMap), currentUserId, children[..i])
        invariant Valid()
      {
        assert children[..i + 1][..i] == children[..i];
        var c := children[i];
        if c.key != currentUserId && c.key in usersMap.entries {
          var user := usersMap.entries[c.key];
          usersMap := usersMap.Put(c.key, user.(isOnline := Presence(c.isOnline)));
          emissions := emissions + [usersMap.Values()];
        }
      }
      assert children[..|children|] == children;
      StatusEmissionsExcludeCurrentUser(old(usersMap), currentUserId, children);
      StatusEmissionsNonEmpty(old(usersMap), currentUserId, children);
    }
  }
}
