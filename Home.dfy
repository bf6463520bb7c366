/** `ui/viewmodel/HomeViewModel.kt`: the home screen's state. For every user
    the directory emits, the view model records that peer's latest message
    and rebuilds the conversation list, newest conversation first. */
module Home {
  import opened KotlinCore
  import opened Sorting
  import opened Store
  import opened Repository
  import Chats

  type Chat = Chats.Chat

  datatype HomeUiState = HomeUiState(
    users: seq<User>,
    chats: seq<Chat>,
    isLoading: bool,
    errorMessage: Option<string>)

  /** `HomeUiState()`. */
  const DefaultHomeUiState := HomeUiState([], [], false, None)

  /** One row of the list: the user joined with what the two maps hold for it,
      `""` and `0L` when they hold nothing. */
  function ChatFor(u: User, latestMessages: map<string, string>, latestTimestamps: map<string, Long>): Chat {
    Chats.Chat(
      u.uid,
      u.name,
      u.profileImageUrl,
      if u.uid in latestMessages then latestMessages[u.uid] else "",
      if u.uid in latestTimestamps then latestTimestamps[u.uid] else 0,
      u.isOnline)
  }

  /** `users.map { u -> Chat(...) }`. */
  function ChatRows(users: seq<User>, latestMessages: map<string, string>, latestTimestamps: map<string, Long>): (rows: seq<Chat>)
    ensures |rows| == |users|
    ensures forall i :: 0 <= i < |users| ==> rows[i] == ChatFor(users[i], latestMessages, latestTimestamps)
  {
    seq(|users|, i requires 0 <= i < |users| => ChatFor(users[i], latestMessages, latestTimestamps))
  }

  function LastMessageTimestamp(c: Chat): int {
    c.lastMessageTimestamp
  }

  /** The chat list: the rows `sortedByDescending { it.lastMessageTimestamp }`. */
  function BuildChats(users: seq<User>, latestMessages: map<string, string>, latestTimestamps: map<string, Long>): seq<Chat> {
    SortByDescending(ChatRows(users, latestMessages, latestTimestamps), LastMessageTimestamp)
  }

  /** The chat list holds exactly the rows of the users (as many of each as there
      are users it joins), newest first, and conversations with the same
      timestamp keep the order of `users`. */
  lemma {:induction false} BuildChatsIsStableSortOfRows(users: seq<User>, latestMessages: map<string, string>, latestTimestamps: map<string, Long>)
    ensures |BuildChats(users, latestMessages, latestTimestamps)| == |users|
    ensures multiset(BuildChats(users, latestMessages, latestTimestamps)) == multiset(ChatRows(users, latestMessages, latestTimestamps))
    ensures SortedDescendingBy(BuildChats(users, latestMessages, latestTimestamps), LastMessageTimestamp)
    ensures forall k :: KeyFilter(BuildChats(users, latestMessages, latestTimestamps), LastMessageTimestamp, k)
                     == KeyFilter(ChatRows(users, latestMessages, latestTimestamps), LastMessageTimestamp, k)
  {
    var rows := ChatRows(users, latestMessages, latestTimestamps);
    SortByDescendingIsStableSort(rows, LastMessageTimestamp);
    assert |BuildChats(users, latestMessages, latestTimestamps)| == |multiset(rows)| == |rows|;
  }

  /** Every row of the chat list copies one user's identity and presence, and
      every user has a row. */
  lemma {:induction false} BuildChatsJoinsUsers(users: seq<User>, latestMessages: map<string, string>, latestTimestamps: map<string, Long>)
    ensures forall c :: c in BuildChats(users, latestMessages, latestTimestamps) ==>
      exists i :: (0 <= i < |users| && c.userId == users[i].uid && c.userName == users[i].name
        && c.userProfileImageUrl == users[i].profileImageUrl && c.isOnline == users[i].isOnline)
    ensures forall i :: 0 <= i < |users| ==>
      ChatFor(users[i], latestMessages, latestTimestamps) in BuildChats(users, latestMessages, latestTimestamps)
  {
    var rows := ChatRows(users, latestMessages, latestTimestamps);
    var chats := BuildChats(users, latestMessages, latestTimestamps);
    BuildChatsIsStableSortOfRows(users, latestMessages, latestTimestamps);
    forall c | c in chats
      ensures exists i :: (0 <= i < |users| && c.userId == users[i].uid && c.userName == users[i].name
        && c.userProfileImageUrl == users[i].profileImageUrl && c.isOnline == users[i].isOnline)
    {
      assert c in multiset(chats);
      assert c in rows;
      var i :| 0 <= i < |rows| && rows[i] == c;
      assert c == ChatFor(users[i], latestMessages, latestTimestamps);
    }
    forall i | 0 <= i < |users| ensures ChatFor(users[i], latestMessages, latestTimestamps) in chats {
      assert rows[i] in multiset(rows);
    }
  }

  /** `latestMessagesMap[uid] = message?.message ?: ""` and
      `latestTimestampsMap[uid] = message?.timestamp ?: 0L`. */
  function RecordLatest(latestMessages: map<string, string>, latestTimestamps: map<string, Long>,
                        peerId: string, message: Option<Message>): (r: (map<string, string>, map<string, Long>))
    ensures r.0.Keys == latestMessages.Keys + {peerId} && r.1.Keys == latestTimestamps.Keys + {peerId}
    ensures r.0[peerId] == (if message.Some? then message.value.message else "")
    ensures r.1[peerId] == (if message.Some? then message.value.timestamp else 0)
    ensures forall k :: k in latestMessages && k != peerId ==> r.0[k] == latestMessages[k]
    ensures forall k :: k in latestTimestamps && k != peerId ==> r.1[k] == latestTimestamps[k]
  {
    match message
    case None => (latestMessages[peerId := ""], latestTimestamps[peerId := 0])
    case Some(m) => (latestMessages[peerId := m.message], latestTimestamps[peerId := m.timestamp])
  }

  /** After the latest message of a peer arrives, that peer's row shows it (or
      the empty defaults when it is null) and every other user's row is as it
      was. */
  lemma {:induction false} LatestShowsInRow(users: seq<User>, latestMessages: map<string, string>,
                                            latestTimestamps: map<string, Long>, peerId: string, message: Option<Message>)
    ensures var (lm, lt) := RecordLatest(latestMessages, latestTimestamps, peerId, message);
      forall u :: u in users ==>
        (u.uid == peerId ==>
          ChatFor(u, lm, lt).lastMessage == (if message.Some? then message.value.message else "")
          && ChatFor(u, lm, lt).lastMessageTimestamp == (if message.Some? then message.value.timestamp else 0))
        && (u.uid != peerId ==> ChatFor(u, lm, lt) == ChatFor(u, latestMessages, latestTimestamps))
  {
    var (lm, lt) := RecordLatest(latestMessages, latestTimestamps, peerId, message);
    forall u | u in users && u.uid != peerId
      ensures ChatFor(u, lm, lt) == ChatFor(u, latestMessages, latestTimestamps)
    {
      assert (u.uid in lm <==> u.uid in latestMessages) && (u.uid in lt <==> u.uid in latestTimestamps);
    }
  }

  /** A user nothing was recorded for shows an empty last message at time 0. */
  lemma NoLatestMessageDefaults(u: User, latestMessages: map<string, string>, latestTimestamps: map<string, Long>)
    requires u.uid !in latestMessages && u.uid !in latestTimestamps
    ensures ChatFor(u, latestMessages, latestTimestamps).lastMessage == ""
    ensures ChatFor(u, latestMessages, latestTimestamps).lastMessageTimestamp == 0
  {
  }

  /** The view model: the two per-peer maps and the state it publishes. */
  class HomeViewModel {
    const repository: FirebaseRepository
    /** `repository.getCurrentUserId()` when `loadUsers` ran. */
    const currentUserId: Option<string>
    var latestMessages: map<string, string>
    var latestTimestamps: map<string, Long>
    var uiState: HomeUiState

    /** `init { loadUsers() }`: with nobody signed in nothing happens; otherwise
        loading starts. */
    constructor (repository: FirebaseRepository, currentUserId: Option<string>)
      ensures this.repository == repository && this.currentUserId == currentUserId
      ensures latestMessages == map[] && latestTimestamps == map[]
      ensures currentUserId.None? ==> uiState == DefaultHomeUiState
      ensures currentUserId.Some? ==> uiState == DefaultHomeUiState.(isLoading := true)
    {
      this.repository := repository;
      this.currentUserId := currentUserId;
      latestMessages := map[];
      latestTimestamps := map[];
      uiState := DefaultHomeUiState;
      new;
      if currentUserId.Some? {
        uiState := uiState.(isLoading := true);
      }
    }

    /** The directory emitted `users`: one latest-message subscription starts per
        user (their uids are returned, in order); an empty list is published at
        once, with no chats and loading finished. */
    method OnUsers(users: seq<User>) returns (subscriptions: seq<string>)
      modifies this
      ensures |subscriptions| == |users|
      ensures forall i :: 0 <= i < |users| ==> subscriptions[i] == users[i].uid
      ensures latestMessages == old(latestMessages) && latestTimestamps == old(latestTimestamps)
      ensures users == [] ==> uiState == old(uiState).(users := [], chats := [], isLoading := false)
      ensures users != [] ==> uiState == old(uiState)
    {
      subscriptions := [];
      for i := 0 to |users|
        invariant |subscriptions| == i
        invariant forall j :: 0 <= j < i ==> subscriptions[j] == users[j].uid
      {
        subscriptions := subscriptions + [users[i].uid];
      }
      if users == [] {
        uiState := uiState.(users := users, chats := [], isLoading := false);
      }
    }

    /** The latest message of `peerId` arrived, for the subscription started by
        the emission `users`: record it and publish the rebuilt list. */
    method OnLatestMessage(users: seq<User>, peerId: string, message: Option<Message>)
      modifies this
      ensures (latestMessages, latestTimestamps) == RecordLatest(old(latestMessages), old(latestTimestamps), peerId, message)
      ensures uiState == old(uiState).(users := users,
                                       chats := BuildChats(users, latestMessages, latestTimestamps),
                                       isLoading := false)
    {
      var recorded := RecordLatest(latestMessages, latestTimestamps, peerId, message);
      latestMessages, latestTimestamps := recorded.0, recorded.1;
      var chatsList := BuildChats(users, latestMessages, latestTimestamps);
      uiState := uiState.(users := users, chats := chatsList, isLoading := false);
    }

    /** `logout()`: the repository marks whoever is signed in offline. */
    method Logout(signedIn: Option<string>, statusWrite: WriteOutcome)
      modifies repository.database
      ensures repository.database.tree ==
        if signedIn.Some? && statusWrite.Committed?
        then SetLeaf(old(repository.database.tree), StatusPath(signedIn.value), BoolValue(false))
        else old(repository.database.tree)
    {
      repository.Logout(signedIn, statusWrite);
    }
  }
}
