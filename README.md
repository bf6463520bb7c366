# Firebase chat app: the verified core

This project models the logic of a small Android chat app built on the
Firebase Realtime Database and Firebase Authentication, and proves properties
of that model. The modelled logic covers:

- the repository, which signs users up and in, writes profiles, presence flags
  and messages, and listens to the database;
- the three view models (home, chat and authentication) that turn repository
  output into screen state;
- the `Message` and `User` records and their map (de)serialisation;
- the message-id and relative-time helpers.

The database is a tree addressed by key paths. Here it is flattened into a map
from the path of every leaf to its primitive value (`Store.Tree`). The value
types are a string, a `Long` and a `Boolean`. `setValue` at a path replaces
everything on that path's branch (`Store.SetLeaf`, `Store.SetRecord`).

Some inputs lie outside the app and become parameters:

- how each `setValue` call completes (`Repository.WriteOutcome`);
- how the identity provider answers (`Repository.AuthOutcome`);
- who is currently signed in (an `Option<string>`);
- the clock (`now`, `idMillis`);
- the random number in message ids.

A listener's `onDataChange` body becomes a reduction from the snapshot's
children to what the body emits. Where the source mutates a list, a map or a variable
step by step, the model does so too, in a method: `OnMessagesData` and
`OnLatestMessageData` loop over the snapshot, and the methods of the class
`AllUsersFlow` update its `usersMap` (`OnUsersData` and `OnStatusData` in a
loop). `OnMessagesData` is proved against the stable sort `Sorting.SortBy`,
`OnLatestMessageData` against the predicate `IsFirstLatest`, and the
`AllUsersFlow` methods against the functions `PutAll` and `StatusFold`. Each view model is a class whose
`uiState` field its methods reassign. They hold a `FirebaseRepository`, whose
`Database` holds the tree that the writes change.

Module layout:

- `KotlinCore`: `Long` with wrap-around, nullable values, `Result`, exceptions.
- `Text`: Kotlin's `isBlank`, `trim`, UTF-16 `length` and decimal `toString`.
- `Sorting`: Kotlin's stable `sortedBy` and `sortedByDescending`.
- `Store`: the database tree and `setValue`.
- `Messages`, `Users`, `Chats`: `model/Message.kt`, `model/User.kt`, `model/Chat.kt`.
- `Utils`: `utils/Utils.kt`.
- `Repository`: `data/FirebaseRepository.kt`.
- `Home`, `Conversation`, `Auth`: the home, chat and authentication view models.

Where a plain description of the app would suggest otherwise, the model follows the code:

- Messages are sorted by timestamp alone. There is no tie-break by message id; equal timestamps keep snapshot order.
- The latest-message scan is seeded with `0L` and compares with a strict `>`. A conversation whose messages all have timestamps `<= 0` therefore shows no latest message, and among equal maxima the first one wins.
- Registration stores `isOnline = true` inside the profile record as well as under `status/uid/isOnline`.
- A failed sign-in or sign-up after an earlier success keeps `isSuccess` and `userId` from that success.
- Latest-message subscriptions of peers who leave the user list are never closed.
- Every `users` emission starts a new `getLatestMessage` collector for every user in it, and none is ever cancelled. An older collector keeps rebuilding `chats` from the `users` list it captured, so a stale list can overwrite a newer one. `Home.HomeViewModel.OnLatestMessage` takes that captured list as its `users` argument.
- While someone is signed in, `getAllUsers` emits only right after putting a user other than the current one into `usersMap`, so it never emits an empty list (`PutNeverEmptiesValues`, `StatusEmissionsNonEmpty`). The `users.isEmpty()` branch of the home screen is reached only when nobody is signed in any more by the time `getAllUsers` is collected, and a user with no peers stays at `isLoading = true`.

## Model

| member | source | states |
|---|---|---|
| KotlinCore.WrapLong | app/src/main/java/com/firebaseapp/chatapp/utils/Utils.kt:15 | `Long` subtraction: the result is congruent to the exact value modulo 2^64, and equals it when it fits in a `Long` |
| Text.Trim | app/src/main/java/com/firebaseapp/chatapp/ui/viewmodel/ChatViewModel.kt:55 | `trim()` returns a slice of the input with only whitespace cut on either side; the result starts and ends with a non-whitespace character, and it is empty exactly when the input is blank |
| Text.BlankAppend | app/src/main/java/com/firebaseapp/chatapp/ui/viewmodel/ChatViewModel.kt:51 | `isBlank` of a concatenation holds exactly when both parts are blank |
| Text.BlankExamples | app/src/main/java/com/firebaseapp/chatapp/ui/viewmodel/ChatViewModel.kt:51 | `isBlank` uses the JVM's whitespace: no-break spaces and the ideographic space are blank, a zero-width space and a letter are not |
| Text.Utf16Length | app/src/main/java/com/firebaseapp/chatapp/ui/viewmodel/AuthViewModel.kt:31 | `String.length` counts UTF-16 code units: between the number of characters and twice that, and equal to it when every character is in the Basic Multilingual Plane |
| Text.LongToString | app/src/main/java/com/firebaseapp/chatapp/utils/Utils.kt:9 | the decimal form is non-empty, and it is all digits exactly when the number is non-negative |
| Text.ParseNatToString | app/src/main/java/com/firebaseapp/chatapp/utils/Utils.kt:9 | reading the decimal digits back gives the number |
| Text.LongToStringInjective | app/src/main/java/com/firebaseapp/chatapp/utils/Utils.kt:9 | different numbers have different decimal forms |
| Sorting.SortByIsStableSort | app/src/main/java/com/firebaseapp/chatapp/data/FirebaseRepository.kt:189 | `sortedBy` gives a list that is non-decreasing by the key and a permutation of the input, and elements with equal keys keep their input order |
| Sorting.SortByDescendingIsStableSort | app/src/main/java/com/firebaseapp/chatapp/ui/viewmodel/HomeViewModel.kt:56 | `sortedByDescending` gives a list that is non-increasing by the key and a permutation of the input, and elements with equal keys keep their input order |
| Store.SetRecordFacts | app/src/main/java/com/firebaseapp/chatapp/data/FirebaseRepository.kt:33 | after `setValue(map)` the subtree at the path is exactly the map's leaves, no leaf unrelated to the path changed, and a well-formed tree stays well formed |
| Store.SetLeafFacts | app/src/main/java/com/firebaseapp/chatapp/data/FirebaseRepository.kt:36 | after `setValue(v)` the path holds `v` and nothing below it, no leaf unrelated to the path changed, and a well-formed tree stays well formed |
| Store.SetRecordIdempotent | app/src/main/java/com/firebaseapp/chatapp/data/FirebaseRepository.kt:168-172 | `setValue` of the same record at a fixed path twice equals doing it once |
| Store.SetRecordCommute | app/src/main/java/com/firebaseapp/chatapp/data/FirebaseRepository.kt:168-172 | record writes at two unrelated paths of the same depth commute |
| Store.SetRecordThenLeaf | app/src/main/java/com/firebaseapp/chatapp/data/FirebaseRepository.kt:33-36 | a record write then a leaf write on another branch: both are in place, and nothing away from the two paths changed |
| Store.DualWriteFacts | app/src/main/java/com/firebaseapp/chatapp/data/FirebaseRepository.kt:168-172 | one record written at two paths of equal depth: both copies are in place, and nothing away from the two paths changed |
| Store.DualWriteIdempotent | app/src/main/java/com/firebaseapp/chatapp/data/FirebaseRepository.kt:168-172 | repeating the two writes changes nothing, and doing both after only the first equals doing both once |
| Messages.RoundTrip | app/src/main/java/com/firebaseapp/chatapp/model/Message.kt:10-29 | `fromMap(toMap(m)) == m` whatever the clock reads |
| Messages.ToMapShape | app/src/main/java/com/firebaseapp/chatapp/model/Message.kt:11-17 | `toMap` writes exactly the five keys: four strings and a `Long` timestamp |
| Messages.FromMapDefaults | app/src/main/java/com/firebaseapp/chatapp/model/Message.kt:23-27 | a missing or wrongly typed string field decodes to `""`; a missing or non-`Long` timestamp decodes to the current time |
| Messages.FromMapIgnoresExtraKeys | app/src/main/java/com/firebaseapp/chatapp/model/Message.kt:21-29 | `fromMap` is total, and records that agree on the five keys decode alike |
| Users.RoundTrip | app/src/main/java/com/firebaseapp/chatapp/model/User.kt:10-29 | `fromMap(toMap(u)) == u` |
| Users.ToMapShape | app/src/main/java/com/firebaseapp/chatapp/model/User.kt:11-17 | `toMap` writes exactly the five keys, four strings and `isOnline` as a boolean |
| Users.FromMapDefaults | app/src/main/java/com/firebaseapp/chatapp/model/User.kt:23-27 | a missing or wrongly typed field decodes to `""`, and `isOnline` to `false` |
| Users.FromMapIgnoresExtraKeys | app/src/main/java/com/firebaseapp/chatapp/model/User.kt:21-29 | `fromMap` is total, and records that agree on the five keys decode alike |
| Utils.GenerateMessageId | app/src/main/java/com/firebaseapp/chatapp/utils/Utils.kt:8-10 | the id is the millis' decimal form followed by one to three more characters, and it is all digits for a non-negative clock |
| Utils.MessageIdStartsWithMillis | app/src/main/java/com/firebaseapp/chatapp/utils/Utils.kt:9 | the id begins with the millis' decimal form |
| Utils.MessageIdCollision | app/src/main/java/com/firebaseapp/chatapp/utils/Utils.kt:9 | the id scheme is not injective: clock 1 with random 23 and clock 12 with random 3 give the same id |
| Utils.MessageIdInjectiveAtFixedWidth | app/src/main/java/com/firebaseapp/chatapp/utils/Utils.kt:9 | for clock readings whose decimal forms have equal length, equal ids hold exactly when both the clock and the random number are equal |
| Utils.FormatTimestamp | app/src/main/java/com/firebaseapp/chatapp/utils/Utils.kt:12-24 | the five buckets are exclusive and exhaustive over the wrapped `diff`, each holding exactly its threshold interval; in the minutes bucket the count `k` is between 1 and 59, and `diff` lies in `[k, k+1)` minutes |
| Utils.FormatTimestampMonotone | app/src/main/java/com/firebaseapp/chatapp/utils/Utils.kt:18-22 | because the thresholds increase, a larger wrapped `Long` difference `now - timestamp` never gets a newer bucket, and within the minutes bucket the count never decreases |
| Utils.FormatTimestampMonotoneInTime | app/src/main/java/com/firebaseapp/chatapp/utils/Utils.kt:15-22 | of two timestamps the older never gets a newer bucket, when neither subtraction overflows |
| Utils.FormatTimestampOverflow | app/src/main/java/com/firebaseapp/chatapp/utils/Utils.kt:15-18 | the overflow proviso is needed: at time 0 the oldest `Long` timestamp shows "Just now" while one two minutes before 0 shows "2m ago" |
| Utils.RelativeTextOfTimestamp | app/src/main/java/com/firebaseapp/chatapp/utils/Utils.kt:18-19 | a timestamp less than an hour old has a relative text: "Just now" under a minute, otherwise `diff / 60000` followed by "m ago"; older ones get a date pattern |
| Utils.FutureIsJustNow | app/src/main/java/com/firebaseapp/chatapp/utils/Utils.kt:18 | a `diff` under a minute, including a future timestamp (negative `diff`), shows "Just now" when the subtraction does not overflow |
| Repository.SendDelivers | app/src/main/java/com/firebaseapp/chatapp/data/FirebaseRepository.kt:162-174 | when both writes commit, the send succeeds, `chats/S/R/id` and `chats/R/S/id` both hold `message.toMap()`, and no other path changes |
| Repository.SendFailures | app/src/main/java/com/firebaseapp/chatapp/data/FirebaseRepository.kt:167-177 | a rejected first write fails the send and writes nothing; a rejected second write fails the send, and the sender's copy stays without rollback while nothing else changes |
| Repository.SendIdempotent | app/src/main/java/com/firebaseapp/chatapp/data/FirebaseRepository.kt:168-172 | sending a message twice leaves the store as sending it once, and re-sending after a half-done send completes it |
| Repository.RegisterSucceeds | app/src/main/java/com/firebaseapp/chatapp/data/FirebaseRepository.kt:20-38 | a successful registration returns the uid, stores the profile (empty picture, online) under `users/uid` and `true` under `status/uid/isOnline`, and changes nothing else |
| Repository.AuthFailureWritesNothing | app/src/main/java/com/firebaseapp/chatapp/data/FirebaseRepository.kt:22-23 | a refused sign-up or sign-in, or one returning no user, writes nothing and fails; without a user the messages are "User creation failed" and "Login failed" |
| Repository.LoginMarksOnline | app/src/main/java/com/firebaseapp/chatapp/data/FirebaseRepository.kt:44-52 | a successful login returns the uid, writes `true` under `status/uid/isOnline`, and changes nothing else |
| Repository.Presence | app/src/main/java/com/firebaseapp/chatapp/data/FirebaseRepository.kt:88 | a presence read is online exactly when `true` is stored, and offline when nothing is |
| Repository.PresenceReadsBackWrites | app/src/main/java/com/firebaseapp/chatapp/data/FirebaseRepository.kt:239-241 | a presence read after a committed status write finds exactly the flag written, a successful login reads back online, and a never-written status reads offline |
| Repository.SendKeepsTreeWellFormed | app/src/main/java/com/firebaseapp/chatapp/data/FirebaseRepository.kt:162-178 | `sendMessage` keeps the tree well formed, whichever writes commit |
| Repository.RegisterKeepsTreeWellFormed | app/src/main/java/com/firebaseapp/chatapp/data/FirebaseRepository.kt:20-42 | `registerUser` keeps the tree well formed, whatever the identity provider and the writes do |
| Repository.LoginKeepsTreeWellFormed | app/src/main/java/com/firebaseapp/chatapp/data/FirebaseRepository.kt:44-56 | `loginUser` keeps the tree well formed |
| Repository.FirebaseRepository.RegisterUser | app/src/main/java/com/firebaseapp/chatapp/data/FirebaseRepository.kt:20-42 | the new tree and the result are those of the register effect: sign-up, then the profile write, then the status write, each failure returned as it happens |
| Repository.FirebaseRepository.LoginUser | app/src/main/java/com/firebaseapp/chatapp/data/FirebaseRepository.kt:44-56 | the new tree and the result are those of the login effect: sign-in, then the status write |
| Repository.FirebaseRepository.Logout | app/src/main/java/com/firebaseapp/chatapp/data/FirebaseRepository.kt:58-64 | `false` is written under `status/uid/isOnline` only if a user was signed in and the write commits; otherwise the tree is unchanged |
| Repository.FirebaseRepository.UpdateOnlineStatus | app/src/main/java/com/firebaseapp/chatapp/data/FirebaseRepository.kt:239-241 | exactly the given flag is written under `status/uid/isOnline` when the write commits |
| Repository.FirebaseRepository.SendMessage | app/src/main/java/com/firebaseapp/chatapp/data/FirebaseRepository.kt:162-178 | the new tree and the result are those of the send effect: two writes in order, the second attempted only after the first commits, no rollback |
| Repository.FirebaseRepository.SetValueLeaf | app/src/main/java/com/firebaseapp/chatapp/data/FirebaseRepository.kt:36 | a committed write stores the leaf and reports success; a rejected one changes nothing and reports the error |
| Repository.FirebaseRepository.SetValueRecord | app/src/main/java/com/firebaseapp/chatapp/data/FirebaseRepository.kt:33 | a committed write stores the record and reports success; a rejected one changes nothing and reports the error |
| Repository.DecodeEncodedMessages | app/src/main/java/com/firebaseapp/chatapp/data/FirebaseRepository.kt:183-187 | decoding the children that a list of messages is stored as gives back those messages in order, whatever the clock reads |
| Repository.OnMessagesData | app/src/main/java/com/firebaseapp/chatapp/data/FirebaseRepository.kt:182-190 | the emitted list is sorted non-decreasing by timestamp and is a permutation of the decoded children, and messages with equal timestamps keep snapshot order |
| Repository.OnLatestMessageData | app/src/main/java/com/firebaseapp/chatapp/data/FirebaseRepository.kt:209-222 | null exactly when no child has a timestamp above 0; otherwise a child with the maximal timestamp, the first such in snapshot order |
| Repository.GetUserEmitsStoredProfile | app/src/main/java/com/firebaseapp/chatapp/data/FirebaseRepository.kt:133-141 | a stored profile is decoded as written and its presence looked up; the user emitted is that profile, online exactly when `true` is stored under `status/userId/isOnline` for the `userId` argument; a profile written by `registerUser` decodes to that same `userId` |
| Repository.OnUserPresence | app/src/main/java/com/firebaseapp/chatapp/data/FirebaseRepository.kt:138-141 | the emitted profile is online exactly when the status value is `true`, missing meaning `false`, and it differs from the stored profile in nothing else |
| Repository.UsersMap.Put | app/src/main/java/com/firebaseapp/chatapp/data/FirebaseRepository.kt:83 | `usersMap[k] = u` in a `LinkedHashMap`: the entry is replaced, a new key goes last, an existing key keeps its place, and validity is kept |
| Repository.ValuesExcludeCurrentUser | app/src/main/java/com/firebaseapp/chatapp/data/FirebaseRepository.kt:82 | while the invariant holds, an emitted list never contains the current user |
| Repository.ValuesListEveryEntryOnce | app/src/main/java/com/firebaseapp/chatapp/data/FirebaseRepository.kt:90 | `usersMap.values.toList()` lists every entry exactly once: each element is an entry, each entry is listed, and the lengths agree |
| Repository.ForeignUsers | app/src/main/java/com/firebaseapp/chatapp/data/FirebaseRepository.kt:80-82 | the users the listener puts never include the current user |
| Repository.PutAllKeys | app/src/main/java/com/firebaseapp/chatapp/data/FirebaseRepository.kt:80-95 | the `users` listener only adds or replaces entries: the keys afterwards are the old keys plus the uids put, and old keys keep their place in iteration order |
| Repository.PutAllUntouched | app/src/main/java/com/firebaseapp/chatapp/data/FirebaseRepository.kt:80-95 | an entry that no user of the snapshot is filed under is left as it was |
| Repository.PutAllLastWins | app/src/main/java/com/firebaseapp/chatapp/data/FirebaseRepository.kt:83 | the entry under a uid is the last user of the snapshot with that uid |
| Repository.PutAllInvariant | app/src/main/java/com/firebaseapp/chatapp/data/FirebaseRepository.kt:82-83 | putting users other than the current one keeps the current user out, and keeps each entry filed under its own uid |
| Repository.StatusFold | app/src/main/java/com/firebaseapp/chatapp/data/FirebaseRepository.kt:106-116 | the status listener keeps the key set and the iteration order of `usersMap` |
| Repository.StatusFoldInvariant | app/src/main/java/com/firebaseapp/chatapp/data/FirebaseRepository.kt:108-112 | status updates keep the invariant |
| Repository.StatusFoldOnlyPresence | app/src/main/java/com/firebaseapp/chatapp/data/FirebaseRepository.kt:112 | a status update changes nothing of a profile but `isOnline` |
| Repository.StatusFoldUntouched | app/src/main/java/com/firebaseapp/chatapp/data/FirebaseRepository.kt:106-116 | a user that no status child names keeps its entry |
| Repository.StatusFoldLastWins | app/src/main/java/com/firebaseapp/chatapp/data/FirebaseRepository.kt:108-112 | a known user other than the current one ends with the presence of the last child naming it, `false` when that child holds no boolean |
| Repository.StatusEmissionsExcludeCurrentUser | app/src/main/java/com/firebaseapp/chatapp/data/FirebaseRepository.kt:108-113 | no list the status listener emits contains the current user |
| Repository.PutNeverEmptiesValues | app/src/main/java/com/firebaseapp/chatapp/data/FirebaseRepository.kt:87-90 | after `usersMap[uid] = user` the list `usersMap.values.toList()` is not empty |
| Repository.StatusEmissionsNonEmpty | app/src/main/java/com/firebaseapp/chatapp/data/FirebaseRepository.kt:108-113 | the status listener emits only after updating a known user, so no list it emits is empty |
| Repository.OpenAllUsers | app/src/main/java/com/firebaseapp/chatapp/data/FirebaseRepository.kt:70-76 | with nobody signed in the flow emits the empty list and closes; otherwise it listens for the signed-in user from an empty `usersMap` that satisfies the directory invariant, which every later emission relies on to leave that user out |
| Repository.AllUsersFlow.OnUsersData | app/src/main/java/com/firebaseapp/chatapp/data/FirebaseRepository.kt:79-96 | every decoded user other than the current one is put and gets a presence lookup, in snapshot order, and the invariant is kept |
| Repository.AllUsersFlow.OnPresenceFetched | app/src/main/java/com/firebaseapp/chatapp/data/FirebaseRepository.kt:87-91 | the captured user is stored with its presence and the whole list is emitted, non-empty and without the current user |
| Repository.AllUsersFlow.OnStatusData | app/src/main/java/com/firebaseapp/chatapp/data/FirebaseRepository.kt:105-117 | `usersMap` becomes the status fold of the children, one list is emitted per child that applies, and none is empty or contains the current user |
| Home.BuildChatsIsStableSortOfRows | app/src/main/java/com/firebaseapp/chatapp/ui/viewmodel/HomeViewModel.kt:47-56 | the chat list has one row per user, is a permutation of the rows, is sorted non-increasing by `lastMessageTimestamp`, and equal timestamps keep `users` order |
| Home.BuildChatsJoinsUsers | app/src/main/java/com/firebaseapp/chatapp/ui/viewmodel/HomeViewModel.kt:47-55 | every row copies `userId`, `userName`, `userProfileImageUrl` and `isOnline` from a user, and every user has its row |
| Home.RecordLatest | app/src/main/java/com/firebaseapp/chatapp/ui/viewmodel/HomeViewModel.kt:43-44 | the peer's entries become the message text and timestamp, `""` and `0` for a null message, and no other entry changes |
| Home.LatestShowsInRow | app/src/main/java/com/firebaseapp/chatapp/ui/viewmodel/HomeViewModel.kt:43-53 | after an update for a peer, that peer's row shows the new message (or the defaults), and every other row is as before |
| Home.NoLatestMessageDefaults | app/src/main/java/com/firebaseapp/chatapp/ui/viewmodel/HomeViewModel.kt:52-53 | a user with nothing recorded shows `""` at timestamp `0` |
| Home.HomeViewModel.constructor | app/src/main/java/com/firebaseapp/chatapp/ui/viewmodel/HomeViewModel.kt:28-36 | loading starts only when a user is signed in, and the maps start empty |
| Home.HomeViewModel.OnUsers | app/src/main/java/com/firebaseapp/chatapp/ui/viewmodel/HomeViewModel.kt:38-74 | one subscription per user, in order; an empty list sets `users` and `chats` empty and `isLoading` false; otherwise the state is unchanged |
| Home.HomeViewModel.OnLatestMessage | app/src/main/java/com/firebaseapp/chatapp/ui/viewmodel/HomeViewModel.kt:42-62 | the maps are updated for the peer, and the state takes the users, the rebuilt chat list and `isLoading = false`, keeping `errorMessage` |
| Home.HomeViewModel.Logout | app/src/main/java/com/firebaseapp/chatapp/ui/viewmodel/HomeViewModel.kt:79-81 | the repository marks whoever is signed in offline |
| Conversation.ComposeMessage | app/src/main/java/com/firebaseapp/chatapp/ui/viewmodel/ChatViewModel.kt:53-59 | the message goes from the signed-in user to the receiver, with the generated id and the clock's timestamp; its text is the trimmed input, so it is non-empty with no whitespace at either end |
| Conversation.ChatViewModel.constructor | app/src/main/java/com/firebaseapp/chatapp/ui/viewmodel/ChatViewModel.kt:13-18 | the state starts as `ChatUiState()`: no messages, no receiver, not loading, no error |
| Conversation.ChatViewModel.LoadChat | app/src/main/java/com/firebaseapp/chatapp/ui/viewmodel/ChatViewModel.kt:26-30 | with nobody signed in nothing changes; otherwise loading starts |
| Conversation.ChatViewModel.OnReceiver | app/src/main/java/com/firebaseapp/chatapp/ui/viewmodel/ChatViewModel.kt:33-35 | a receiver emission changes only `receiver` |
| Conversation.ChatViewModel.OnMessages | app/src/main/java/com/firebaseapp/chatapp/ui/viewmodel/ChatViewModel.kt:38-43 | a messages emission sets `messages` and `isLoading = false`, and nothing else |
| Conversation.ChatViewModel.SendMessage | app/src/main/java/com/firebaseapp/chatapp/ui/viewmodel/ChatViewModel.kt:47-69 | nothing is sent and nothing changes exactly when there is no signed-in user, no receiver, or the text is blank; otherwise the composed message is sent, a failure sets the error text, and a success leaves the state alone |
| Conversation.ChatViewModel.ClearError | app/src/main/java/com/firebaseapp/chatapp/ui/viewmodel/ChatViewModel.kt:71-73 | only `errorMessage` changes, to null |
| Auth.RegisterValidation | app/src/main/java/com/firebaseapp/chatapp/ui/viewmodel/AuthViewModel.kt:24-36 | "Please fill all fields" exactly when some field is blank; "Password must be at least 6 characters" exactly when none is blank and the password is shorter than 6 code units; accepted otherwise |
| Auth.LoginValidation | app/src/main/java/com/firebaseapp/chatapp/ui/viewmodel/AuthViewModel.kt:59-64 | "Please fill all fields" exactly when the email or the password is blank; accepted otherwise |
| Auth.LoginHasNoLengthRule | app/src/main/java/com/firebaseapp/chatapp/ui/viewmodel/AuthViewModel.kt:59-64 | a three-character password that sign-up refuses for its length is accepted by sign-in |
| Auth.RegisterIsLoginPlusRules | app/src/main/java/com/firebaseapp/chatapp/ui/viewmodel/AuthViewModel.kt:24-36 | sign-up accepts exactly what sign-in accepts, when also the name is not blank and the password has at least 6 code units |
| Auth.Started | app/src/main/java/com/firebaseapp/chatapp/ui/viewmodel/AuthViewModel.kt:39 | a request starts loading with no error, keeping `isSuccess` and `userId` |
| Auth.Completed | app/src/main/java/com/firebaseapp/chatapp/ui/viewmodel/AuthViewModel.kt:42-54 | loading ends; success sets `isSuccess` and `userId`; failure sets the exception's message or the default, and keeps the rest |
| Auth.RequestOutcome | app/src/main/java/com/firebaseapp/chatapp/ui/viewmodel/AuthViewModel.kt:39-54 | after a whole request loading is off, an error shows exactly when the request failed, success records the uid, and failure keeps the earlier `isSuccess` and `userId` |
| Auth.AuthViewModel.constructor | app/src/main/java/com/firebaseapp/chatapp/ui/viewmodel/AuthViewModel.kt:10-15 | the state starts as `AuthUiState()`: not loading, no error, no success, no uid |
| Auth.AuthViewModel.Register | app/src/main/java/com/firebaseapp/chatapp/ui/viewmodel/AuthViewModel.kt:23-56 | a refused input changes only `errorMessage` and writes nothing; an accepted one runs the registration effect, and the state goes through start and completion with the default "Registration failed" |
| Auth.AuthViewModel.Login | app/src/main/java/com/firebaseapp/chatapp/ui/viewmodel/AuthViewModel.kt:58-84 | a refused input changes only `errorMessage` and writes nothing; an accepted one runs the login effect, and the state goes through start and completion with the default "Login failed" |
| Auth.AuthViewModel.ClearError | app/src/main/java/com/firebaseapp/chatapp/ui/viewmodel/AuthViewModel.kt:86-88 | only `errorMessage` changes, to null |
| Auth.AuthViewModel.ResetState | app/src/main/java/com/firebaseapp/chatapp/ui/viewmodel/AuthViewModel.kt:90-92 | the state is back to the default `AuthUiState()` |

## Left out

- Flows and coroutines (`callbackFlow`, `trySend`, `awaitClose`, `viewModelScope.launch`, `collect`) are not modelled. Neither is adding or removing listeners or the lifetime of a subscription: every listener body is a method or function, called once per snapshot.
- The one-shot presence reads of `getAllUsers` and `getUser` are left out: nothing says when they complete, how many build up, or that a cancelled read emits nothing. Their completion is the separate step `AllUsersFlow.OnPresenceFetched` / `OnUserPresence`.
- Conversation.ChatViewModel.LoadChat: whether the message subscription at `ChatViewModel.kt:38` is ever reached depends on flow cancellation, so it is not modelled. Its two effects are the separate steps `OnReceiver` and `OnMessages`.
- `SimpleDateFormat` output and `Locale` are library calls and are not modelled. `Utils.FormatTimestamp` returns only the bucket and the minute count, and `RelativeText` gives the text of the two relative labels.
- The `DataSnapshot` wire encoding, including Long-versus-Int coercion, is not modelled. Values arrive as a string, a `Long` or a boolean.
- Messages.FromMap: every child decoded in one listener callback sees the same clock reading `now`, whereas the source reads `System.currentTimeMillis()` once per child.
- Path segments are taken as given: a `/` inside a uid or message id, which Firebase would split into several keys, is not modelled.
- Repository.ReadStatus: a value at `status/uid/isOnline` that is not a boolean, or a subtree stored below that path, reads as `None` and so as offline, whereas the Firebase client's `getValue(Boolean::class.java)` throws on it. `GetUserEmitsStoredProfile` and `PresenceReadsBackWrites` inherit this.
- Repository.StatusChild: a presence value is a stored boolean or nothing, and only a missing value reads as offline (`?: false`). A value of another type, on which the Firebase client's `getValue(Boolean::class.java)` throws inside `onDataChange`, cannot be represented.
- Firebase Authentication (`createUserWithEmailAndPassword`, `signInWithEmailAndPassword`, `signOut`, `currentUser`) is a foreign service. Its answers are parameters, and so are `getCurrentUserId` and `isUserLoggedIn`.
- The clock (`System.currentTimeMillis()`, `Date()`) and `(0..999).random()` are parameters.
- Compose UI, navigation and `MainActivity.kt` are left out, being presentation only. `Constants.kt` only defines unused path strings, so it is left out too.
