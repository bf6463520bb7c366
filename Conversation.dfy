/** `ui/viewmodel/ChatViewModel.kt`: the state of one conversation and the
    guarded sending of a message. */
module Conversation {
  import opened KotlinCore
  import opened Text
  import opened Store
  import opened Repository
  import Messages
  import Utils

  datatype ChatUiState = ChatUiState(
    messages: seq<Message>,
    receiver: Option<User>,
    isLoading: bool,
    errorMessage: Option<string>)

  /** `ChatUiState()`. */
  const DefaultChatUiState := ChatUiState([], None, false, None)

  /** The message `sendMessage` builds once its guards pass: the typed text
      trimmed, addressed from the signed-in user to the receiver. The id and the
      timestamp take two separate clock readings. */
  function ComposeMessage(senderId: string, receiverId: string, messageText: string,
                          idMillis: Long, random: int, now: Long): (m: Message)
    requires !IsBlank(messageText) && 0 <= random <= 999
    ensures m.senderId == senderId && m.receiverId == receiverId && m.timestamp == now
    ensures m.messageId == Utils.GenerateMessageId(idMillis, random)
    ensures m.message == Trim(messageText)
    ensures m.message != [] && !IsWhitespace(m.message[0]) && !IsWhitespace(m.message[|m.message| - 1])
  {
    Messages.Message(Utils.GenerateMessageId(idMillis, random), Trim(messageText), senderId, receiverId, now)
  }

  /** The error a failed send shows: the exception's message, else the default. */
  function SendErrorText(e: Exception): (text: string)
    ensures e.message.Some? ==> text == e.message.value
    ensures e.message.None? ==> text == "Failed to send message"
  {
    e.message.GetOr("Failed to send message")
  }

  class ChatViewModel {
    const repository: FirebaseRepository
    var uiState: ChatUiState

    constructor (repository: FirebaseRepository)
      ensures this.repository == repository && uiState == DefaultChatUiState
    {
      this.repository := repository;
      uiState := DefaultChatUiState;
    }

    /** `loadChat(receiverId)`: with nobody signed in nothing happens; otherwise
        loading starts and the receiver's profile is subscribed to. Returns the
        signed-in user, the sender of the conversation. */
    method LoadChat(currentUserId: Option<string>, receiverId: string) returns (senderId: Option<string>)
      modifies this
      ensures senderId == currentUserId
      ensures currentUserId.None? ==> uiState == old(uiState)
      ensures currentUserId.Some? ==> uiState == old(uiState).(isLoading := true)
    {
      if currentUserId.None? {
        return None;
      }
      uiState := uiState.(isLoading := true);
      senderId := currentUserId;
    }

    /** The receiver's profile flow emitted: only `receiver` changes. */
    method OnReceiver(user: Option<User>)
      modifies this
      ensures uiState == old(uiState).(receiver := user)
    {
      uiState := uiState.(receiver := user);
    }

    /** The conversation's message flow emitted: `messages` is replaced and
        loading ends; nothing else changes. */
    method OnMessages(messages: seq<Message>)
      modifies this
      ensures uiState == old(uiState).(messages := messages, isLoading := false)
    {
      uiState := uiState.(messages := messages, isLoading := false);
    }

    /** `sendMessage(messageText)`. Nothing happens without a signed-in user,
        without a receiver, or for blank text; otherwise the composed message is
        sent through the repository, a failure is shown as an error and a
        success leaves the state alone. Returns the message sent, if any. */
    method SendMessage(currentUserId: Option<string>, messageText: string,
                       idMillis: Long, random: int, now: Long,
                       first: WriteOutcome, second: WriteOutcome)
      returns (sent: Option<Message>)
      requires 0 <= random <= 999
      modifies this, repository.database
      ensures sent.None? <==> currentUserId.None? || old(uiState).receiver.None? || IsBlank(messageText)
      ensures sent.None? ==> uiState == old(uiState) && repository.database.tree == old(repository.database.tree)
      ensures sent.Some? ==>
        && sent.value == ComposeMessage(currentUserId.value, old(uiState).receiver.value.uid, messageText, idMillis, random, now)
        && var (t, r) := SendEffect(old(repository.database.tree), sent.value, first, second);
           && repository.database.tree == t
           && uiState == (if r.Failure? then old(uiState).(errorMessage := Some(SendErrorText(r.error))) else old(uiState))
    {
      if currentUserId.None? {
        return None;
      }
      var senderId := currentUserId.value;
      if uiState.receiver.None? {
        return None;
      }
      var receiverId := uiState.receiver.value.uid;
      if IsBlank(messageText) {
        return None;
      }
      var message := ComposeMessage(senderId, receiverId, messageText, idMillis, random, now);
      var r := repository.SendMessage(message, first, second);
      if r.Failure? {
        uiState := uiState.(errorMessage := Some(SendErrorText(r.error)));
      }
      sent := Some(message);
    }

    /** `clearError()`: only `errorMessage` changes, to null. */
    method ClearError()
      modifies this
      ensures uiState == old(uiState).(errorMessage := None)
    {
      uiState := uiState.(errorMessage := None);
    }
  }
}
