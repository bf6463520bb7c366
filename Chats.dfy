/** `model/Chat.kt`: one row of the home screen's conversation list. */
module Chats {
  import opened KotlinCore

  datatype Chat = Chat(
    userId: string,
    userName: string,
    userProfileImageUrl: string,
    lastMessage: string,
    lastMessageTimestamp: Long,
    isOnline: bool)
}
