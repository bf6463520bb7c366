/** `model/Message.kt`: a chat message and its map (de)serialisation. */
module Messages {
  import opened KotlinCore
  import opened Store

  datatype Message = Message(
    messageId: string,
    message: string,
    senderId: string,
    receiverId: string,
    timestamp: Long)

  /** The five keys `toMap` writes. */
  const MessageKeys: set<string> := {"messageId", "message", "senderId", "receiverId", "timestamp"}

  function ToMap(m: Message): Record {
    map[
      "messageId" := StrValue(m.messageId),
      "message" := StrValue(m.message),
      "senderId" := StrValue(m.senderId),
      "receiverId" := StrValue(m.receiverId),
      "timestamp" := LongValue(m.timestamp)]
  }

  /** `map[key] as? Long ?: System.currentTimeMillis()`, with the clock reading `now`. */
  function LongField(rec: Record, key: string, now: Long): Long {
    if key in rec && rec[key].LongValue? then rec[key].n else now
  }

  /** `Message.fromMap`; `now` is what `System.currentTimeMillis()` returns during the call. */
  function FromMap(rec: Record, now: Long): Message {
    Message(
      StringField(rec, "messageId"),
      StringField(rec, "message"),
      StringField(rec, "senderId"),
      StringField(rec, "receiverId"),
      LongField(rec, "timestamp", now))
  }

  /** Decoding what was encoded gives the message back, whatever the clock says. */
  lemma RoundTrip(m: Message, now: Long)
    ensures FromMap(ToMap(m), now) == m
  {
  }

  /** `toMap` writes exactly the five keys, each with the type `fromMap` expects. */
  lemma ToMapShape(m: Message)
    ensures ToMap(m).Keys == MessageKeys
    ensures forall k :: k in ToMap(m) && k != "timestamp" ==> ToMap(m)[k].StrValue?
    ensures ToMap(m)["timestamp"].LongValue?
  {
  }

  /** A missing or wrongly typed field decodes to its default: `""` for the
      strings, the current time for the timestamp. */
  lemma FromMapDefaults(rec: Record, now: Long)
    ensures "messageId" !in rec || !rec["messageId"].StrValue? ==> FromMap(rec, now).messageId == ""
    ensures "message" !in rec || !rec["message"].StrValue? ==> FromMap(rec, now).message == ""
    ensures "senderId" !in rec || !rec["senderId"].StrValue? ==> FromMap(rec, now).senderId == ""
    ensures "receiverId" !in rec || !rec["receiverId"].StrValue? ==> FromMap(rec, now).receiverId == ""
    ensures "timestamp" !in rec || !rec["timestamp"].LongValue? ==> FromMap(rec, now).timestamp == now
  {
  }

  /** Keys other than the five are ignored: records that agree on the five keys
      decode alike. */
  lemma FromMapIgnoresExtraKeys(a: Record, b: Record, now: Long)
    requires forall k :: k in MessageKeys ==> (k in a <==> k in b) && (k in a ==> a[k] == b[k])
    ensures FromMap(a, now) == FromMap(b, now)
  {
    assert "messageId" in MessageKeys && "message" in MessageKeys && "senderId" in MessageKeys;
    assert "receiverId" in MessageKeys && "timestamp" in MessageKeys;
  }
}
