/** The chat server actions (apps/web/components/chat/actions.ts): mapping
    message and conversation rows to UI records, and the message row the
    `sendMessage` action inserts. The queries are not modelled. */
module ChatActions {
  import opened Wrappers
  import opened CoreTypes

  datatype MessageRow = MessageRow(
    id: Id, conversationId: Id, senderId: Id, content: string, createdAt: string, read: Option<bool>)

  datatype ParticipantRow = ParticipantRow(userId: Id)

  datatype ConversationRow = ConversationRow(
    id: Id, familyId: Id, isGroup: Option<bool>, name: Option<string>, createdAt: string,
    participants: Option<seq<ParticipantRow>>, messages: Option<seq<MessageRow>>)

  /** `mapMessageToUI`: fields copied, `created_at` as the timestamp, and
      `read || false`, so an absent or false flag reads as unread. */
  function MapMessageToUI(row: MessageRow): (m: Message)
    ensures m.id == row.id && m.senderId == row.senderId && m.content == row.content
    ensures m.conversationId == Some(row.conversationId) && m.timestamp == row.createdAt
    ensures m.read <==> row.read == Some(true)
  {
    Message(row.id, Some(row.conversationId), row.senderId, row.content, row.createdAt,
            row.read.Some? && row.read.value)
  }

  /** `mapConversationToUI`: participants' user ids and messages in row order
      (none when the join is absent); `updatedAt` is the conversation's
      creation time, not its last message's. The current user is not used. */
  function MapConversationToUI(row: ConversationRow, currentUserId: Id): (c: Conversation)
    ensures c.id == row.id && c.familyId == Some(row.familyId) && c.updatedAt == row.createdAt
    ensures c.isGroup == row.isGroup && c.name == row.name
    ensures row.participants.None? ==> c.participantIds == []
    ensures row.participants.Some? ==>
              |c.participantIds| == |row.participants.value| &&
              forall i :: 0 <= i < |c.participantIds| ==> c.participantIds[i] == row.participants.value[i].userId
    ensures row.messages.None? ==> c.messages == []
    ensures row.messages.Some? ==>
              |c.messages| == |row.messages.value| &&
              forall i :: 0 <= i < |c.messages| ==> c.messages[i] == MapMessageToUI(row.messages.value[i])
  {
    var ps := row.participants.GetOr([]);
    var ms := row.messages.GetOr([]);
    Conversation(
      row.id, Some(row.familyId), row.isGroup, row.name, 
      seq(|ps|, i requires 0 <= i < |ps| => ps[i].userId),
      seq(|ms|, i requires 0 <= i < |ms| => MapMessageToUI(ms[i])),
      row.createdAt)
  }

  /** The row the `sendMessage` action inserts, as the database stores it
      with its generated id and time and no read flag. */
  function InsertedMessage(conversationId: Id, userId: Id, content: string, id: Id, createdAt: string)
    : MessageRow
  {
    MessageRow(id, conversationId, userId, content, createdAt, None)
  }

  /** A sent message reads back unread, from the sender, in its conversation. */
  lemma SentMessageReadsBack(conversationId: Id, userId: Id, content: string, id: Id, createdAt: string)
    ensures var m := MapMessageToUI(InsertedMessage(conversationId, userId, content, id, createdAt));
            m == Message(id, Some(conversationId), userId, content, createdAt, false)
  {
  }

  /** Every participant row's user id is among the mapped participant ids. */
  lemma MappedParticipantsInclude(row: ConversationRow, currentUserId: Id, i: nat)
    requires row.participants.Some? && i < |row.participants.value|
    ensures row.participants.value[i].userId in MapConversationToUI(row, currentUserId).participantIds
  {
    var c := MapConversationToUI(row, currentUserId);
    assert c.participantIds[i] == row.participants.value[i].userId;
  }
}
