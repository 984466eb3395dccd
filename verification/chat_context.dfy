/** The chat window state (apps/web/components/chat/chat-context.tsx): the
    conversations, which of them are open as windows and which of those are
    minimised. The current user, the new conversation's id and the clock are
    parameters; the delayed auto-reply is not modelled. */
module ChatContext {
  import opened Wrappers
  import opened CoreTypes
  import opened Seqs

  datatype ChatState = ChatState(
    conversations: seq<Conversation>, openChats: seq<Id>, minimizedChats: seq<Id>)

  /** Neither window list holds an id twice. */
  ghost predicate Valid(s: ChatState) {
    NoDuplicates(s.openChats) && NoDuplicates(s.minimizedChats)
  }

  /** The conversation includes both users. */
  predicate Between(c: Conversation, me: Id, other: Id) {
    other in c.participantIds && me in c.participantIds
  }

  /** The conversation `startChat` creates when none exists. */
  function NewConversation(id: Id, me: Id, target: Id, now: string): Conversation {
    Conversation(id, None, None, None, [me, target], [], now)
  }

  /** The conversation `startChat` opens: the first existing one between the
      two users, or a fresh one. */
  function ChatTarget(convs: seq<Conversation>, me: Id, target: Id, newId: Id, now: string)
    : (c: Conversation)
    ensures (exists i :: 0 <= i < |convs| && Between(convs[i], me, target)) ==>
              exists i :: 0 <= i < |convs| && c == convs[i] && Between(c, me, target) &&
                forall j :: 0 <= j < i ==> !Between(convs[j], me, target)
    ensures (forall i :: 0 <= i < |convs| ==> !Between(convs[i], me, target)) ==>
              c == NewConversation(newId, me, target, now)
  {
    match FindFirst(convs, c => Between(c, me, target))
    case Some(i) => convs[i]
    case None => NewConversation(newId, me, target, now)
  }

  /** `startChat(target)`: reuse or create the conversation, open its window
      once, and un-minimise it. */
  function StartChat(s: ChatState, me: Id, target: Id, newId: Id, now: string): (t: ChatState)
    ensures var c := ChatTarget(s.conversations, me, target, newId, now);
            c.id in t.openChats && c.id !in t.minimizedChats &&
            (forall x :: x != c.id ==> (x in t.openChats <==> x in s.openChats)) &&
            (forall x :: x != c.id ==> (x in t.minimizedChats <==> x in s.minimizedChats))
    ensures (exists i :: 0 <= i < |s.conversations| && Between(s.conversations[i], me, target)) ==>
              t.conversations == s.conversations
    ensures (forall i :: 0 <= i < |s.conversations| ==> !Between(s.conversations[i], me, target)) ==>
              t.conversations == s.conversations + [NewConversation(newId, me, target, now)]
    ensures var c := ChatTarget(s.conversations, me, target, newId, now);
            t.openChats == (if c.id in s.openChats then s.openChats else s.openChats + [c.id])
    ensures IsSubsequence(t.minimizedChats, s.minimizedChats)
    ensures Valid(s) ==> Valid(t)
  {
    var c := ChatTarget(s.conversations, me, target, newId, now);
    SubsequenceOfItself(s.minimizedChats);
    var found := FindFirst(s.conversations, c => Between(c, me, target));
    var convs := if found.Some? then s.conversations else s.conversations + [c];
    var minimized := if c.id in s.minimizedChats then Without(s.minimizedChats, c.id) else s.minimizedChats;
    ChatState(convs, AppendIfAbsent(s.openChats, c.id), minimized)
  }

  /** `closeChat(id)`: the id leaves both lists; nothing else moves. */
  function CloseChat(s: ChatState, id: Id): (t: ChatState)
    ensures id !in t.openChats && id !in t.minimizedChats
    ensures forall x :: x != id ==> (x in t.openChats <==> x in s.openChats)
    ensures forall x :: x != id ==> (x in t.minimizedChats <==> x in s.minimizedChats)
    ensures IsSubsequence(t.openChats, s.openChats) && IsSubsequence(t.minimizedChats, s.minimizedChats)
    ensures t.conversations == s.conversations
    ensures Valid(s) ==> Valid(t)
  {
    ChatState(s.conversations, Without(s.openChats, id), Without(s.minimizedChats, id))
  }

  /** `minimizeChat(id)`: the id is added at the end unless already there. */
  function MinimizeChat(s: ChatState, id: Id): (t: ChatState)
    ensures id in t.minimizedChats
    ensures forall x :: x in t.minimizedChats <==> x in s.minimizedChats || x == id
    ensures t.minimizedChats == (if id in s.minimizedChats then s.minimizedChats else s.minimizedChats + [id])
    ensures t.openChats == s.openChats && t.conversations == s.conversations
    ensures Valid(s) ==> Valid(t)
  {
    s.(minimizedChats := AppendIfAbsent(s.minimizedChats, id))
  }

  /** `maximizeChat(id)`: the id leaves the minimised list only. */
  function MaximizeChat(s: ChatState, id: Id): (t: ChatState)
    ensures id !in t.minimizedChats
    ensures forall x :: x != id ==> (x in t.minimizedChats <==> x in s.minimizedChats)
    ensures IsSubsequence(t.minimizedChats, s.minimizedChats)
    ensures t.openChats == s.openChats && t.conversations == s.conversations
    ensures Valid(s) ==> Valid(t)
  {
    s.(minimizedChats := Without(s.minimizedChats, id))
  }

  /** Minimising twice is minimising once. */
  lemma MinimizeIdempotent(s: ChatState, id: Id)
    ensures MinimizeChat(MinimizeChat(s, id), id) == MinimizeChat(s, id)
  {
  }

  /** Maximising a window that was just minimised restores the state exactly. */
  lemma MinimizeMaximizeRoundTrip(s: ChatState, id: Id)
    requires id !in s.minimizedChats
    ensures MaximizeChat(MinimizeChat(s, id), id) == s
  {
    WithoutAppended(s.minimizedChats, id);
  }

  /** `sendMessage(id, content)` without the auto-reply: the message goes to
      the end of every conversation with that id, whose `updatedAt` becomes
      the message time; all other conversations are untouched. */
  function SendMessage(s: ChatState, conversationId: Id, me: Id, messageId: Id, content: string,
                       timestamp: string): (t: ChatState)
    ensures |t.conversations| == |s.conversations|
    ensures forall i :: 0 <= i < |s.conversations| && s.conversations[i].id != conversationId ==>
              t.conversations[i] == s.conversations[i]
    ensures forall i :: 0 <= i < |s.conversations| && s.conversations[i].id == conversationId ==>
              var c := s.conversations[i];
              t.conversations[i] ==
                c.(messages := c.messages + [Message(messageId, None, me, content, timestamp, false)],
                   updatedAt := timestamp)
    ensures t.openChats == s.openChats && t.minimizedChats == s.minimizedChats
  {
    var msg := Message(messageId, None, me, content, timestamp, false);
    s.(conversations := seq(|s.conversations|, i requires 0 <= i < |s.conversations| =>
         var c := s.conversations[i];
         if c.id == conversationId then c.(messages := c.messages + [msg], updatedAt := timestamp) else c))
  }

  /** `i` is the position `find` stops at when looking for the id. */
  predicate FirstWithId(convs: seq<Conversation>, i: int, conversationId: Id) {
    0 <= i < |convs| && convs[i].id == conversationId &&
    forall j :: 0 <= j < i ==> convs[j].id != conversationId
  }

  /** The first participant of the conversation who is not the current user;
      nothing for an unknown conversation or one with no other participant. */
  function OtherParticipant(convs: seq<Conversation>, me: Id, conversationId: Id): (r: Option<Id>)
    ensures (forall i :: 0 <= i < |convs| ==> convs[i].id != conversationId) ==> r.None?
    ensures r.Some? ==> r.value != me
    ensures r.Some? ==>
              exists i :: 0 <= i < |convs| && convs[i].id == conversationId &&
                (forall j :: 0 <= j < i ==> convs[j].id != conversationId) &&
                exists k :: 0 <= k < |convs[i].participantIds| && convs[i].participantIds[k] == r.value &&
                  forall l :: 0 <= l < k ==> convs[i].participantIds[l] == me
    ensures forall i :: FirstWithId(convs, i, conversationId) ==>
              (r.Some? <==> exists k :: 0 <= k < |convs[i].participantIds| && convs[i].participantIds[k] != me)
  {
    match FindFirst(convs, (c: Conversation) => c.id == conversationId)
    case None => None
    case Some(i) =>
      var ids := convs[i].participantIds;
      assert forall i' :: FirstWithId(convs, i', conversationId) ==> i' == i;
      match FindFirst(ids, (x: Id) => x != me)
      case None => None
      case Some(k) => Some(ids[k])
  }

  /** `getParticipant`: the directory entry of the other participant. */
  function GetParticipant(convs: seq<Conversation>, directory: seq<Member>, me: Id, conversationId: Id)
    : (r: Option<Member>)
    ensures r.Some? ==> r.value in directory && OtherParticipant(convs, me, conversationId) == Some(r.value.id)
    ensures OtherParticipant(convs, me, conversationId).None? ==> r.None?
    ensures OtherParticipant(convs, me, conversationId).Some? ==>
              var pid := OtherParticipant(convs, me, conversationId).value;
              (r.Some? <==> exists j :: 0 <= j < |directory| && directory[j].id == pid) &&
              (r.Some? ==> exists j :: 0 <= j < |directory| && directory[j] == r.value &&
                             forall l :: 0 <= l < j ==> directory[l].id != pid)
  {
    match OtherParticipant(convs, me, conversationId)
    case None => None
    case Some(pid) =>
      match FindFirst(directory, (m: Member) => m.id == pid)
      case None => None
      case Some(j) => Some(directory[j])
  }

  /** The window of a conversation `startChat` has just created shows the
      person the chat was started with. */
  lemma NewChatShowsTarget(s: ChatState, me: Id, target: Id, newId: Id, now: string, directory: seq<Member>)
    requires target != me
    requires forall i :: 0 <= i < |s.conversations| ==> !Between(s.conversations[i], me, target)
    requires forall i :: 0 <= i < |s.conversations| ==> s.conversations[i].id != newId
    ensures var convs := StartChat(s, me, target, newId, now).conversations;
            OtherParticipant(convs, me, newId) == Some(target) &&
            (GetParticipant(convs, directory, me, newId).Some? <==>
               exists j :: 0 <= j < |directory| && directory[j].id == target)
  {
    var convs := StartChat(s, me, target, newId, now).conversations;
    var n := |s.conversations|;
    assert convs == s.conversations + [NewConversation(newId, me, target, now)];
    assert FirstWithId(convs, n, newId);
    var ids := convs[n].participantIds;
    assert ids == [me, target] && ids[1] != me;
    var r := OtherParticipant(convs, me, newId);
    assert r.Some?;
    var i, k :| 0 <= i < |convs| && convs[i].id == newId &&
                (forall j :: 0 <= j < i ==> convs[j].id != newId) &&
                0 <= k < |convs[i].participantIds| && convs[i].participantIds[k] == r.value &&
                forall l :: 0 <= l < k ==> convs[i].participantIds[l] == me;
    assert i == n;
  }

  // ---------------------------------------------------------------------
  // Any sequence of window operations keeps the lists duplicate-free.

  datatype ChatOp =
    | Start(target: Id, newId: Id, now: string)
    | Close(id: Id)
    | Minimize(id: Id)
    | Maximize(id: Id)
    | Send(conversationId: Id, messageId: Id, content: string, timestamp: string)

  function Step(s: ChatState, me: Id, op: ChatOp): ChatState {
    match op
    case Start(target, newId, now) => StartChat(s, me, target, newId, now)
    case Close(id) => CloseChat(s, id)
    case Minimize(id) => MinimizeChat(s, id)
    case Maximize(id) => MaximizeChat(s, id)
    case Send(cid, mid, content, ts) => SendMessage(s, cid, me, mid, content, ts)
  }

  function Run(s: ChatState, me: Id, ops: seq<ChatOp>): ChatState
    decreases |ops|
  {
    if |ops| == 0 then s else Run(Step(s, me, ops[0]), me, ops[1..])
  }

  /** From any valid state — the initial one has both lists empty — every run
      of operations ends in a valid state. */
  lemma {:induction false} RunPreservesValid(s: ChatState, me: Id, ops: seq<ChatOp>)
    requires Valid(s)
    ensures Valid(Run(s, me, ops))
    decreases |ops|
  {
    if |ops| > 0 {
      RunPreservesValid(Step(s, me, ops[0]), me, ops[1..]);
    }
  }
}
