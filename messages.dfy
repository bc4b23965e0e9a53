/**
 * The read side of messaging: the messages of one match, visible only to its
 * two users and ordered oldest first, and a user's conversation list, which
 * names the other party and the last embedded message of each match.
 */
module Messages {
  import opened Wrappers
  import opened Seqs
  import opened Matches

  datatype ChatMessage = ChatMessage(id: nat, matchId: nat, senderId: UserId, content: string, createdAt: int)

  /**
   * Why `getMessagesForMatch` fails. A failed match lookup is rethrown
   * without a status, so its code is left to the error middleware.
   */
  datatype MessageError = MatchLookupFailed | NotAuthorized
  {
    function HttpStatus(): Option<int>
    {
      if NotAuthorized? then Some(403) else None
    }

    function Message(): Option<string>
    {
      if NotAuthorized? then Some("Not authorized to view these messages") else None
    }
  }

  function HasId(id: nat): MatchRecord -> bool
  {
    (r: MatchRecord) => r.id == id
  }

  function InMatch(matchId: nat): ChatMessage -> bool
  {
    (m: ChatMessage) => m.matchId == matchId
  }

  /** `order('created_at', { ascending: true })`. */
  predicate CreatedNoLater(x: ChatMessage, y: ChatMessage)
  {
    x.createdAt <= y.createdAt
  }

  /** `getMessagesForMatch`: the match row by id, the participant check, then the thread. */
  function MessagesForMatch(matches: seq<MatchRecord>, messages: seq<ChatMessage>, matchId: nat, u: UserId)
    : Result<seq<ChatMessage>, MessageError>
  {
    match Single(Filter(matches, HasId(matchId)))
    case None => Err(MatchLookupFailed)
    case Some(m) =>
      if m.user1 != u && m.user2 != u then Err(NotAuthorized)
      else Ok(SortBy(Filter(messages, InMatch(matchId)), CreatedNoLater))
  }

  ghost predicate IdsUnique(matches: seq<MatchRecord>)
  {
    forall i, j :: 0 <= i < j < |matches| ==> matches[i].id != matches[j].id
  }

  lemma LookupById(matches: seq<MatchRecord>, k: nat)
    requires IdsUnique(matches) && k < |matches|
    ensures Single(Filter(matches, HasId(matches[k].id))) == Some(matches[k])
  {
    FilterSingleton(matches, HasId(matches[k].id), k);
  }

  /** A match id that no row has makes the lookup fail. */
  lemma UnknownMatchFails(matches: seq<MatchRecord>, messages: seq<ChatMessage>, matchId: nat, u: UserId)
    requires forall i :: 0 <= i < |matches| ==> matches[i].id != matchId
    ensures MessagesForMatch(matches, messages, matchId, u) == Err(MatchLookupFailed)
  {
    FilterEmpty(matches, HasId(matchId));
  }

  /** Someone who is neither user of the match gets a 403, whatever the messages. */
  lemma NonParticipantRefused(matches: seq<MatchRecord>, messages: seq<ChatMessage>, k: nat, u: UserId)
    requires IdsUnique(matches) && k < |matches|
    requires matches[k].user1 != u && matches[k].user2 != u
    ensures MessagesForMatch(matches, messages, matches[k].id, u) == Err(NotAuthorized)
    ensures NotAuthorized.HttpStatus() == Some(403)
  {
    LookupById(matches, k);
  }

  /**
   * Either user of the match gets exactly the messages whose match id is
   * that match, each as often as stored, ordered by creation time ascending.
   * The match's status is not consulted: a pending record's users may read too.
   */
  lemma ParticipantGetsThread(matches: seq<MatchRecord>, messages: seq<ChatMessage>, k: nat, u: UserId)
    requires IdsUnique(matches) && k < |matches|
    requires matches[k].user1 == u || matches[k].user2 == u
    ensures var r := MessagesForMatch(matches, messages, matches[k].id, u);
      && r.Ok?
      && (forall x :: multiset(r.value)[x] == if x.matchId == matches[k].id then multiset(messages)[x] else 0)
      && (forall i, j :: 0 <= i < j < |r.value| ==> r.value[i].createdAt <= r.value[j].createdAt)
  {
    LookupById(matches, k);
    var id := matches[k].id;
    var thread := Filter(messages, InMatch(id));
    forall x: ChatMessage ensures multiset(thread)[x] == if x.matchId == id then multiset(messages)[x] else 0 {
      FilterMultiset(messages, InMatch(id), x);
    }
    SortBySorted(thread, CreatedNoLater);
  }

  // ---------------------------------------------------------------------
  // Conversations
  // ---------------------------------------------------------------------

  datatype UserRef = UserRef(id: UserId, email: string)

  datatype EmbeddedMessage = EmbeddedMessage(id: nat, content: string, createdAt: int)

  /** A row of the conversations query: a match joined with both users and its messages. */
  datatype ConversationRow = ConversationRow(
    id: nat,
    status: Status,
    user1: UserRef,
    user2: UserRef,
    messages: seq<EmbeddedMessage>,
    updatedAt: int)

  datatype LastMessage = LastMessage(content: string, createdAt: int)

  datatype Conversation = Conversation(matchId: nat, otherUser: UserRef, lastMessage: Option<LastMessage>)

  function ConversationOf(u: UserId): ConversationRow -> bool
  {
    (row: ConversationRow) => (row.user1.id == u || row.user2.id == u) && row.status == Match
  }

  /** `order('updated_at', { ascending: false })`. */
  predicate UpdatedNoEarlier(x: ConversationRow, y: ConversationRow)
  {
    x.updatedAt >= y.updatedAt
  }

  /** The conversations query: the user's matched rows, most recently updated first. */
  function ConversationQuery(rows: seq<ConversationRow>, u: UserId): seq<ConversationRow>
  {
    SortBy(Filter(rows, ConversationOf(u)), UpdatedNoEarlier)
  }

  /**
   * One formatted conversation: the other user is `user2` when `user1` is
   * the requester and `user1` otherwise; the last message is the final
   * embedded one, or none when there are no messages.
   */
  function FormatConversation(row: ConversationRow, u: UserId): (c: Conversation)
    ensures c.matchId == row.id
    ensures c.otherUser == row.user1 || c.otherUser == row.user2
    ensures (row.user1.id == u || row.user2.id == u) && row.user1.id != row.user2.id ==> c.otherUser.id != u
    ensures c.lastMessage.None? <==> row.messages == []
    ensures c.lastMessage.Some? ==>
      c.lastMessage.value == LastMessage(row.messages[|row.messages| - 1].content, row.messages[|row.messages| - 1].createdAt)
  {
    var other := if row.user1.id == u then row.user2 else row.user1;
    var last := if |row.messages| > 0 then Some(row.messages[|row.messages| - 1]) else None;
    Conversation(row.id, other, if last.Some? then Some(LastMessage(last.value.content, last.value.createdAt)) else None)
  }

  /** `getUserConversations`. */
  function UserConversations(rows: seq<ConversationRow>, u: UserId): (r: seq<Conversation>)
    ensures |r| == |ConversationQuery(rows, u)|
    ensures forall i :: 0 <= i < |r| ==> r[i] == FormatConversation(ConversationQuery(rows, u)[i], u)
  {
    var q := ConversationQuery(rows, u);
    seq(|q|, i requires 0 <= i < |q| => FormatConversation(q[i], u))
  }

  /**
   * The query keeps exactly the user's rows with status `match`, each as
   * often as stored, most recently updated first.
   */
  lemma ConversationQueryExact(rows: seq<ConversationRow>, u: UserId)
    ensures var q := ConversationQuery(rows, u);
      && (forall x :: multiset(q)[x] == if (x.user1.id == u || x.user2.id == u) && x.status == Match then multiset(rows)[x] else 0)
      && (forall i, j :: 0 <= i < j < |q| ==> q[i].updatedAt >= q[j].updatedAt)
  {
    var kept := Filter(rows, ConversationOf(u));
    forall x: ConversationRow ensures multiset(kept)[x] == if ConversationOf(u)(x) then multiset(rows)[x] else 0 {
      FilterMultiset(rows, ConversationOf(u), x);
    }
    SortBySorted(kept, UpdatedNoEarlier);
  }

  /**
   * In the formatted list, whose rows keep the query's order, the other user
   * is never the requester when neither row names one user twice.
   */
  lemma OtherUserIsNotRequester(rows: seq<ConversationRow>, u: UserId, i: nat)
    requires forall x :: x in rows ==> x.user1.id != x.user2.id
    requires i < |UserConversations(rows, u)|
    ensures UserConversations(rows, u)[i].otherUser.id != u
    ensures UserConversations(rows, u)[i].matchId == ConversationQuery(rows, u)[i].id
  {
    var q := ConversationQuery(rows, u);
    var kept := Filter(rows, ConversationOf(u));
    assert q[i] in multiset(kept);
    assert q[i] in kept;
  }
}
