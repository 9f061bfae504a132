/**
 * MessageRepository: filters on sender and recipient, newest first where
 * the query says ORDER BY createdAt DESC (pages are not modelled: a page is
 * a slice of the whole ordered list).
 */
module MessageRepository {
  import opened Seqs
  import opened Domain

  function CreatedAt(m: Message): int { m.createdAt }

  /** findBySender. */
  function FindBySender(ms: seq<Message>, senderId: int): (r: seq<Message>)
    ensures forall x :: x in r <==> x in ms && x.senderId == senderId
  {
    Filter(ms, (x: Message) => x.senderId == senderId)
  }

  /** findByRecipient. */
  function FindByRecipient(ms: seq<Message>, recipientId: int): (r: seq<Message>)
    ensures forall x :: x in r <==> x in ms && x.recipientId == recipientId
  {
    Filter(ms, (x: Message) => x.recipientId == recipientId)
  }

  /** findBySenderOrderByCreatedAtDesc, unpaged. */
  function FindBySenderOrderByCreatedAtDesc(ms: seq<Message>, senderId: int): (r: seq<Message>)
    ensures forall x :: x in r <==> x in ms && x.senderId == senderId
    ensures SortedDesc(r, CreatedAt)
  {
    var rows := FindBySender(ms, senderId);
    assert forall x :: x in SortDesc(rows, CreatedAt) <==> x in multiset(rows);
    SortDesc(rows, CreatedAt)
  }

  /** findByRecipientOrderByCreatedAtDesc, unpaged. */
  function FindByRecipientOrderByCreatedAtDesc(ms: seq<Message>, recipientId: int): (r: seq<Message>)
    ensures forall x :: x in r <==> x in ms && x.recipientId == recipientId
    ensures SortedDesc(r, CreatedAt)
  {
    var rows := FindByRecipient(ms, recipientId);
    assert forall x :: x in SortDesc(rows, CreatedAt) <==> x in multiset(rows);
    SortDesc(rows, CreatedAt)
  }

  /** The rows of findAllUserMessages before ordering. */
  function UserMessageRows(ms: seq<Message>, userId: int): (r: seq<Message>)
    ensures forall x :: x in r <==> x in ms && (x.senderId == userId || x.recipientId == userId)
  {
    Filter(ms, (x: Message) => x.senderId == userId || x.recipientId == userId)
  }

  /** findAllUserMessages: everything the user sent or received, newest first. */
  function FindAllUserMessages(ms: seq<Message>, userId: int): (r: seq<Message>)
    ensures forall x :: x in r <==> x in ms && (x.senderId == userId || x.recipientId == userId)
    ensures SortedDesc(r, CreatedAt)
  {
    var rows := UserMessageRows(ms, userId);
    assert forall x :: x in SortDesc(rows, CreatedAt) <==> x in multiset(rows);
    SortDesc(rows, CreatedAt)
  }

  /** Both directions of a two-person exchange. */
  predicate Between2(x: Message, user1: int, user2: int) {
    (x.senderId == user1 && x.recipientId == user2) || (x.senderId == user2 && x.recipientId == user1)
  }

  /** The rows of findConversation before ordering. */
  function ConversationRows(ms: seq<Message>, user1: int, user2: int): (r: seq<Message>)
    ensures forall x :: x in r <==> x in ms && Between2(x, user1, user2)
  {
    Filter(ms, (x: Message) => Between2(x, user1, user2))
  }

  /** findConversation: the messages between two users in either direction, newest first. */
  function FindConversation(ms: seq<Message>, user1: int, user2: int): (r: seq<Message>)
    ensures forall x :: x in r <==> x in ms && Between2(x, user1, user2)
    ensures SortedDesc(r, CreatedAt)
  {
    var rows := ConversationRows(ms, user1, user2);
    assert forall x :: x in SortDesc(rows, CreatedAt) <==> x in multiset(rows);
    SortDesc(rows, CreatedAt)
  }

  lemma {:induction false} ConversationRowsSymmetric(ms: seq<Message>, user1: int, user2: int)
    ensures ConversationRows(ms, user1, user2) == ConversationRows(ms, user2, user1)
  {
    if ms != [] {
      ConversationRowsSymmetric(ms[1..], user1, user2);
    }
  }

  /** The conversation of a with b is the conversation of b with a, in the same order. */
  lemma ConversationSymmetric(ms: seq<Message>, user1: int, user2: int)
    ensures FindConversation(ms, user1, user2) == FindConversation(ms, user2, user1)
  {
    ConversationRowsSymmetric(ms, user1, user2);
  }

  /** findByRecipientAndReadFalse. */
  function FindByRecipientAndReadFalse(ms: seq<Message>, recipientId: int): (r: seq<Message>)
    ensures forall x :: x in r <==> x in ms && x.recipientId == recipientId && !x.read
  {
    Filter(ms, (x: Message) => x.recipientId == recipientId && !x.read)
  }

  /** countUnreadMessages. */
  function CountUnreadMessages(ms: seq<Message>, userId: int): (n: nat)
    ensures n <= |ms|
  {
    CountWhere(ms, (x: Message) => x.recipientId == userId && !x.read)
  }

  /** The unread count is the length of the unread list. */
  lemma {:induction false} CountUnreadIsListSize(ms: seq<Message>, userId: int)
    ensures CountUnreadMessages(ms, userId) == |FindByRecipientAndReadFalse(ms, userId)|
  {
    if ms != [] {
      CountUnreadIsListSize(ms[1..], userId);
    }
  }
}
