/**
 * MessageService: private messages between users. Only the two parties
 * may read or delete a message, only its recipient may change its read
 * flag, and the time it was first read, once recorded, is kept.
 * Users are compared by id.
 */
module Messages {
  import opened Wrappers
  import opened Calendar
  import opened Seqs
  import opened Domain
  import opened Errors
  import opened MessageRepository
  import opened Database

  const ReadDeniedText: string := "Vous n'êtes pas autorisé à accéder à ce message"
  const StatusDeniedText: string := "Vous n'êtes pas autorisé à modifier le statut de ce message"
  const DeleteDeniedText: string := "Vous n'êtes pas autorisé à supprimer ce message"

  /** The CreateMessageRequest fields. */
  datatype CreateMessageRequest = CreateMessageRequest(recipientId: int, subject: string, content: string)

  /** getUserFromUserDetails of this service: a missing user is a NoSuchElementException. */
  function CurrentUser(users: seq<User>, caller: Principal): (r: Result<User, Exception>)
    ensures r.Success? <==> FindUserByUsername(users, caller.username).Some?
    ensures r.Success? ==> r.value in users && r.value.username == caller.username
    ensures r.Failure? ==> r.error == NoSuchElement(Some(UserNotFoundText))
  {
    var user := FindUserByUsername(users, caller.username);
    if user.None? then Failure(NoSuchElement(Some(UserNotFoundText))) else Success(user.value)
  }

  /** The user is the message's sender or its recipient. */
  predicate IsParty(m: Message, userId: int) {
    m.senderId == userId || m.recipientId == userId
  }

  /** getMessageById: the message is looked up first, then the caller, then the parties are checked. */
  function GetMessageById(users: seq<User>, ms: seq<Message>, id: int, caller: Principal): (r: Result<Message, Exception>)
    ensures !HasKey(ms, MessageId, id) ==> r == Failure(NoSuchElement(Some(WithId(MessageNotFoundText, id))))
    ensures HasKey(ms, MessageId, id) && CurrentUser(users, caller).Failure? ==> r == Failure(NoSuchElement(Some(UserNotFoundText)))
    ensures r.Success? <==>
              HasKey(ms, MessageId, id) && CurrentUser(users, caller).Success? &&
              IsParty(FindByKey(ms, MessageId, id).value, CurrentUser(users, caller).value.id)
    ensures r.Failure? && HasKey(ms, MessageId, id) && CurrentUser(users, caller).Success? ==>
              r.error == AccessDenied(Some(ReadDeniedText))
    ensures r.Success? ==> r.value in ms && r.value.id == id
  {
    var found := FindByKey(ms, MessageId, id);
    if found.None? then Failure(NoSuchElement(Some(WithId(MessageNotFoundText, id))))
    else
      var user := CurrentUser(users, caller);
      if user.Failure? then Failure(user.error)
      else if !IsParty(found.value, user.value.id) then Failure(AccessDenied(Some(ReadDeniedText)))
      else Success(found.value)
  }

  /** getReceivedMessages. */
  function GetReceivedMessages(users: seq<User>, ms: seq<Message>, caller: Principal): (r: Result<seq<Message>, Exception>)
    ensures r.Failure? <==> CurrentUser(users, caller).Failure?
    ensures r.Failure? ==> r.error == NoSuchElement(Some(UserNotFoundText))
    ensures r.Success? ==> forall x :: x in r.value <==> x in ms && x.recipientId == CurrentUser(users, caller).value.id
  {
    var user := CurrentUser(users, caller);
    if user.Failure? then Failure(user.error) else Success(FindByRecipient(ms, user.value.id))
  }

  /** getSentMessages. */
  function GetSentMessages(users: seq<User>, ms: seq<Message>, caller: Principal): (r: Result<seq<Message>, Exception>)
    ensures r.Failure? <==> CurrentUser(users, caller).Failure?
    ensures r.Failure? ==> r.error == NoSuchElement(Some(UserNotFoundText))
    ensures r.Success? ==> forall x :: x in r.value <==> x in ms && x.senderId == CurrentUser(users, caller).value.id
  {
    var user := CurrentUser(users, caller);
    if user.Failure? then Failure(user.error) else Success(FindBySender(ms, user.value.id))
  }

  /** getAllUserMessages: the caller's mailbox, newest first. */
  function GetAllUserMessages(users: seq<User>, ms: seq<Message>, caller: Principal): (r: Result<seq<Message>, Exception>)
    ensures r.Failure? <==> CurrentUser(users, caller).Failure?
    ensures r.Failure? ==> r.error == NoSuchElement(Some(UserNotFoundText))
    ensures r.Success? ==> forall x :: x in r.value <==> x in ms && IsParty(x, CurrentUser(users, caller).value.id)
    ensures r.Success? ==> SortedDesc(r.value, CreatedAt)
  {
    var user := CurrentUser(users, caller);
    if user.Failure? then Failure(user.error) else Success(FindAllUserMessages(ms, user.value.id))
  }

  /** The whole mailbox is exactly what the caller sent and what the caller received. */
  lemma MailboxIsSentAndReceived(users: seq<User>, ms: seq<Message>, caller: Principal, x: Message)
    requires CurrentUser(users, caller).Success?
    ensures x in GetAllUserMessages(users, ms, caller).value <==>
            x in GetSentMessages(users, ms, caller).value || x in GetReceivedMessages(users, ms, caller).value
  {
  }

  /** countUnreadMessages: the length of the caller's unread list. */
  function CountUnreadMessagesOf(users: seq<User>, ms: seq<Message>, caller: Principal): (r: Result<nat, Exception>)
    ensures r.Failure? <==> CurrentUser(users, caller).Failure?
    ensures r.Failure? ==> r.error == NoSuchElement(Some(UserNotFoundText))
    ensures r.Success? ==> r.value == |FindByRecipientAndReadFalse(ms, CurrentUser(users, caller).value.id)|
  {
    var user := CurrentUser(users, caller);
    if user.Failure? then Failure(user.error)
    else
      CountUnreadIsListSize(ms, user.value.id);
      Success(CountUnreadMessages(ms, user.value.id))
  }

  /** getConversation: the caller is looked up first, then the other user by id. */
  function GetConversation(users: seq<User>, ms: seq<Message>, otherUserId: int, caller: Principal): (r: Result<seq<Message>, Exception>)
    ensures CurrentUser(users, caller).Failure? ==> r.Failure? && r.error == NoSuchElement(Some(UserNotFoundText))
    ensures r.Success? <==> CurrentUser(users, caller).Success? && HasKey(users, UserId, otherUserId)
    ensures CurrentUser(users, caller).Success? && !HasKey(users, UserId, otherUserId) ==>
              r == Failure(NoSuchElement(Some(WithId(OtherUserNotFoundText, otherUserId))))
    ensures r.Success? ==>
              (forall x :: x in r.value <==> x in ms && Between2(x, CurrentUser(users, caller).value.id, otherUserId)) &&
              SortedDesc(r.value, CreatedAt)
  {
    var user := CurrentUser(users, caller);
    if user.Failure? then Failure(user.error)
    else if FindByKey(users, UserId, otherUserId).None? then
      Failure(NoSuchElement(Some(WithId(OtherUserNotFoundText, otherUserId))))
    else Success(FindConversation(ms, user.value.id, otherUserId))
  }

  /** Two users asking for their conversation with each other get the same list. */
  lemma ConversationSeenFromBothSides(users: seq<User>, ms: seq<Message>, a: Principal, b: Principal)
    requires CurrentUser(users, a).Success? && CurrentUser(users, b).Success?
    ensures GetConversation(users, ms, CurrentUser(users, b).value.id, a).Success?
    ensures GetConversation(users, ms, CurrentUser(users, b).value.id, a) ==
            GetConversation(users, ms, CurrentUser(users, a).value.id, b)
  {
    var ua, ub := CurrentUser(users, a).value, CurrentUser(users, b).value;
    assert HasKey(users, UserId, ua.id) && HasKey(users, UserId, ub.id);
    ConversationSymmetric(ms, ua.id, ub.id);
  }

  /** The message createMessage stores, or why it stores nothing. */
  function CreateMessageResult(users: seq<User>, ms: seq<Message>, request: CreateMessageRequest,
                               caller: Principal, now: Instant): (r: Result<Message, Exception>)
    ensures CurrentUser(users, caller).Failure? ==> r.Failure? && r.error == NoSuchElement(Some(UserNotFoundText))
    ensures CurrentUser(users, caller).Success? && !HasKey(users, UserId, request.recipientId) ==>
              r == Failure(NoSuchElement(Some(WithId(RecipientNotFoundText, request.recipientId))))
    ensures r.Success? <==> CurrentUser(users, caller).Success? && HasKey(users, UserId, request.recipientId)
    ensures r.Success? ==>
              r.value.id == NextKey(ms, MessageId) && !HasKey(ms, MessageId, r.value.id) &&
              r.value.senderId == CurrentUser(users, caller).value.id &&
              r.value.recipientId == request.recipientId &&
              r.value.subject == request.subject && r.value.content == request.content &&
              !r.value.read && r.value.readAt.None? && r.value.createdAt == now
  {
    var sender := CurrentUser(users, caller);
    if sender.Failure? then Failure(sender.error)
    else if FindByKey(users, UserId, request.recipientId).None? then
      Failure(NoSuchElement(Some(WithId(RecipientNotFoundText, request.recipientId))))
    else
      Success(Message(NextKey(ms, MessageId), sender.value.id, request.recipientId,
                      request.subject, request.content, false, None, now))
  }

  /**
   * setRead(read), then readAt := now only when marking read a message that
   * was never read: the flag follows the request, the first reading time is
   * kept through later changes, and nothing else changes.
   */
  function MarkRead(m: Message, read: bool, now: Instant): (r: Message)
    ensures r.read == read
    ensures m.readAt.Some? ==> r.readAt == m.readAt
    ensures m.readAt.None? ==> r.readAt == (if read then Some(now) else None)
    ensures r.read ==> r.readAt.Some?
    ensures r.(read := m.read, readAt := m.readAt) == m
  {
    var marked := m.(read := read);
    if read && m.readAt.None? then marked.(readAt := Some(now)) else marked
  }

  /** Sending the same status again changes nothing, whenever it is sent. */
  lemma MarkReadIdempotent(m: Message, read: bool, t1: Instant, t2: Instant)
    ensures MarkRead(MarkRead(m, read, t1), read, t2) == MarkRead(m, read, t1)
  {
  }

  /** One request of updateMessageStatus: the flag asked for and the moment it is handled. */
  datatype StatusUpdate = StatusUpdate(read: bool, at: Instant)

  /** The updates applied in order, the first one first. */
  function ApplyStatusUpdates(m: Message, updates: seq<StatusUpdate>): (r: Message)
    decreases |updates|
  {
    if updates == [] then m
    else ApplyStatusUpdates(MarkRead(m, updates[0].read, updates[0].at), updates[1..])
  }

  /** The moment of the first update that marks the message read. */
  function FirstReadTime(updates: seq<StatusUpdate>): (t: Option<Instant>)
    ensures t.Some? <==> exists i :: 0 <= i < |updates| && updates[i].read
  {
    if updates == [] then None
    else if updates[0].read then Some(updates[0].at)
    else
      var rest := FirstReadTime(updates[1..]);
      assert forall i :: 1 <= i < |updates| ==> updates[i] == updates[1..][i - 1];
      rest
  }

  /**
   * Over any series of status changes, readAt is the time of the first
   * change to read (or the time already recorded), the flag is the last one
   * requested, and the rest of the message is untouched.
   */
  lemma {:induction false} ReadAtIsFirstReadTime(m: Message, updates: seq<StatusUpdate>)
    ensures ApplyStatusUpdates(m, updates).readAt == if m.readAt.Some? then m.readAt else FirstReadTime(updates)
    ensures ApplyStatusUpdates(m, updates).read == if updates == [] then m.read else updates[|updates| - 1].read
    ensures ApplyStatusUpdates(m, updates).(read := m.read, readAt := m.readAt) == m
    decreases |updates|
  {
    if updates != [] {
      var next := MarkRead(m, updates[0].read, updates[0].at);
      ReadAtIsFirstReadTime(next, updates[1..]);
      if |updates| > 1 {
        assert updates[1..][|updates[1..]| - 1] == updates[|updates| - 1];
      }
    }
  }

  /** The status change updateMessageStatus saves, or why it saves nothing: only the recipient may. */
  function UpdateMessageStatusResult(users: seq<User>, ms: seq<Message>, id: int, read: bool,
                                     caller: Principal, now: Instant): (r: Result<Message, Exception>)
    ensures !HasKey(ms, MessageId, id) ==> r == Failure(NoSuchElement(Some(WithId(MessageNotFoundText, id))))
    ensures HasKey(ms, MessageId, id) && CurrentUser(users, caller).Failure? ==> r == Failure(NoSuchElement(Some(UserNotFoundText)))
    ensures r.Success? <==>
              HasKey(ms, MessageId, id) && CurrentUser(users, caller).Success? &&
              FindByKey(ms, MessageId, id).value.recipientId == CurrentUser(users, caller).value.id
    ensures r.Failure? && HasKey(ms, MessageId, id) && CurrentUser(users, caller).Success? ==>
              r.error == AccessDenied(Some(StatusDeniedText))
    ensures r.Success? ==> r.value == MarkRead(FindByKey(ms, MessageId, id).value, read, now)
  {
    var found := FindByKey(ms, MessageId, id);
    if found.None? then Failure(NoSuchElement(Some(WithId(MessageNotFoundText, id))))
    else
      var user := CurrentUser(users, caller);
      if user.Failure? then Failure(user.error)
      else if found.value.recipientId != user.value.id then Failure(AccessDenied(Some(StatusDeniedText)))
      else Success(MarkRead(found.value, read, now))
  }

  /** The sender of a message who is not also its recipient cannot mark it read, although the sender may read it. */
  lemma SenderCannotChangeStatus(users: seq<User>, ms: seq<Message>, m: Message, read: bool, caller: Principal, now: Instant)
    requires UniqueKeys(ms, MessageId) && m in ms
    requires CurrentUser(users, caller).Success?
    requires m.senderId == CurrentUser(users, caller).value.id && m.recipientId != m.senderId
    ensures GetMessageById(users, ms, m.id, caller) == Success(m)
    ensures UpdateMessageStatusResult(users, ms, m.id, read, caller, now) == Failure(AccessDenied(Some(StatusDeniedText)))
  {
    FindByKeyUnique(ms, MessageId, m);
  }

  /** After its recipient marks a message read it is off the recipient's unread list. */
  lemma MarkedReadLeavesUnreadList(users: seq<User>, ms: seq<Message>, id: int, caller: Principal, now: Instant)
    requires UpdateMessageStatusResult(users, ms, id, true, caller, now).Success?
    ensures var after := ReplaceByKey(ms, MessageId, UpdateMessageStatusResult(users, ms, id, true, caller, now).value);
            forall x :: x in FindByRecipientAndReadFalse(after, CurrentUser(users, caller).value.id) ==> x.id != id
  {
    ReplaceMembers(ms, MessageId, UpdateMessageStatusResult(users, ms, id, true, caller, now).value);
  }

  /** Why deleteMessage deletes nothing, if it does not: only a party to the message may. */
  function DeleteMessageCheck(users: seq<User>, ms: seq<Message>, id: int, caller: Principal): (err: Option<Exception>)
    ensures !HasKey(ms, MessageId, id) ==> err == Some(NoSuchElement(Some(WithId(MessageNotFoundText, id))))
    ensures HasKey(ms, MessageId, id) && CurrentUser(users, caller).Failure? ==> err == Some(NoSuchElement(Some(UserNotFoundText)))
    ensures err.None? <==>
              HasKey(ms, MessageId, id) && CurrentUser(users, caller).Success? &&
              IsParty(FindByKey(ms, MessageId, id).value, CurrentUser(users, caller).value.id)
    ensures err.Some? && HasKey(ms, MessageId, id) && CurrentUser(users, caller).Success? ==>
              err.value == AccessDenied(Some(DeleteDeniedText))
  {
    var found := FindByKey(ms, MessageId, id);
    if found.None? then Some(NoSuchElement(Some(WithId(MessageNotFoundText, id))))
    else
      var user := CurrentUser(users, caller);
      if user.Failure? then Some(user.error)
      else if !IsParty(found.value, user.value.id) then Some(AccessDenied(Some(DeleteDeniedText)))
      else None
  }

  /** Whoever may read a message may delete it, and the other way round. */
  lemma DeleteAllowedIffReadAllowed(users: seq<User>, ms: seq<Message>, id: int, caller: Principal)
    ensures DeleteMessageCheck(users, ms, id, caller).None? <==> GetMessageById(users, ms, id, caller).Success?
  {
  }

  /** After deleteMessage the message is gone and every other message reads as before. */
  lemma DeleteMessageReadsBack(users: seq<User>, ms: seq<Message>, id: int, other: int, caller: Principal)
    requires UniqueKeys(ms, MessageId)
    ensures GetMessageById(users, RemoveByKey(ms, MessageId, id), id, caller) ==
            Failure(NoSuchElement(Some(WithId(MessageNotFoundText, id))))
    ensures other != id ==>
            GetMessageById(users, RemoveByKey(ms, MessageId, id), other, caller) == GetMessageById(users, ms, other, caller)
  {
    RemoveFind(ms, MessageId, id, other);
  }

  class MessageService {
    const db: HotelDatabase

    constructor (db: HotelDatabase)
      ensures this.db == db
    {
      this.db := db;
    }

    /** createMessage: stores an unread message from the caller. */
    method CreateMessage(request: CreateMessageRequest, caller: Principal, now: Instant) returns (r: Result<Message, Exception>)
      requires db.Valid()
      modifies db`messages
      ensures db.Valid()
      ensures r == CreateMessageResult(db.users, old(db.messages), request, caller, now)
      ensures db.messages == if r.Success? then old(db.messages) + [r.value] else old(db.messages)
    {
      r := CreateMessageResult(db.users, db.messages, request, caller, now);
      if r.Failure? {
        return;
      }
      AppendFreshKeepsKeys(db.messages, MessageId, r.value);
      db.messages := db.messages + [r.value];
    }

    /** updateMessageStatus: the recipient sets the read flag. */
    method UpdateMessageStatus(id: int, read: bool, caller: Principal, now: Instant) returns (r: Result<Message, Exception>)
      requires db.Valid()
      modifies db`messages
      ensures db.Valid()
      ensures r == UpdateMessageStatusResult(db.users, old(db.messages), id, read, caller, now)
      ensures db.messages == if r.Success? then ReplaceByKey(old(db.messages), MessageId, r.value) else old(db.messages)
    {
      var found := FindByKey(db.messages, MessageId, id);
      if found.None? {
        return Failure(NoSuchElement(Some(WithId(MessageNotFoundText, id))));
      }
      var user := CurrentUser(db.users, caller);
      if user.Failure? {
        return Failure(user.error);
      }
      if found.value.recipientId != user.value.id {
        return Failure(AccessDenied(Some(StatusDeniedText)));
      }
      var message := found.value.(read := read);
      if read && message.readAt.None? {
        message := message.(readAt := Some(now));
      }
      SaveMessage(message);
      r := Success(message);
    }

    /** messageRepository.save of a stored message. */
    method SaveMessage(message: Message)
      requires db.Valid() && HasKey(db.messages, MessageId, message.id)
      requires message.read ==> message.readAt.Some?
      modifies db`messages
      ensures db.Valid()
      ensures db.messages == ReplaceByKey(old(db.messages), MessageId, message)
    {
      ReplaceKeepsKeys(db.messages, MessageId, message);
      ReplaceMembers(db.messages, MessageId, message);
      db.messages := ReplaceByKey(db.messages, MessageId, message);
    }

    /** deleteMessage: a party to the message removes it. */
    method DeleteMessage(id: int, caller: Principal) returns (err: Option<Exception>)
      requires db.Valid()
      modifies db`messages
      ensures db.Valid()
      ensures err == DeleteMessageCheck(db.users, old(db.messages), id, caller)
      ensures db.messages == if err.None? then RemoveByKey(old(db.messages), MessageId, id) else old(db.messages)
    {
      err := DeleteMessageCheck(db.users, db.messages, id, caller);
      if err.Some? {
        return;
      }
      RemoveKeepsKeys(db.messages, MessageId, id);
      db.messages := RemoveByKey(db.messages, MessageId, id);
    }
  }
}
