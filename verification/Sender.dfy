/** The durable, idempotent send: one transaction over the tables it reads and writes. */
module Sender {
  import opened Options
  import opened Utf16
  import opened Mentions
  import opened GoMentions

  type Id = nat

  const NIL: Id := 0
  const FIRST_SEQUENCE := 1

  datatype Error =
    | InvalidMessage
    | InvalidMention
    | InvalidReply
    | ConversationNotFound
    | ClientMessageIDConflict
    | MessageExpired
    | Unavailable
    | Persistence

  datatype Kind = User | System

  datatype Message = Message(
    id: Id,
    conversation: Id,
    sender: Id,
    clientID: seq<Scalar>,
    sequence: int,
    body: seq<Scalar>,
    mentions: seq<Mention<Id>>,
    contentType: string,
    kind: Kind,
    replyTo: Option<Id>,
    expiresAt: Option<int>)

  datatype Member = Member(conversation: Id, user: Id, active: bool, visibleFrom: int)

  /** The tables: each conversation's next sequence, memberships, retention periods and messages in insertion order. */
  datatype Database = Database(
    nextSequence: map<Id, int>,
    members: seq<Member>,
    retention: map<Id, string>,
    messages: seq<Message>)

  datatype Request = Request(
    sender: Id,
    conversation: Id,
    clientID: seq<Scalar>,
    body: seq<Scalar>,
    contentType: string,
    mentions: seq<Mention<Id>>,
    replyTo: Option<Id>)

  datatype Outcome = Accepted(message: Message, recipients: seq<Id>, created: bool) | Rejected(error: Error)

  /** What can go wrong outside the logic; `CommitLost` commits although an error is reported. */
  datatype Fault =
    | Begin | Lookup | FindStored | DecryptBody | ReadRecipients | CheckReply | TakeSequence | EncryptBody
    | InsertMessage | CountMembers | EncryptMentions | StoreMentions | Fanout | Commit | CommitLost

  /** Everything an attempt depends on besides the request and the tables. */
  datatype World = World(now: int, newID: Id, faults: set<Fault>, isSpace: Scalar -> bool)

  // ----- Validation -----------------------------------------------------------------------------

  function Utf8Width(r: Scalar): nat { if r < 0x80 then 1 else if r < 0x800 then 2 else if r < 0x1_0000 then 3 else 4 }

  function Utf8Length(s: seq<Scalar>): nat {
    if s == [] then 0 else Utf8Length(s[..|s| - 1]) + Utf8Width(s[|s| - 1])
  }

  predicate NotNil(user: Id) { user != NIL }

  predicate OffsetsFit(r: Request, isSpace: Scalar -> bool) {
    forall i :: 0 <= i < |r.mentions| ==>
        r.mentions[i].start >= Shift(r.body, isSpace) && r.mentions[i].end >= Shift(r.body, isSpace)
  }

  /** The request as it is stored: trimmed, with its spans moved along. */
  function Prepared(r: Request, isSpace: Scalar -> bool): Request {
    r.(mentions := Shifted(r.mentions, Shift(r.body, isSpace)), clientID := TrimSpace(r.clientID, isSpace),
        body := TrimSpace(r.body, isSpace))
  }

  function Problem(r: Request, isSpace: Scalar -> bool): Option<Error> {
    if !OffsetsFit(r, isSpace) then Some(InvalidMention) else PreparedProblem(Prepared(r, isSpace))
  }

  function PreparedProblem(p: Request): Option<Error> {
    if p.contentType != "text" then Some(InvalidMessage)
    else if p.sender == NIL || p.conversation == NIL || p.clientID == [] || Utf8Length(p.clientID) > 128 ||
        p.body == [] || Utf8Length(p.body) > 4096
    then Some(InvalidMessage)
    else if !ValidMentions(Encode(p.body), p.mentions, NotNil) then Some(InvalidMention)
    else None
  }

  // ----- Queries --------------------------------------------------------------------------------

  predicate IsMember(members: seq<Member>, conversation: Id, user: Id) {
    exists m <- members :: m.conversation == conversation && m.user == user && m.active
  }

  /** The conversation is there, the sender is an active member of it and has a retention period. */
  predicate MayWrite(db: Database, p: Request) {
    p.conversation in db.nextSequence && IsMember(db.members, p.conversation, p.sender) && p.sender in db.retention
  }

  function Find(messages: seq<Message>, sender: Id, clientID: seq<Scalar>): (i: nat)
    ensures i <= |messages|
    ensures i < |messages| ==> messages[i].sender == sender && messages[i].clientID == clientID
    ensures forall k :: 0 <= k < i ==> !(messages[k].sender == sender && messages[k].clientID == clientID)
  {
    if messages == [] || (messages[0].sender == sender && messages[0].clientID == clientID) then 0
    else 1 + Find(messages[1..], sender, clientID)
  }

  predicate Expired(expiresAt: Option<int>, now: int) { expiresAt.Some? && expiresAt.value <= now }

  predicate ReplyIsVisible(db: Database, p: Request, target: Id, now: int) {
    exists m <- db.messages, member <- db.members ::
      && m.id == target && m.conversation == p.conversation && m.kind == User && !Expired(m.expiresAt, now)
      && member.conversation == m.conversation && member.user == p.sender && member.active &&
           m.sequence >= member.visibleFrom
  }

  function Recipients(members: seq<Member>, conversation: Id, sender: Id): seq<Id> {
    if members == [] then []
    else
      var m := members[|members| - 1];
      var front := Recipients(members[..|members| - 1], conversation, sender);
      if m.conversation == conversation && m.active && m.user != sender then front + [m.user] else front
  }

  /** How many active membership rows of the conversation name one of the users. */
  function Authorized(members: seq<Member>, conversation: Id, ids: seq<Id>): nat {
    if members == [] then 0
    else
      var m := members[|members| - 1];
      Authorized(members[..|members| - 1], conversation, ids) +
          (if m.conversation == conversation && m.active && m.user in ids then 1 else 0)
  }

  const DAY := 24 * 60 * 60

  /** None for an unknown period. */
  function Expiry(period: string, now: int): Option<Option<int>> {
    if period == "forever" then Some(None)
    else if period == "30d" then Some(Some(now + 30 * DAY))
    else if period == "90d" then Some(Some(now + 90 * DAY))
    else if period == "1y" then Some(Some(now + 365 * DAY))
    else None
  }

  /** The unique constraints of the messages table. */
  predicate Insertable(messages: seq<Message>, m: Message) {
    forall i :: 0 <= i < |messages| ==>
      && messages[i].id != m.id
      && !(messages[i].conversation == m.conversation && messages[i].sequence == m.sequence)
      && !(messages[i].sender == m.sender && messages[i].clientID == m.clientID)
  }

  // ----- One attempt ----------------------------------------------------------------------------

  /** The answer to a request whose sender and client ID are already stored. */
  function Replay(db: Database, p: Request, stored: Message, w: World): Outcome {
    if stored.conversation != p.conversation || stored.replyTo != p.replyTo then Rejected(ClientMessageIDConflict)
    else if Expired(stored.expiresAt, w.now) then Rejected(MessageExpired)
    else if (DecryptBody in w.faults || ReadRecipients in w.faults || Commit in w.faults || CommitLost in w.faults)
      then Rejected(Persistence)
    else Accepted(stored, Recipients(db.members, p.conversation, p.sender), false)
  }

  /** The row a request becomes, once it has its sequence. */
  function Row(p: Request, id: Id, sequence: int, expiresAt: Option<int>): Message {
    Message(id, p.conversation, p.sender, p.clientID, sequence, p.body, p.mentions, p.contentType, User, p.replyTo,
        expiresAt)
  }

  /** Why a request that is not stored yet is turned down, in the order the transaction finds out. */
  function Obstacle(db: Database, p: Request, w: World): Option<Error>
    requires p.conversation in db.nextSequence && p.sender in db.retention
  {
    var expiry := Expiry(db.retention[p.sender], w.now);
    if p.replyTo.Some? && CheckReply in w.faults then Some(Persistence)
    else if p.replyTo.Some? && !ReplyIsVisible(db, p, p.replyTo.value, w.now) then Some(InvalidReply)
    else if (TakeSequence in w.faults || EncryptBody in w.faults) || expiry.None? || InsertMessage in w.faults
      then Some(Persistence)
    else if !Insertable(db.messages, Row(p, w.newID, db.nextSequence[p.conversation], None)) then Some(Persistence)
    else if p.mentions != [] && p.sender in FirstSeen(p.mentions) then Some(InvalidMention)
    else if p.mentions != [] && CountMembers in w.faults then Some(Persistence)
    else if p.mentions != [] && Authorized(db.members, p.conversation,
        FirstSeen(p.mentions)) != |FirstSeen(p.mentions)| then Some(InvalidMention)
    else if p.mentions != [] && (EncryptMentions in w.faults || StoreMentions in w.faults) then Some(Persistence)
    else if (ReadRecipients in w.faults || Fanout in w.faults || Commit in w.faults) then Some(Persistence)
    else None
  }

  function NewMessage(db: Database, p: Request, w: World): Message
    requires p.conversation in db.nextSequence && p.sender in db.retention
    requires Expiry(db.retention[p.sender], w.now).Some?
  {
    Row(p, w.newID, db.nextSequence[p.conversation], Expiry(db.retention[p.sender], w.now).value)
  }

  function WithMessage(db: Database, m: Message): Database
    requires m.conversation in db.nextSequence
  {
    db.(nextSequence := db.nextSequence[m.conversation := db.nextSequence[m.conversation] + 1],
        messages := db.messages + [m])
  }

  function Attempt(db: Database, r: Request, w: World): (Database, Outcome) {
    var p := Prepared(r, w.isSpace);
    if Problem(r, w.isSpace).Some? then (db, Rejected(Problem(r, w.isSpace).value))
    else if Begin in w.faults then (db, Rejected(Unavailable))
    else if Lookup in w.faults then (db, Rejected(Persistence))
    else if !MayWrite(db, p) then (db, Rejected(ConversationNotFound))
    else if FindStored in w.faults then (db, Rejected(Persistence))
    else if Find(db.messages, p.sender, p.clientID) < |db.messages| then
      (db, Replay(db, p, db.messages[Find(db.messages, p.sender, p.clientID)], w))
    else if Obstacle(db, p, w).Some? then (db, Rejected(Obstacle(db, p, w).value))
    else
      var m := NewMessage(db, p, w);
      (WithMessage(db, m), if CommitLost in w.faults then Rejected(Persistence)
          else Accepted(m, Recipients(db.members, p.conversation, p.sender), true))
  }

  // ----- The sender -----------------------------------------------------------------------------

  method RecipientIDs(members: seq<Member>, senderID: Id, conversationID: Id) returns (recipients: seq<Id>)
    ensures recipients == Recipients(members, conversationID, senderID)
  {
    recipients := [];
    var i := 0;
    while i < |members|
      invariant 0 <= i <= |members|
      invariant recipients == Recipients(members[..i], conversationID, senderID)
    {
      assert members[..i + 1][..i] == members[..i];
      var m := members[i];
      if m.conversation == conversationID && m.active && m.user != senderID { recipients := recipients + [m.user]; }
      i := i + 1;
    }
    assert members[..i] == members;
  }

  /** The checks before the transaction; on success, the request as it will be stored. */
  method Prepare(request: Request, isSpace: Scalar -> bool) returns (problem: Option<Error>, p: Request)
    ensures problem == Problem(request, isSpace)
    ensures problem.None? ==> p == Prepared(request, isSpace)
  {
    p := request;
    var normalized := NormalizeMentionOffsets(request.body, request.mentions, isSpace);
    assert normalized.Moved? <==> OffsetsFit(request, isSpace);
    if normalized.Stale? { return Some(InvalidMention), p; }
    p := request.(mentions := normalized.mentions, clientID := TrimSpace(request.clientID, isSpace),
        body := TrimSpace(request.body, isSpace));
    if p.contentType != "text" { return Some(InvalidMessage), p; }
    if p.sender == NIL || p.conversation == NIL || p.clientID == [] || Utf8Length(p.clientID) > 128 || p.body == [] ||
        Utf8Length(p.body) > 4096 {
      return Some(InvalidMessage), p;
    }
    var valid := ValidateMentions(p.body, p.mentions, NotNil);
    problem := if valid then None else Some(InvalidMention);
  }

  /** The body of the transaction that stores a new message, on the transaction's own copy of the tables. */
  method Store(db: Database, p: Request, w: World) returns (tx: Database, obstacle: Option<Error>, result: Message)
    requires p.conversation in db.nextSequence && p.sender in db.retention
    ensures obstacle == Obstacle(db, p, w)
    ensures obstacle.None? ==>
            Expiry(db.retention[p.sender], w.now).Some? && result == NewMessage(db, p, w) &&
                tx == WithMessage(db, result)
  {
    tx := db;
    var sequence := db.nextSequence[p.conversation];
    result := Row(p, w.newID, sequence, None).(mentions := []);
    if p.replyTo.Some? {
      if CheckReply in w.faults { return tx, Some(Persistence), result; }
      if !ReplyIsVisible(tx, p, p.replyTo.value, w.now) { return tx, Some(InvalidReply), result; }
    }
    if TakeSequence in w.faults { return tx, Some(Persistence), result; }
    tx := tx.(nextSequence := tx.nextSequence[p.conversation := sequence + 1]);
    if EncryptBody in w.faults { return tx, Some(Persistence), result; }
    var expiry := Expiry(tx.retention[p.sender], w.now);
    if expiry.None? { return tx, Some(Persistence), result; }
    result := result.(expiresAt := expiry.value);
    if InsertMessage in w.faults || !Insertable(tx.messages, result) { return tx, Some(Persistence), result; }
    tx := tx.(messages := tx.messages + [result]);
    if |p.mentions| > 0 {
      var ids := MentionUserIDs(p.mentions);
      if p.sender in ids { return tx, Some(InvalidMention), result; }
      if CountMembers in w.faults { return tx, Some(Persistence), result; }
      if Authorized(tx.members, p.conversation, ids) != |ids| { return tx, Some(InvalidMention), result; }
      if EncryptMentions in w.faults || StoreMentions in w.faults { return tx, Some(Persistence), result; }
      result := result.(mentions := p.mentions);
      tx := tx.(messages := tx.messages[|tx.messages| - 1 := result]);
    }
    if ReadRecipients in w.faults || Fanout in w.faults || Commit in w.faults { return tx, Some(Persistence), result; }
    obstacle := None;
  }

  class MessageSender {
    var db: Database

    constructor (initial: Database)
      ensures db == initial
    {
      db := initial;
    }

    /** Nothing reaches `db` before the commit. */
    method Send(request: Request, w: World) returns (outcome: Outcome)
      modifies this
      ensures (db, outcome) == Attempt(old(db), request, w)
      ensures !(outcome.Accepted? && outcome.created) && CommitLost !in w.faults ==> db == old(db)
    {
      var problem, p := Prepare(request, w.isSpace);
      if problem.Some? { return Rejected(problem.value); }
      if Begin in w.faults { return Rejected(Unavailable); }
      if Lookup in w.faults { return Rejected(Persistence); }
      if !MayWrite(db, p) { return Rejected(ConversationNotFound); }
      if FindStored in w.faults { return Rejected(Persistence); }
      var at := Find(db.messages, p.sender, p.clientID);
      if at < |db.messages| {
        var stored := db.messages[at];
        if stored.conversation != p.conversation { return Rejected(ClientMessageIDConflict); }
        if stored.replyTo != p.replyTo { return Rejected(ClientMessageIDConflict); }
        if Expired(stored.expiresAt, w.now) { return Rejected(MessageExpired); }
        if DecryptBody in w.faults || ReadRecipients in w.faults || Commit in w.faults || CommitLost in w.faults {
          return Rejected(Persistence);
        }
        var recipients := RecipientIDs(db.members, p.sender, p.conversation);
        return Accepted(stored, recipients, false);
      }
      var tx, obstacle, result := Store(db, p, w);
      if obstacle.Some? { return Rejected(obstacle.value); }
      var recipients := RecipientIDs(tx.members, p.sender, p.conversation);
      db := tx;
      if CommitLost in w.faults { return Rejected(Persistence); }
      outcome := Accepted(result, recipients, true);
    }
  }
}
