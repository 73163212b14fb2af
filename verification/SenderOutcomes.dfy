/** Who may send what, and what the answer is: every outcome of one attempt, and exactly when it comes about. */
module SenderOutcomes {
  import opened Options
  import opened Utf16
  import opened Mentions
  import opened TextCuts
  import opened GoMentions
  import opened Sender
  import opened SenderRuns
  import opened Utf8

  // ----- The request ----------------------------------------------------------------------------

  /** A text of at least one and at most `limit` bytes of UTF-8 once the white space around it is gone. */
  predicate FitsTrimmed(s: seq<Scalar>, isSpace: Scalar -> bool, limit: nat) {
    TrimSpace(s, isSpace) != [] && |EncodeUtf8(TrimSpace(s, isSpace))| <= limit
  }

  /** A mention of somebody that begins with an '@', covers more than that, and splits no pair of surrogates. */
  predicate Covers(text: Text, m: Mention<Id>) {
    && m.user != NIL
    && 0 <= m.start < m.end - 1 && m.end <= |text| && text[m.start] == AT
    && (m.start > 0 ==> !(IsHigh(text[m.start - 1]) && IsLow(text[m.start])))
    && (m.end < |text| ==> !(IsHigh(text[m.end - 1]) && IsLow(text[m.end])))
  }

  /** At most 16 of them, one after the other. */
  predicate CoverInOrder(text: Text, mentions: seq<Mention<Id>>) {
    && |mentions| <= 16
    && (forall i :: 0 <= i < |mentions| ==> Covers(text, mentions[i]))
    && (forall i, j :: 0 <= i < j < |mentions| ==> mentions[i].end <= mentions[j].start)
  }

  /** The mentions are valid in the body as submitted, and none reaches into the white space that goes. */
  ghost predicate MentionsFit(r: Request, isSpace: Scalar -> bool) {
    var shift, length := Shift(r.body, isSpace), |Encode(TrimSpace(r.body, isSpace))|;
    && CoverInOrder(Encode(r.body), r.mentions)
    && forall m <- r.mentions :: shift <= m.start && m.end <= shift + length
  }

  lemma CoversMeans(text: Text, mentions: seq<Mention<Id>>)
    ensures CoverInOrder(text, mentions) <==> ValidMentions(text, mentions, NotNil)
  {
  }

  predicate FieldsFit(r: Request, isSpace: Scalar -> bool) {
    && r.contentType == "text" && r.sender != NIL && r.conversation != NIL
    && FitsTrimmed(r.clientID, isSpace, 128) && FitsTrimmed(r.body, isSpace, 4096)
  }

  /** A request is turned down before the transaction exactly when a field or a mention does not fit. */
  lemma SoundExactly(r: Request, isSpace: Scalar -> bool)
    ensures Problem(r, isSpace).None? <==> FieldsFit(r, isSpace) && MentionsFit(r, isSpace)
    ensures Problem(r, isSpace) == Some(InvalidMessage) ==> !FieldsFit(r, isSpace)
    ensures Problem(r, isSpace) == Some(InvalidMention) ==> !MentionsFit(r, isSpace)
    ensures Problem(r, isSpace).Some? ==> Problem(r, isSpace).value in {InvalidMessage, InvalidMention}
  {
    TrimCommutes(r.body, r.mentions, isSpace, NotNil);
    CoversMeans(Encode(r.body), r.mentions);
    LengthInBytes(TrimSpace(r.clientID, isSpace));
    LengthInBytes(TrimSpace(r.body, isSpace));
    FitsExactly(r, isSpace);
  }

  lemma FitsExactly(r: Request, isSpace: Scalar -> bool)
    ensures OffsetsFit(r, isSpace) <==>
            forall m <- r.mentions :: m.start >= Shift(r.body, isSpace) && m.end >= Shift(r.body, isSpace)
  {
  }

  // ----- Membership -----------------------------------------------------------------------------

  predicate RowOf(m: Member, conversation: Id, user: Id) {
    m.conversation == conversation && m.user == user && m.active
  }

  predicate ActiveIn(members: seq<Member>, conversation: Id, user: Id) {
    exists j :: 0 <= j < |members| && RowOf(members[j], conversation, user)
  }

  lemma ActiveMeans(members: seq<Member>, conversation: Id, user: Id)
    ensures ActiveIn(members, conversation, user) <==> IsMember(members, conversation, user)
  {
    if IsMember(members, conversation, user) {
      var m :| m in members && RowOf(m, conversation, user);
      var j :| 0 <= j < |members| && members[j] == m;
    }
  }

  /** The sender is an active member of a conversation that exists, and has a retention period. */
  predicate Belongs(db: Database, conversation: Id, sender: Id) {
    conversation in db.nextSequence && sender in db.retention && ActiveIn(db.members, conversation, sender)
  }

  lemma BelongsMayWrite(db: Database, p: Request)
    ensures MayWrite(db, p) <==> Belongs(db, p.conversation, p.sender)
  {
    ActiveMeans(db.members, p.conversation, p.sender);
  }

  /** Only members send: whatever is accepted, new or again, and whatever changes a table. */
  lemma OnlyMembersSend(db: Database, r: Request, w: World)
    ensures var (t, outcome) := Attempt(db, r, w);
            outcome.Accepted? || t != db ==> Belongs(db, r.conversation, r.sender)
  {
    BelongsMayWrite(db, Prepared(r, w.isSpace));
  }

  /** The conversation is not found exactly by those who do not belong to it, if the check is made at all. */
  lemma NotFoundExactly(db: Database, r: Request, w: World)
    ensures Attempt(db, r, w).1 == Rejected(ConversationNotFound) <==>
            && FieldsFit(r, w.isSpace) && MentionsFit(r, w.isSpace) && Begin !in w.faults && Lookup !in w.faults
            && !Belongs(db, r.conversation, r.sender)
  {
    BelongsMayWrite(db, Prepared(r, w.isSpace));
    SoundExactly(r, w.isSpace);
  }

  /** None of the steps fails. */
  predicate Spared(faults: set<Fault>, steps: set<Fault>) { forall f <- steps :: f !in faults }

  /** Nothing keeps the transaction from looking for a message already stored. */
  ghost predicate Reaches(db: Database, r: Request, w: World) {
    && FieldsFit(r, w.isSpace) && MentionsFit(r, w.isSpace) && Belongs(db, r.conversation, r.sender)
    && Spared(w.faults, {Begin, Lookup, FindStored})
  }

  /** A message of the sender has the request's client ID. */
  predicate IsStored(db: Database, r: Request, isSpace: Scalar -> bool) {
    exists i :: 0 <= i < |db.messages| && db.messages[i].sender == r.sender &&
      db.messages[i].clientID == TrimSpace(r.clientID, isSpace)
  }

  // ----- A request that is stored already -------------------------------------------------------

  /** The stored message is in the request's conversation and replies to what the request does. */
  predicate SameTarget(r: Request, m: Message) { m.conversation == r.conversation && m.replyTo == r.replyTo }

  predicate Outlived(m: Message, now: int) { m.expiresAt.Some? && m.expiresAt.value <= now }

  /**
   * The answer to a request that is stored: the message, once more and unchanged, exactly when the request goes
   * to the same conversation and target, it has not expired and nothing fails.
   */
  lemma AnsweredAgainExactly(db: Database, r: Request, w: World, m: Message)
    requires Idempotent(db.messages) && Reaches(db, r, w) && m in db.messages
    requires m.sender == r.sender && m.clientID == TrimSpace(r.clientID, w.isSpace)
    ensures var (t, outcome) := Attempt(db, r, w);
            && t == db
            && (outcome == Rejected(ClientMessageIDConflict) <==> !SameTarget(r, m))
            && (outcome == Rejected(MessageExpired) <==> SameTarget(r, m) && Outlived(m, w.now))
            && (outcome.Accepted? <==>
                  SameTarget(r, m) && !Outlived(m, w.now) &&
                      Spared(w.faults, {DecryptBody, ReadRecipients, Commit, CommitLost}))
            && (outcome.Accepted? ==> outcome.message == m && !outcome.created)
  {
    var k :| 0 <= k < |db.messages| && db.messages[k] == m;
    BelongsMayWrite(db, Prepared(r, w.isSpace));
    SoundExactly(r, w.isSpace);
    FindsIt(db.messages, k);
  }

  // ----- A new message --------------------------------------------------------------------------

  /** The message replied to is one a user wrote in this conversation, not expired, and since the sender can see it. */
  predicate CanSeeTarget(db: Database, r: Request, now: int)
    requires r.replyTo.Some?
  {
    exists i, j :: 0 <= i < |db.messages| && 0 <= j < |db.members| &&
      Visible(db.messages[i], db.members[j], r, now)
  }

  predicate Visible(m: Message, member: Member, r: Request, now: int)
    requires r.replyTo.Some?
  {
    && m.id == r.replyTo.value && m.conversation == r.conversation && m.kind == User && !Outlived(m, now)
    && member.conversation == r.conversation && member.user == r.sender && member.active
    && member.visibleFrom <= m.sequence
  }

  lemma SeesTarget(db: Database, r: Request, w: World)
    requires r.replyTo.Some?
    ensures ReplyIsVisible(db, Prepared(r, w.isSpace), r.replyTo.value, w.now) <==> CanSeeTarget(db, r, w.now)
  {
    if ReplyIsVisible(db, Prepared(r, w.isSpace), r.replyTo.value, w.now) {
      var m, member :| m in db.messages && member in db.members && Visible(m, member, r, w.now);
      var i :| 0 <= i < |db.messages| && db.messages[i] == m;
      var j :| 0 <= j < |db.members| && db.members[j] == member;
    }
  }

  /** Whom a message may mention: active members of the conversation, and not its sender. */
  predicate MayMention(db: Database, r: Request, user: Id) {
    user != r.sender && ActiveIn(db.members, r.conversation, user)
  }

  /** What must not fail for the message to be stored, besides the lookups. */
  function Steps(r: Request): set<Fault> {
    {TakeSequence, EncryptBody, InsertMessage, ReadRecipients, Fanout, Commit} +
    (if r.replyTo.Some? then {CheckReply} else {}) +
    (if r.mentions != [] then {CountMembers, EncryptMentions, StoreMentions} else {})
  }

  /** What it refers to is there for the sender, it can be kept, its ID is new, and no step fails. */
  predicate Clear(db: Database, r: Request, w: World)
    requires r.sender in db.retention
  {
    && (r.replyTo.Some? ==> CanSeeTarget(db, r, w.now))
    && db.retention[r.sender] in {"forever", "30d", "90d", "1y"}
    && (forall i :: 0 <= i < |db.messages| ==> db.messages[i].id != w.newID)
    && (forall i :: 0 <= i < |r.mentions| ==> MayMention(db, r, r.mentions[i].user))
    && Spared(w.faults, Steps(r))
  }

  /** Everything a new message takes. */
  ghost predicate Storable(db: Database, r: Request, w: World) {
    Reaches(db, r, w) && !IsStored(db, r, w.isSpace) && Clear(db, r, w)
  }

  lemma MentionsAllowed(db: Database, r: Request, w: World)
    requires UniqueMembers(db.members)
    ensures var p, ids := Prepared(r, w.isSpace), FirstSeen(Prepared(r, w.isSpace).mentions);
            r.sender !in ids && Authorized(db.members, p.conversation, ids) == |ids| <==>
            forall i :: 0 <= i < |r.mentions| ==> MayMention(db, r, r.mentions[i].user)
  {
    var p := Prepared(r, w.isSpace);
    FirstSeenIsDistinct(p.mentions);
    CountDecidesMembership(db.members, p.conversation, p.mentions);
    assert |p.mentions| == |r.mentions|;
    forall i | 0 <= i < |r.mentions| ensures p.mentions[i].user == r.mentions[i].user && p.mentions[i] in p.mentions {}
    forall user ensures IsMember(db.members, r.conversation, user) && user != r.sender <==> MayMention(db, r, user) {
      ActiveMeans(db.members, r.conversation, user);
    }
  }

  /** A request that reaches the transaction, as the transaction sees it. */
  lemma ReachesMeans(db: Database, r: Request, w: World)
    ensures Reaches(db, r, w) <==>
            && Problem(r, w.isSpace).None? && MayWrite(db, Prepared(r, w.isSpace))
            && Begin !in w.faults && Lookup !in w.faults && FindStored !in w.faults
  {
    BelongsMayWrite(db, Prepared(r, w.isSpace));
    SoundExactly(r, w.isSpace);
    if Begin !in w.faults && Lookup !in w.faults && FindStored !in w.faults {
      assert Spared(w.faults, {Begin, Lookup, FindStored});
    }
  }

  lemma StoredMeans(db: Database, r: Request, isSpace: Scalar -> bool)
    ensures IsStored(db, r, isSpace) <==> Find(db.messages, r.sender, TrimSpace(r.clientID, isSpace)) < |db.messages|
  {
  }

  lemma PeriodMeans(period: string, now: int)
    ensures Expiry(period, now).Some? <==> period in {"forever", "30d", "90d", "1y"}
  {
  }

  lemma SparedMeans(r: Request, faults: set<Fault>)
    ensures Spared(faults, Steps(r)) <==>
            && TakeSequence !in faults && EncryptBody !in faults && InsertMessage !in faults
            && ReadRecipients !in faults && Fanout !in faults && Commit !in faults
            && (r.replyTo.Some? ==> CheckReply !in faults)
            && (r.mentions != [] ==> CountMembers !in faults && EncryptMentions !in faults && StoreMentions !in faults)
  {
    if Spared(faults, Steps(r)) {
      assert TakeSequence in Steps(r) && EncryptBody in Steps(r) && InsertMessage in Steps(r);
      assert ReadRecipients in Steps(r) && Fanout in Steps(r) && Commit in Steps(r);
      assert r.replyTo.Some? ==> CheckReply in Steps(r);
      assert r.mentions != [] ==> CountMembers in Steps(r) && EncryptMentions in Steps(r) && StoreMentions in Steps(r);
    }
  }

  lemma ObstacleExactly(db: Database, r: Request, w: World)
    requires Invariant(db) && UniqueMembers(db.members) && MayWrite(db, Prepared(r, w.isSpace))
    requires !IsStored(db, r, w.isSpace)
    ensures Obstacle(db, Prepared(r, w.isSpace), w).None? <==> Clear(db, r, w)
  {
    var p := Prepared(r, w.isSpace);
    StoredMeans(db, r, w.isSpace);
    PeriodMeans(db.retention[r.sender], w.now);
    SparedMeans(r, w.faults);
    MentionsAllowed(db, r, w);
    LookupSuffices(db, p, w.newID);
    if r.replyTo.Some? { SeesTarget(db, r, w); }
  }

  /**
   * A message is added exactly when the request fits, its sender belongs to the conversation and sent nothing under
   * this client ID, what it refers to is there for the sender, and no step fails.  It is reported unless the answer
   * to the commit is lost.
   */
  lemma StoredExactly(db: Database, r: Request, w: World)
    requires Invariant(db) && UniqueMembers(db.members)
    ensures var (t, outcome) := Attempt(db, r, w);
            && (t != db <==> Storable(db, r, w))
            && (outcome.Accepted? && outcome.created <==> Storable(db, r, w) && CommitLost !in w.faults)
  {
    ReachesMeans(db, r, w);
    StoredMeans(db, r, w.isSpace);
    if Reaches(db, r, w) && !IsStored(db, r, w.isSpace) {
      ObstacleExactly(db, r, w);
      if Storable(db, r, w) { assert Attempt(db, r, w).0.messages != db.messages; }
    }
  }

  /** A reply target is turned down exactly when the sender cannot see it. */
  lemma InvalidReplyExactly(db: Database, r: Request, w: World)
    ensures Attempt(db, r, w).1 == Rejected(InvalidReply) <==>
            && Reaches(db, r, w) && !IsStored(db, r, w.isSpace)
            && r.replyTo.Some? && CheckReply !in w.faults && !CanSeeTarget(db, r, w.now)
  {
    ReachesMeans(db, r, w);
    StoredMeans(db, r, w.isSpace);
    SoundExactly(r, w.isSpace);
    if r.replyTo.Some? { SeesTarget(db, r, w); }
  }

  /** How long a message is kept, in seconds; None for ever. */
  function Kept(period: string): Option<int> {
    match period
    case "30d" => Some(2_592_000)
    case "90d" => Some(7_776_000)
    case "1y" => Some(31_536_000)
    case _ => None
  }

  /** What is stored is what was sent, without the white space around it, for as long as the sender wants it kept. */
  lemma StoredAsSent(db: Database, r: Request, w: World)
    requires Attempt(db, r, w).1.Accepted? && Attempt(db, r, w).1.created
    ensures var m := Attempt(db, r, w).1.message;
            && m.id == w.newID && m.kind == User && m.contentType == "text"
            && m.conversation == r.conversation && m.sender == r.sender && m.replyTo == r.replyTo
            && m.clientID == TrimSpace(r.clientID, w.isSpace) && m.body == TrimSpace(r.body, w.isSpace)
            && m.expiresAt == (if Kept(db.retention[r.sender]).None? then None
                               else Some(w.now + Kept(db.retention[r.sender]).value))
  {
    CreatedWasChecked(db, r, w);
  }

  /** Its mentions are those of the request, and each covers the text it covered there. */
  lemma MentionsAsSent(db: Database, r: Request, w: World, i: nat)
    requires Attempt(db, r, w).1.Accepted? && Attempt(db, r, w).1.created && i < |r.mentions|
    ensures var m := Attempt(db, r, w).1.message;
            && |m.mentions| == |r.mentions| && m.mentions[i].user == r.mentions[i].user
            && SpanText(Encode(m.body), m.mentions[i].start, m.mentions[i].end) ==
                 SpanText(Encode(r.body), r.mentions[i].start, r.mentions[i].end)
  {
    var m := CreatedMessage(db, r, w);
    SoundExactly(r, w.isSpace);
    TrimCommutes(r.body, r.mentions, w.isSpace, NotNil);
    SpanFits(r, w.isSpace, i);
    CoversSame(Encode(m.body), Encode(r.body), r.mentions, Shift(r.body, w.isSpace), i);
  }

  lemma SpanFits(r: Request, isSpace: Scalar -> bool, i: nat)
    requires MentionsFit(r, isSpace) && i < |r.mentions|
    ensures Shift(r.body, isSpace) <= r.mentions[i].start <= r.mentions[i].end
    ensures r.mentions[i].end <= Shift(r.body, isSpace) + |Encode(TrimSpace(r.body, isSpace))|
  {
    assert r.mentions[i] in r.mentions;
    assert ValidSpan(Encode(r.body), r.mentions[i].start, r.mentions[i].end);
  }

  lemma {:induction false} CoversSame(part: Text, whole: Text, mentions: seq<Mention<Id>>, shift: nat, i: nat)
    requires CoversInside(part, whole, mentions, shift) && i < |mentions|
    requires shift <= mentions[i].start <= mentions[i].end <= shift + |part|
    ensures var m := Shifted(mentions, shift)[i];
            SpanText(part, m.start, m.end) == SpanText(whole, mentions[i].start, mentions[i].end)
  {
  }

  lemma CreatedMessage(db: Database, r: Request, w: World) returns (m: Message)
    requires Attempt(db, r, w).1.Accepted? && Attempt(db, r, w).1.created
    ensures m == Attempt(db, r, w).1.message && Problem(r, w.isSpace).None?
    ensures m.body == TrimSpace(r.body, w.isSpace) && m.mentions == Shifted(r.mentions, Shift(r.body, w.isSpace))
  {
    CreatedWasChecked(db, r, w);
    m := Attempt(db, r, w).1.message;
  }

  // ----- Recipients -----------------------------------------------------------------------------

  predicate Distinct(ids: seq<Id>) { forall i, j :: 0 <= i < j < |ids| ==> ids[i] != ids[j] }

  lemma NoOtherRow(members: seq<Member>, conversation: Id)
    requires UniqueMembers(members) && members != []
    ensures var n := |members| - 1;
            RowOf(members[n], conversation, members[n].user) ==>
              !ActiveIn(members[..n], conversation, members[n].user)
  {
    var n := |members| - 1;
    if ActiveIn(members[..n], conversation, members[n].user) {
      var j :| 0 <= j < n && RowOf(members[..n][j], conversation, members[n].user);
      assert members[j] == members[..n][j];
    }
  }

  /** Who is told: the active members of the conversation other than the sender, each once. */
  lemma RecipientsExactly(db: Database, r: Request, w: World)
    requires UniqueMembers(db.members) && Attempt(db, r, w).1.Accepted?
    ensures var recipients := Attempt(db, r, w).1.recipients;
            && (forall user :: user in recipients <==> MayMention(db, r, user))
            && Distinct(recipients)
  {
    RecipientsAre(db.members, r.conversation, r.sender);
  }

  lemma {:induction false} RecipientsAre(members: seq<Member>, conversation: Id, sender: Id)
    requires UniqueMembers(members)
    ensures forall user :: user in Recipients(members, conversation, sender) <==>
              user != sender && ActiveIn(members, conversation, user)
    ensures Distinct(Recipients(members, conversation, sender))
  {
    if members != [] {
      var n := |members| - 1;
      var front := members[..n];
      RecipientsAre(front, conversation, sender);
      forall user ensures user in Recipients(members, conversation, sender) <==>
          user != sender && ActiveIn(members, conversation, user)
      {
        ActiveNext(members, conversation, user);
      }
      NoOtherRow(members, conversation);
    }
  }

  lemma ActiveNext(members: seq<Member>, conversation: Id, user: Id)
    requires members != []
    ensures var n := |members| - 1;
            ActiveIn(members, conversation, user) <==>
            ActiveIn(members[..n], conversation, user) || RowOf(members[n], conversation, user)
  {
    var n := |members| - 1;
    if ActiveIn(members[..n], conversation, user) {
      var j :| 0 <= j < n && RowOf(members[..n][j], conversation, user);
      assert RowOf(members[j], conversation, user);
    }
    if ActiveIn(members, conversation, user) && !RowOf(members[n], conversation, user) {
      var j :| 0 <= j < |members| && RowOf(members[j], conversation, user);
      assert RowOf(members[..n][j], conversation, user);
    }
  }
}
