/** Sequences, client IDs and retries over all serialized runs. */
module SenderRuns {
  import opened Options
  import opened Utf16
  import opened Mentions
  import opened GoMentions
  import opened Sender

  /** What can happen to the tables: sends, the system entries of groups, new conversations, changes of membership. */
  datatype Event =
    | Sending(request: Request, world: World)
    | SystemEntry(conversation: Id, actor: Id, clientID: seq<Scalar>, id: Id, body: seq<Scalar>)
    | NewConversation(id: Id)
    | NewMembers(members: seq<Member>, retention: map<Id, string>)

  const EMPTY := Database(map[], [], map[], [])

  function SystemRow(db: Database, e: Event): Message
    requires e.SystemEntry? && e.conversation in db.nextSequence
  {
    Message(e.id, e.conversation, e.actor, e.clientID, db.nextSequence[e.conversation], e.body, [], "text", System,
        None, None)
  }

  function Step(db: Database, e: Event): Database {
    match e
    case Sending(request, world) => Attempt(db, request, world).0
    case SystemEntry(conversation, _, _, _, _) =>
      if conversation in db.nextSequence && Insertable(db.messages, SystemRow(db, e))
        then WithMessage(db, SystemRow(db, e)) else db
    case NewConversation(id) =>
      if id in db.nextSequence then db else db.(nextSequence := db.nextSequence[id := FIRST_SEQUENCE])
    case NewMembers(members, retention) => db.(members := members, retention := retention)
  }

  function RunFrom(db: Database, events: seq<Event>): Database {
    if events == [] then db else Step(RunFrom(db, events[..|events| - 1]), events[|events| - 1])
  }

  // ----- Sequences ------------------------------------------------------------------------------

  /** A conversation's sequences in the order its messages were stored. */
  function SequencesOf(messages: seq<Message>, conversation: Id): seq<int> {
    if messages == [] then []
    else
      var m := messages[|messages| - 1];
      var front := SequencesOf(messages[..|messages| - 1], conversation);
      if m.conversation == conversation then front + [m.sequence] else front
  }

  /** From the first sequence up to, but not including, `next`. */
  function Counting(next: int): seq<int>
    decreases next
  {
    if next <= FIRST_SEQUENCE then [] else Counting(next - 1) + [next - 1]
  }

  predicate Gapless(db: Database) {
    && (forall c <- db.nextSequence ::
         FIRST_SEQUENCE <= db.nextSequence[c] && SequencesOf(db.messages, c) == Counting(db.nextSequence[c]))
    && (forall i :: 0 <= i < |db.messages| ==> db.messages[i].conversation in db.nextSequence)
  }

  predicate SamePair(m: Message, n: Message) { m.sender == n.sender && m.clientID == n.clientID }

  predicate Idempotent(messages: seq<Message>) {
    forall i, j :: 0 <= i < j < |messages| ==> !SamePair(messages[i], messages[j])
  }

  predicate Invariant(db: Database) { Gapless(db) && Idempotent(db.messages) }

  lemma {:induction false} NoMessages(messages: seq<Message>, conversation: Id)
    requires forall i :: 0 <= i < |messages| ==> messages[i].conversation != conversation
    ensures SequencesOf(messages, conversation) == []
  {
    if messages != [] { NoMessages(messages[..|messages| - 1], conversation); }
  }

  lemma {:induction false} SequencesAppend(messages: seq<Message>, m: Message, conversation: Id)
    ensures SequencesOf(messages + [m], conversation) ==
            if m.conversation == conversation then SequencesOf(messages, conversation) + [m.sequence]
              else SequencesOf(messages, conversation)
  {
    assert (messages + [m])[..|messages|] == messages;
  }

  lemma WithMessageKeeps(db: Database, m: Message)
    requires Invariant(db) && m.conversation in db.nextSequence && m.sequence == db.nextSequence[m.conversation]
    requires forall i :: 0 <= i < |db.messages| ==> !SamePair(db.messages[i], m)
    ensures Invariant(WithMessage(db, m))
  {
    var t := WithMessage(db, m);
    forall c | c in t.nextSequence
      ensures FIRST_SEQUENCE <= t.nextSequence[c] && SequencesOf(t.messages, c) == Counting(t.nextSequence[c])
    {
      SequencesAppend(db.messages, m, c);
    }
  }

  lemma StepKeepsInvariant(db: Database, e: Event)
    requires Invariant(db)
    ensures Invariant(Step(db, e))
  {
    match e
    case Sending(request, world) => AttemptKeeps(db, request, world);
    case SystemEntry(conversation, _, _, _, _) =>
      if conversation in db.nextSequence && Insertable(db.messages, SystemRow(db, e)) {
        WithMessageKeeps(db, SystemRow(db, e));
      }
    case NewConversation(id) => if id !in db.nextSequence { NewConversationKeeps(db, id); }
    case NewMembers(members, retention) =>
  }

  lemma NewConversationKeeps(db: Database, id: Id)
    requires Invariant(db) && id !in db.nextSequence
    ensures Invariant(db.(nextSequence := db.nextSequence[id := FIRST_SEQUENCE]))
  {
    NoMessages(db.messages, id);
  }

  /** An attempt leaves the tables alone or adds one message with the conversation's next sequence. */
  lemma AttemptAdds(db: Database, r: Request, w: World)
    ensures var t := Attempt(db, r, w).0;
            t == db ||
            (exists m: Message :: m.conversation in db.nextSequence && t == WithMessage(db, m) &&
                m.sequence == db.nextSequence[m.conversation] && Insertable(db.messages, m))
  {
    var p := Prepared(r, w.isSpace);
    if Attempt(db, r, w).0 != db {
      var m := NewMessage(db, p, w);
      assert Attempt(db, r, w).0 == WithMessage(db, m);
      assert Insertable(db.messages, m);
    }
  }

  lemma AttemptKeeps(db: Database, r: Request, w: World)
    requires Invariant(db)
    ensures Invariant(Attempt(db, r, w).0)
  {
    AttemptAdds(db, r, w);
    if Attempt(db, r, w).0 != db {
      var m: Message :| m.conversation in db.nextSequence && Attempt(db, r, w).0 == WithMessage(db, m) &&
        m.sequence == db.nextSequence[m.conversation] && Insertable(db.messages, m);
      WithMessageKeeps(db, m);
    }
  }

  lemma {:induction false} RunKeepsInvariant(db: Database, events: seq<Event>)
    requires Invariant(db)
    ensures Invariant(RunFrom(db, events))
  {
    if events != [] {
      RunKeepsInvariant(db, events[..|events| - 1]);
      StepKeepsInvariant(RunFrom(db, events[..|events| - 1]), events[|events| - 1]);
    }
  }

  /** Each sequence below the next one belongs to exactly one message of the conversation. */
  lemma EachSequenceOnce(events: seq<Event>, conversation: Id, sequence: int) returns (i: nat)
    requires conversation in RunFrom(EMPTY, events).nextSequence
    requires FIRST_SEQUENCE <= sequence < RunFrom(EMPTY, events).nextSequence[conversation]
    ensures var messages := RunFrom(EMPTY, events).messages;
            && i < |messages| && messages[i].conversation == conversation && messages[i].sequence == sequence
            && forall j :: 0 <= j < |messages| ==>
                 (messages[j].conversation == conversation && messages[j].sequence == sequence ==> j == i)
  {
    RunKeepsInvariant(EMPTY, events);
    var db := RunFrom(EMPTY, events);
    i := SequenceAt(db.messages, conversation, db.nextSequence[conversation], sequence);
  }

  lemma {:induction false} SequenceAt(messages: seq<Message>, conversation: Id, next: int, sequence: int)
    returns (i: nat)
    requires FIRST_SEQUENCE <= sequence < next && SequencesOf(messages, conversation) == Counting(next)
    ensures i < |messages| && messages[i].conversation == conversation && messages[i].sequence == sequence
    ensures forall j :: 0 <= j < |messages| ==>
              (messages[j].conversation == conversation && messages[j].sequence == sequence ==> j == i)
  {
    var n := |messages| - 1;
    var front, m := messages[..n], messages[n];
    if m.conversation == conversation {
      Unsnoc(SequencesOf(front, conversation), m.sequence, Counting(next - 1), next - 1);
      if sequence == next - 1 {
        i := n;
        SequencesBelow(front, conversation, next - 1);
      } else {
        i := SequenceAt(front, conversation, next - 1, sequence);
      }
    } else {
      i := SequenceAt(front, conversation, next, sequence);
    }
  }

  lemma Unsnoc(a: seq<int>, x: int, b: seq<int>, y: int)
    requires a + [x] == b + [y]
    ensures a == b && x == y
  {
    assert (a + [x])[|a|] == x && (b + [y])[|b|] == y;
    assert a == (a + [x])[..|a|] && b == (b + [y])[..|b|];
  }

  /** No message has a sequence that is not given out, below the first or from the next one on. */
  lemma {:induction false} SequencesBelow(messages: seq<Message>, conversation: Id, next: int)
    requires SequencesOf(messages, conversation) == Counting(next)
    ensures forall j :: 0 <= j < |messages| && messages[j].conversation == conversation ==>
            FIRST_SEQUENCE <= messages[j].sequence < next
  {
    if messages != [] {
      var n := |messages| - 1;
      if messages[n].conversation == conversation {
        Unsnoc(SequencesOf(messages[..n], conversation), messages[n].sequence, Counting(next - 1), next - 1);
        SequencesBelow(messages[..n], conversation, next - 1);
      } else {
        SequencesBelow(messages[..n], conversation, next);
      }
    }
  }

  /**
   * It is the lookup and the sequence taken that keep the tables in order, not the unique constraints: once the
   * lookup found nothing, the row can be inserted exactly when the database picks a new ID for it.
   */
  lemma LookupSuffices(db: Database, p: Request, newID: Id)
    requires Invariant(db) && p.conversation in db.nextSequence
    requires Find(db.messages, p.sender, p.clientID) == |db.messages|
    ensures Insertable(db.messages, Row(p, newID, db.nextSequence[p.conversation], None)) <==>
            forall i :: 0 <= i < |db.messages| ==> db.messages[i].id != newID
  {
    SequencesBelow(db.messages, p.conversation, db.nextSequence[p.conversation]);
  }

  lemma {:induction false} NoSequenceOutside(events: seq<Event>, m: Message)
    requires m in RunFrom(EMPTY, events).messages
    ensures var next := RunFrom(EMPTY, events).nextSequence;
            m.conversation in next && FIRST_SEQUENCE <= m.sequence < next[m.conversation]
  {
    RunKeepsInvariant(EMPTY, events);
    var db := RunFrom(EMPTY, events);
    SequencesBelow(db.messages, m.conversation, db.nextSequence[m.conversation]);
  }

  /** At most one message per sender and client ID. */
  lemma {:induction false} OneMessagePerClientID(events: seq<Event>, i: nat, j: nat)
    requires var messages := RunFrom(EMPTY, events).messages;
             i < |messages| && j < |messages| && SamePair(messages[i], messages[j])
    ensures i == j
  {
    RunKeepsInvariant(EMPTY, events);
  }

  // ----- Retries --------------------------------------------------------------------------------

  lemma {:induction false} MessagesStay(db: Database, events: seq<Event>)
    ensures db.messages <= RunFrom(db, events).messages
  {
    if events != [] {
      MessagesStay(db, events[..|events| - 1]);
      var before := RunFrom(db, events[..|events| - 1]);
      if events[|events| - 1].Sending? {
        AttemptAdds(before, events[|events| - 1].request, events[|events| - 1].world);
      }
    }
  }

  /** A later request for the same stored message: same sender, client ID, conversation and reply target. */
  predicate Matches(p: Request, m: Message) {
    p.sender == m.sender && p.clientID == m.clientID && p.conversation == m.conversation && p.replyTo == m.replyTo
  }

  /** Nothing stands in the way of a request: it is well formed, the sender may write, and nothing fails. */
  predicate Unhindered(db: Database, r: Request, w: World) {
    Problem(r, w.isSpace).None? && MayWrite(db, Prepared(r, w.isSpace)) && w.faults == {}
  }

  /**
   * However a message came to be stored, reported or lost with the reply, a matching retry at any later
   * time returns it as it was stored and changes nothing, unless it has expired.
   */
  lemma {:induction false} RetryReturnsStored(events: seq<Event>, m: Message, later: seq<Event>, r: Request, w: World)
    requires m in RunFrom(EMPTY, events).messages
    requires var db := RunFrom(RunFrom(EMPTY, events), later);
             Unhindered(db, r, w) && Matches(Prepared(r, w.isSpace), m)
    ensures var db := RunFrom(RunFrom(EMPTY, events), later);
            Attempt(db, r, w) == (db, if Expired(m.expiresAt, w.now) then Rejected(MessageExpired)
                                      else Accepted(m, Recipients(db.members, m.conversation, m.sender), false))
  {
    var start := RunFrom(EMPTY, events);
    var db := RunFrom(start, later);
    RunKeepsInvariant(EMPTY, events);
    RunKeepsInvariant(start, later);
    MessagesStay(start, later);
    var k :| 0 <= k < |start.messages| && start.messages[k] == m;
    assert db.messages[k] == m;
    FindsIt(db.messages, k);
    ReplayOf(db, r, w, m);
  }

  lemma {:induction false} FindsIt(messages: seq<Message>, k: nat)
    requires Idempotent(messages) && k < |messages|
    ensures Find(messages, messages[k].sender, messages[k].clientID) == k
  {
    var i := Find(messages, messages[k].sender, messages[k].clientID);
    assert i <= k;
    assert SamePair(messages[i], messages[k]);
  }

  lemma ReplayOf(db: Database, r: Request, w: World, m: Message)
    requires Unhindered(db, r, w) && Matches(Prepared(r, w.isSpace), m)
    requires var i := Find(db.messages, m.sender, m.clientID); i < |db.messages| && db.messages[i] == m
    ensures Attempt(db, r, w) == (db, if Expired(m.expiresAt, w.now) then Rejected(MessageExpired)
                                      else Accepted(m, Recipients(db.members, m.conversation, m.sender), false))
  {
  }

  lemma CreatedWasChecked(db: Database, r: Request, w: World)
    requires Attempt(db, r, w).1.Accepted? && Attempt(db, r, w).1.created
    ensures var p := Prepared(r, w.isSpace);
            && PreparedProblem(p).None? && p.conversation in db.nextSequence && p.sender in db.retention &&
                 Obstacle(db, p, w).None?
            && Attempt(db, r, w).1.message == NewMessage(db, p, w)
  {
  }

  /** An attempt that is accepted as new has stored exactly what it returns. */
  lemma CreatedIsStored(db: Database, r: Request, w: World)
    requires Attempt(db, r, w).1.Accepted? && Attempt(db, r, w).1.created
    ensures var (t, outcome) := Attempt(db, r, w);
            var p, m := Prepared(r, w.isSpace), outcome.message;
            && t.messages == db.messages + [m] && Matches(p, m) && m.body == p.body && m.mentions == p.mentions
            && m.conversation in db.nextSequence && m.sequence == db.nextSequence[m.conversation]
            && t.nextSequence == db.nextSequence[m.conversation := m.sequence + 1]
  {
    CreatedWasChecked(db, r, w);
  }

  // ----- Mentioned members ----------------------------------------------------------------------

  /** The primary key of the membership table. */
  predicate UniqueMembers(members: seq<Member>) {
    forall i, j :: 0 <= i < j < |members| ==>
        !(members[i].conversation == members[j].conversation && members[i].user == members[j].user)
  }

  function Named(members: seq<Member>, conversation: Id, ids: seq<Id>): set<Id> {
    if members == [] then {}
    else
      var m := members[|members| - 1];
      var front := Named(members[..|members| - 1], conversation, ids);
      if m.conversation == conversation && m.active && m.user in ids then front + {m.user} else front
  }

  lemma {:induction false} NamedMeans(members: seq<Member>, conversation: Id, ids: seq<Id>, id: Id)
    ensures id in Named(members, conversation, ids) <==> id in ids && IsMember(members, conversation, id)
  {
    if members != [] {
      NamedMeans(members[..|members| - 1], conversation, ids, id);
      assert members == members[..|members| - 1] + [members[|members| - 1]];
    }
  }

  lemma {:induction false} CountIsNamed(members: seq<Member>, conversation: Id, ids: seq<Id>)
    requires UniqueMembers(members)
    ensures Authorized(members, conversation, ids) == |Named(members, conversation, ids)|
  {
    if members != [] {
      var front, m := members[..|members| - 1], members[|members| - 1];
      CountIsNamed(front, conversation, ids);
      NamedMeans(front, conversation, ids, m.user);
    }
  }

  function Elements(ids: seq<Id>): set<Id> { set id | id in ids }

  lemma {:induction false} DistinctCount(ids: seq<Id>)
    requires forall i, j :: 0 <= i < j < |ids| ==> ids[i] != ids[j]
    ensures |Elements(ids)| == |ids|
  {
    if ids != [] {
      var front, last := ids[..|ids| - 1], ids[|ids| - 1];
      DistinctCount(front);
      assert ids == front + [last];
      assert Elements(ids) == Elements(front) + {last};
    }
  }

  /** Counting rows is enough to know that every mentioned user is an active member. */
  lemma {:induction false} CountDecidesMembership(members: seq<Member>, conversation: Id, mentions: seq<Mention<Id>>)
    requires UniqueMembers(members)
    ensures Authorized(members, conversation, FirstSeen(mentions)) == |FirstSeen(mentions)| <==>
            forall m <- mentions :: IsMember(members, conversation, m.user)
  {
    var ids := FirstSeen(mentions);
    FirstSeenIsDistinct(mentions);
    CountIsNamed(members, conversation, ids);
    DistinctCount(ids);
    var named, all := Named(members, conversation, ids), Elements(ids);
    forall id ensures id in named <==> id in all && IsMember(members, conversation, id) {
      NamedMeans(members, conversation, ids, id);
    }
    assert |all - named| == |all| - |named|;
    assert named == all <==> |named| == |all|;
    if forall m <- mentions :: IsMember(members, conversation, m.user) {
      forall id | id in all ensures id in named {
        var m :| m in mentions && m.user == id;
      }
    }
  }

  lemma UnobstructedMentions(db: Database, p: Request, w: World)
    requires p.conversation in db.nextSequence && p.sender in db.retention && Obstacle(db, p, w).None?
    ensures p.mentions != [] ==>
              p.sender !in FirstSeen(p.mentions) &&
                  Authorized(db.members, p.conversation, FirstSeen(p.mentions)) == |FirstSeen(p.mentions)|
  {
  }

  /** A new message mentions only active members of its conversation other than its sender. */
  lemma MentionsAreMembers(db: Database, r: Request, w: World, mention: Mention<Id>)
    requires UniqueMembers(db.members)
    requires Attempt(db, r, w).1.Accepted? && Attempt(db, r, w).1.created
    requires mention in Attempt(db, r, w).1.message.mentions
    ensures var m := Attempt(db, r, w).1.message;
            IsMember(db.members, m.conversation, mention.user) && mention.user != m.sender
  {
    var p := Prepared(r, w.isSpace);
    CreatedWasChecked(db, r, w);
    UnobstructedMentions(db, p, w);
    CountDecidesMembership(db.members, p.conversation, p.mentions);
    FirstSeenIsDistinct(p.mentions);
  }

  /** Its spans are valid in its body. */
  lemma StoredMentionsAreValid(db: Database, r: Request, w: World)
    requires Attempt(db, r, w).1.Accepted? && Attempt(db, r, w).1.created
    ensures var m := Attempt(db, r, w).1.message; ValidMentions(Encode(m.body), m.mentions, NotNil)
  {
    CreatedWasChecked(db, r, w);
  }
}
