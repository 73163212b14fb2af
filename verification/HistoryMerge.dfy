/** A page of history joining the messages on screen. */
module HistoryMerge {
  import StableSort

  /** `createdAt` stands for the time stamp in the order its text compares. */
  datatype Message = Message(id: string, sender: string, clientID: string, sequence: int, createdAt: int)

  /** Confirmed messages by sequence, then the others by the time they were made. */
  function Order(left: Message, right: Message): int {
    if left.sequence > 0 && right.sequence > 0 then left.sequence - right.sequence
    else if left.sequence > 0 then -1
    else if right.sequence > 0 then 1
    else left.createdAt - right.createdAt
  }

  function Comparison(): (Message, Message) -> int { (left: Message, right: Message) => Order(left, right) }

  predicate HasID(page: seq<Message>, id: string) { exists i :: 0 <= i < |page| && page[i].id == id }

  /** The page holds the stored copy of a message this profile sent. */
  predicate HasCopy(page: seq<Message>, m: Message, profile: string) {
    m.sender == profile && exists i :: 0 <= i < |page| && page[i].sender == profile && page[i].clientID == m.clientID
  }

  predicate Stays(page: seq<Message>, profile: string, m: Message) { !HasID(page, m.id) && !HasCopy(page, m, profile) }

  function Live(messages: seq<Message>, page: seq<Message>, profile: string): seq<Message> {
    if messages == [] then []
    else
      var front := Live(messages[..|messages| - 1], page, profile);
      if Stays(page, profile, messages[|messages| - 1]) then front + [messages[|messages| - 1]] else front
  }

  function Sorted(messages: seq<Message>): seq<Message> { StableSort.Sort(messages, Comparison()) }

  function MergeHistoryMessages(messages: seq<Message>, page: seq<Message>, profile: string): seq<Message> {
    Sorted(page + Live(messages, page, profile))
  }

  // ----- Confirmed and pending ------------------------------------------------------------------

  function Confirmed(messages: seq<Message>): seq<Message> {
    if messages == [] then []
    else
      var front := Confirmed(messages[..|messages| - 1]);
      if messages[|messages| - 1].sequence > 0 then front + [messages[|messages| - 1]] else front
  }

  function Pending(messages: seq<Message>): seq<Message> {
    if messages == [] then []
    else
      var front := Pending(messages[..|messages| - 1]);
      if messages[|messages| - 1].sequence > 0 then front else front + [messages[|messages| - 1]]
  }

  predicate AllConfirmed(messages: seq<Message>) { forall i :: 0 <= i < |messages| ==> messages[i].sequence > 0 }

  predicate AllPending(messages: seq<Message>) { forall i :: 0 <= i < |messages| ==> messages[i].sequence <= 0 }

  lemma {:induction false} PartsAreThat(messages: seq<Message>)
    ensures AllConfirmed(Confirmed(messages)) && AllPending(Pending(messages))
    ensures forall m :: m in messages <==> m in Confirmed(messages) || m in Pending(messages)
  {
    if messages != [] {
      PartsAreThat(messages[..|messages| - 1]);
      assert messages == messages[..|messages| - 1] + [messages[|messages| - 1]];
    }
  }

  /** A pending message is inserted among the pending. */
  lemma {:induction false} InsertPending(c: seq<Message>, p: seq<Message>, x: Message)
    requires AllConfirmed(c) && AllPending(p) && x.sequence <= 0
    ensures StableSort.Insert(c + p, x, Comparison()) == c + StableSort.Insert(p, x, Comparison())
    decreases |p|
  {
    if p == [] {
      assert c + p == c;
      if c != [] { assert Comparison()(c[|c| - 1], x) <= 0; }
      assert StableSort.Insert(p, x, Comparison()) == [x];
    } else {
      var n := |p| - 1;
      assert (c + p)[..|c + p| - 1] == c + p[..n] && (c + p)[|c + p| - 1] == p[n];
      if Comparison()(p[n], x) <= 0 {
        assert c + p + [x] == c + (p + [x]);
      } else {
        InsertPending(c, p[..n], x);
        assert c + StableSort.Insert(p[..n], x, Comparison()) + [p[n]] ==
               c + (StableSort.Insert(p[..n], x, Comparison()) + [p[n]]);
      }
    }
  }

  /** A confirmed one moves past all of them. */
  lemma {:induction false} InsertConfirmed(c: seq<Message>, p: seq<Message>, x: Message)
    requires AllConfirmed(c) && AllPending(p) && x.sequence > 0
    ensures StableSort.Insert(c + p, x, Comparison()) == StableSort.Insert(c, x, Comparison()) + p
    decreases |p|
  {
    if p == [] {
      assert c + p == c;
      assert StableSort.Insert(c, x, Comparison()) + p == StableSort.Insert(c, x, Comparison());
    } else {
      var n := |p| - 1;
      assert (c + p)[..|c + p| - 1] == c + p[..n] && (c + p)[|c + p| - 1] == p[n];
      assert Comparison()(p[n], x) > 0;
      InsertConfirmed(c, p[..n], x);
      assert StableSort.Insert(c, x, Comparison()) + p[..n] + [p[n]] == StableSort.Insert(c, x, Comparison()) + p;
    }
  }

  lemma {:induction false} InsertKeepsKind(s: seq<Message>, x: Message)
    ensures forall m :: m in StableSort.Insert(s, x, Comparison()) <==> m in s || m == x
    decreases |s|
  {
    if s != [] {
      var n := |s| - 1;
      InsertKeepsKind(s[..n], x);
      assert s == s[..n] + [s[n]];
    }
  }

  lemma {:induction false} SortKeepsElements(s: seq<Message>)
    ensures forall m :: m in Sorted(s) <==> m in s
  {
    if s != [] {
      var n := |s| - 1;
      SortKeepsElements(s[..n]);
      InsertKeepsKind(Sorted(s[..n]), s[n]);
      assert s == s[..n] + [s[n]];
    }
  }

  lemma {:induction false} KindsOfSorted(messages: seq<Message>)
    ensures AllConfirmed(Sorted(Confirmed(messages))) && AllPending(Sorted(Pending(messages)))
  {
    PartsAreThat(messages);
    SortKeepsElements(Confirmed(messages));
    SortKeepsElements(Pending(messages));
    var c, p := Sorted(Confirmed(messages)), Sorted(Pending(messages));
    forall i | 0 <= i < |c| ensures c[i].sequence > 0 { assert c[i] in c; }
    forall i | 0 <= i < |p| ensures p[i].sequence <= 0 { assert p[i] in p; }
  }

  lemma {:induction false} SortNext(messages: seq<Message>, x: Message)
    ensures Sorted(messages + [x]) == StableSort.Insert(Sorted(messages), x, Comparison())
  {
    assert (messages + [x])[..|messages|] == messages;
  }

  /** Sorting puts the confirmed messages first, and sorts both parts. */
  lemma {:induction false} SortsInParts(messages: seq<Message>)
    ensures Sorted(messages) == Sorted(Confirmed(messages)) + Sorted(Pending(messages))
  {
    if messages != [] {
      var n := |messages| - 1;
      var front, x := messages[..n], messages[n];
      SortsInParts(front);
      KindsOfSorted(front);
      if x.sequence > 0 {
        InsertConfirmed(Sorted(Confirmed(front)), Sorted(Pending(front)), x);
        SortNext(Confirmed(front), x);
      } else {
        InsertPending(Sorted(Confirmed(front)), Sorted(Pending(front)), x);
        SortNext(Pending(front), x);
      }
    }
  }

  /** Where a list splits into its parts, they are its parts. */
  lemma {:induction false} PartsOf(c: seq<Message>, p: seq<Message>)
    requires AllConfirmed(c) && AllPending(p)
    ensures Confirmed(c + p) == c && Pending(c + p) == p
    decreases |c| + |p|
  {
    if p != [] {
      var n := |p| - 1;
      assert (c + p)[..|c + p| - 1] == c + p[..n];
      PartsOf(c, p[..n]);
      assert p == p[..n] + [p[n]];
    } else if c != [] {
      var n := |c| - 1;
      assert c + p == c && c[..n] + p == c[..n];
      PartsOf(c[..n], p);
      assert c == c[..n] + [c[n]];
    }
  }

  lemma {:induction false} PartsOfConcat(a: seq<Message>, b: seq<Message>)
    ensures Confirmed(a + b) == Confirmed(a) + Confirmed(b) && Pending(a + b) == Pending(a) + Pending(b)
    decreases |b|
  {
    if b == [] {
      assert a + b == a;
      assert Confirmed(a) + [] == Confirmed(a) && Pending(a) + [] == Pending(a);
    } else {
      assert (a + b)[..|a + b| - 1] == a + b[..|b| - 1];
      PartsOfConcat(a, b[..|b| - 1]);
    }
  }

  // ----- Confirmed messages are strictly ascending ----------------------------------------------

  predicate Ascending(c: seq<Message>) { forall i, j :: 0 <= i < j < |c| ==> c[i].sequence < c[j].sequence }

  predicate DistinctSequences(c: seq<Message>) { forall i, j :: 0 <= i < j < |c| ==> c[i].sequence != c[j].sequence }

  lemma {:induction false} InsertAscending(c: seq<Message>, x: Message)
    requires AllConfirmed(c) && x.sequence > 0 && Ascending(c)
    requires forall i :: 0 <= i < |c| ==> c[i].sequence != x.sequence
    ensures Ascending(StableSort.Insert(c, x, Comparison()))
  {
    if c != [] && Comparison()(c[|c| - 1], x) > 0 {
      var n := |c| - 1;
      InsertAscending(c[..n], x);
      InsertKeepsKind(c[..n], x);
      var r := StableSort.Insert(c[..n], x, Comparison());
      forall i | 0 <= i < |r| ensures r[i].sequence < c[n].sequence { assert r[i] in r; }
    }
  }

  lemma {:induction false} SortAscending(c: seq<Message>)
    requires AllConfirmed(c) && DistinctSequences(c)
    ensures AllConfirmed(Sorted(c)) && Ascending(Sorted(c))
  {
    if c != [] {
      var n := |c| - 1;
      SortAscending(c[..n]);
      SortKeepsElements(c[..n]);
      var r := Sorted(c[..n]);
      forall i | 0 <= i < |r| ensures r[i].sequence != c[n].sequence { assert r[i] in r; }
      InsertAscending(r, c[n]);
      InsertKeepsKind(r, c[n]);
      var t := Sorted(c);
      forall i | 0 <= i < |t| ensures t[i].sequence > 0 { assert t[i] in t; }
    }
  }

  lemma LastsAgree(c: seq<Message>, d: seq<Message>)
    requires Ascending(c) && Ascending(d) && forall m :: m in c <==> m in d
    requires c != []
    ensures d != [] && c[|c| - 1] == d[|d| - 1]
  {
    var last := c[|c| - 1];
    assert last in c;
    var j :| 0 <= j < |d| && d[j] == last;
    assert d[|d| - 1] in d;
    var i :| 0 <= i < |c| && c[i] == d[|d| - 1];
  }

  lemma OthersAgree(c: seq<Message>, d: seq<Message>, last: Message, m: Message)
    requires Ascending(c + [last]) && (m in c + [last] ==> m in d + [last])
    ensures m in c ==> m in d
  {
    if m in c {
      var all := c + [last];
      var i :| 0 <= i < |c| && c[i] == m;
      assert all[i] == m && all[|c|] == last;
      assert m in all;
    }
  }

  /** There is only one ascending list of the same messages. */
  lemma {:induction false} AscendingIsUnique(c: seq<Message>, d: seq<Message>)
    requires Ascending(c) && Ascending(d) && forall m :: m in c <==> m in d
    ensures c == d
  {
    assert d != [] ==> d[0] in d;
    if c != [] {
      LastsAgree(c, d);
      var c0, d0, last := c[..|c| - 1], d[..|d| - 1], c[|c| - 1];
      assert c == c0 + [last] && d == d0 + [last];
      forall m ensures m in c0 <==> m in d0 {
        OthersAgree(c0, d0, last, m);
        OthersAgree(d0, c0, last, m);
      }
      AscendingIsUnique(c0, d0);
    }
  }

  // ----- Pending messages keep their order ------------------------------------------------------

  lemma SortedUpTo(p: seq<Message>, x: Message)
    requires AllPending(p + [x]) && StableSort.Sorted(p + [x], Comparison())
    ensures StableSort.Sorted(p, Comparison()) && AllPending(p)
    ensures forall i :: 0 <= i < |p| ==> p[i].createdAt <= x.createdAt
  {
    var all := p + [x];
    forall i, j | 0 <= i < j < |p| ensures Comparison()(p[i], p[j]) <= 0 { assert Comparison()(all[i], all[j]) <= 0; }
    forall i | 0 <= i < |p| ensures p[i].sequence <= 0 &&
        p[i].createdAt <= x.createdAt { assert Comparison()(all[i], all[|p|]) <= 0; }
  }

  lemma AppendSorted(p: seq<Message>, x: Message)
    requires AllPending(p) && x.sequence <= 0 && StableSort.Sorted(p, Comparison())
    requires forall i :: 0 <= i < |p| ==> p[i].createdAt <= x.createdAt
    ensures StableSort.Sorted(p + [x], Comparison()) && AllPending(p + [x])
  {
  }

  lemma {:induction false} InsertSorted(p: seq<Message>, x: Message)
    requires AllPending(p) && x.sequence <= 0 && StableSort.Sorted(p, Comparison())
    ensures AllPending(StableSort.Insert(p, x, Comparison())) &&
            StableSort.Sorted(StableSort.Insert(p, x, Comparison()), Comparison())
  {
    if p == [] {
      assert StableSort.Insert(p, x, Comparison()) == [x];
    } else {
      var n := |p| - 1;
      assert p == p[..n] + [p[n]];
      SortedUpTo(p[..n], p[n]);
      if Comparison()(p[n], x) <= 0 {
        AppendSorted(p, x);
      } else {
        InsertSorted(p[..n], x);
        InsertKeepsKind(p[..n], x);
        var r := StableSort.Insert(p[..n], x, Comparison());
        forall i | 0 <= i < |r| ensures r[i].createdAt <= p[n].createdAt { assert r[i] in r; }
        AppendSorted(r, p[n]);
      }
    }
  }

  lemma {:induction false} SortSorts(p: seq<Message>)
    requires AllPending(p)
    ensures AllPending(Sorted(p)) && StableSort.Sorted(Sorted(p), Comparison())
  {
    if p != [] {
      SortSorts(p[..|p| - 1]);
      InsertSorted(Sorted(p[..|p| - 1]), p[|p| - 1]);
    }
  }

  lemma {:induction false} LiveNext(messages: seq<Message>, x: Message, page: seq<Message>, profile: string)
    ensures Live(messages + [x], page, profile) ==
            if Stays(page, profile, x) then Live(messages, page, profile) + [x] else Live(messages, page, profile)
  {
    assert (messages + [x])[..|messages|] == messages;
  }

  lemma {:induction false} LiveMeans(messages: seq<Message>, page: seq<Message>, profile: string)
    ensures forall m :: m in Live(messages, page, profile) <==> m in messages && Stays(page, profile, m)
  {
    if messages != [] {
      LiveMeans(messages[..|messages| - 1], page, profile);
      assert messages == messages[..|messages| - 1] + [messages[|messages| - 1]];
    }
  }

  /** Dropping messages and inserting one may change places. */
  lemma {:induction false} LiveInsert(p: seq<Message>, x: Message, page: seq<Message>, profile: string)
    requires AllPending(p) && x.sequence <= 0 && StableSort.Sorted(p, Comparison())
    ensures Live(StableSort.Insert(p, x, Comparison()), page, profile) ==
            if Stays(page, profile, x) then StableSort.Insert(Live(p, page, profile), x, Comparison())
              else Live(p, page, profile)
  {
    LiveNext(p, x, page, profile);
    if p != [] {
      var n := |p| - 1;
      assert p == p[..n] + [p[n]];
      SortedUpTo(p[..n], p[n]);
      if Comparison()(p[n], x) <= 0 {
        LiveMeans(p, page, profile);
        InsertLast(Live(p, page, profile), x, p[n].createdAt);
      } else {
        LiveInsert(p[..n], x, page, profile);
        LiveNext(StableSort.Insert(p[..n], x, Comparison()), p[n], page, profile);
        LiveNext(p[..n], p[n], page, profile);
        InsertBefore(Live(p[..n], page, profile), p[n], x);
      }
    } else {
      assert p + [x] == [x];
    }
  }

  lemma {:induction false} InsertLast(p: seq<Message>, x: Message, latest: int)
    requires x.sequence <= 0 && latest <= x.createdAt && forall m <- p :: m.sequence <= 0 && m.createdAt <= latest
    ensures StableSort.Insert(p, x, Comparison()) == p + [x]
  {
    if p != [] { assert p[|p| - 1] in p; }
  }

  lemma {:induction false} InsertBefore(p: seq<Message>, last: Message, x: Message)
    requires Comparison()(last, x) > 0
    ensures StableSort.Insert(p + [last], x, Comparison()) == StableSort.Insert(p, x, Comparison()) + [last]
  {
    assert (p + [last])[..|p|] == p;
  }

  /** So may dropping messages and sorting. */
  lemma {:induction false} LiveSort(p: seq<Message>, page: seq<Message>, profile: string)
    requires AllPending(p)
    ensures Live(Sorted(p), page, profile) == Sorted(Live(p, page, profile))
  {
    if p != [] {
      var n := |p| - 1;
      LiveSort(p[..n], page, profile);
      SortSorts(p[..n]);
      LiveInsert(Sorted(p[..n]), p[n], page, profile);
      SortNext(Live(p[..n], page, profile), p[n]);
    }
  }

  lemma {:induction false} LiveTwice(p: seq<Message>, first: seq<Message>, second: seq<Message>, profile: string)
    ensures Live(Live(p, first, profile), second, profile) == Live(Live(p, second, profile), first, profile)
  {
    if p != [] {
      var n := |p| - 1;
      LiveTwice(p[..n], first, second, profile);
      LiveNext(Live(p[..n], first, profile), p[n], second, profile);
      LiveNext(Live(p[..n], second, profile), p[n], first, profile);
    }
  }

  lemma {:induction false} PartsOfLive(messages: seq<Message>, page: seq<Message>, profile: string)
    ensures Confirmed(Live(messages, page, profile)) == Live(Confirmed(messages), page, profile)
    ensures Pending(Live(messages, page, profile)) == Live(Pending(messages), page, profile)
  {
    if messages != [] {
      var front, x := messages[..|messages| - 1], messages[|messages| - 1];
      PartsOfLive(front, page, profile);
      LiveNext(Confirmed(front), x, page, profile);
      LiveNext(Pending(front), x, page, profile);
      var live := Live(front, page, profile);
      assert (live + [x])[..|live|] == live;
    }
  }

  // ----- Merging --------------------------------------------------------------------------------

  predicate Alike(m: Message, n: Message) {
    m.id == n.id || m.sequence == n.sequence || (m.sender == n.sender && m.clientID == n.clientID)
  }

  /**
   * The messages of one conversation as the server has them: a confirmed message is known by its ID, by
   * its sequence and by its sender and client ID.
   */
  predicate Coherent(known: set<Message>) {
    forall m <- known, n <- known :: m.sequence > 0 && n.sequence > 0 && Alike(m, n) ==> m == n
  }

  predicate Known(messages: seq<Message>, known: set<Message>) {
    forall i :: 0 <= i < |messages| ==> messages[i] in known
  }

  predicate NoRepeats(c: seq<Message>) { forall i, j :: 0 <= i < j < |c| ==> c[i] != c[j] }

  /** A page of history: confirmed messages, each once. */
  predicate IsPage(page: seq<Message>, known: set<Message>) {
    Known(page, known) && AllConfirmed(page) && NoRepeats(page)
  }

  /** What is on screen: each confirmed message once, and pending ones, under IDs of their own. */
  predicate OnScreen(messages: seq<Message>, known: set<Message>) {
    && Known(messages, known) && NoRepeats(Confirmed(messages))
    && forall m <- messages, n <- known :: m.sequence <= 0 && n.sequence > 0 ==> m.id != n.id
  }

  lemma ConfirmedStays(m: Message, page: seq<Message>, known: set<Message>, profile: string)
    requires Coherent(known) && IsPage(page, known) && m in known && m.sequence > 0
    ensures Stays(page, profile, m) <==> m !in page
  {
  }

  lemma {:induction false} LiveNoRepeats(c: seq<Message>, page: seq<Message>, profile: string)
    requires NoRepeats(c)
    ensures NoRepeats(Live(c, page, profile))
  {
    if c != [] {
      LiveNoRepeats(c[..|c| - 1], page, profile);
      LiveMeans(c[..|c| - 1], page, profile);
    }
  }

  /** The confirmed messages of a merge before sorting: those of the page and of the screen, each once. */
  lemma {:induction false} ConfirmedUnion(messages: seq<Message>, page: seq<Message>, known: set<Message>,
                                          profile: string)
    requires Coherent(known) && IsPage(page, known) && OnScreen(messages, known)
    ensures var c := page + Live(Confirmed(messages), page, profile);
            && AllConfirmed(c) && DistinctSequences(c) && Known(c, known)
            && forall m :: m in c <==> m in page || m in Confirmed(messages)
  {
    var live := Live(Confirmed(messages), page, profile);
    PartsAreThat(messages);
    LiveMeans(Confirmed(messages), page, profile);
    LiveNoRepeats(Confirmed(messages), page, profile);
    forall m | m in Confirmed(messages) ensures m in known && (m in live <==> m !in page) {
      assert m in messages;
      ConfirmedStays(m, page, known, profile);
    }
    var c := page + live;
    forall i | 0 <= i < |c| ensures c[i] in known && c[i].sequence > 0 {
      if i >= |page| { assert c[i] in live; }
    }
    forall i, j | 0 <= i < j < |c| ensures c[i].sequence != c[j].sequence {
      if i < |page| <= j { assert c[j] in live && c[i] in page; }
      assert c[i] != c[j];
    }
  }

  /** The merged list in two parts. */
  lemma {:induction false} MergeInParts(messages: seq<Message>, page: seq<Message>, known: set<Message>,
                                        profile: string)
    requires Coherent(known) && IsPage(page, known) && OnScreen(messages, known)
    ensures var merged := MergeHistoryMessages(messages, page, profile);
            && merged == Confirmed(merged) + Pending(merged)
            && Confirmed(merged) == Sorted(page + Live(Confirmed(messages), page, profile))
            && Pending(merged) == Sorted(Live(Pending(messages), page, profile))
  {
    var all := page + Live(messages, page, profile);
    PartsOfLive(messages, page, profile);
    PartsOfConcat(page, Live(messages, page, profile));
    PartsOf(page, []);
    assert page + [] == page;
    assert [] + Live(Pending(messages), page, profile) == Live(Pending(messages), page, profile);
    SortsInParts(all);
    KindsOfSorted(all);
    PartsOf(Sorted(Confirmed(all)), Sorted(Pending(all)));
  }

  /**
   * A merge lists every confirmed message of the page and of the screen once, strictly ascending, and
   * after them the pending ones by time.
   */
  lemma {:induction false} MergeIsOrdered(messages: seq<Message>, page: seq<Message>, known: set<Message>,
                                          profile: string)
    requires Coherent(known) && IsPage(page, known) && OnScreen(messages, known)
    ensures var merged := MergeHistoryMessages(messages, page, profile);
            && merged == Confirmed(merged) + Pending(merged) && Ascending(Confirmed(merged)) &&
                 StableSort.Sorted(Pending(merged), Comparison())
            && (forall m :: m in Confirmed(merged) <==> m in page || m in Confirmed(messages))
            && OnScreen(merged, known)
  {
    var merged := MergeHistoryMessages(messages, page, profile);
    var c, p := page + Live(Confirmed(messages), page, profile), Live(Pending(messages), page, profile);
    MergeInParts(messages, page, known, profile);
    ConfirmedUnion(messages, page, known, profile);
    SortAscending(c);
    SortKeepsElements(c);
    PartsAreThat(messages);
    LiveMeans(Pending(messages), page, profile);
    forall i | 0 <= i < |p| ensures p[i].sequence <= 0 { assert p[i] in p; }
    SortSorts(p);
    SortKeepsElements(p);
    MergedOnScreen(messages, page, known, merged);
  }

  lemma {:induction false} MergedOnScreen(messages: seq<Message>, page: seq<Message>, known: set<Message>,
                                          merged: seq<Message>)
    requires IsPage(page, known) && OnScreen(messages, known) && Ascending(Confirmed(merged))
    requires forall m <- Confirmed(merged) :: m in page || m in Confirmed(messages)
    requires forall m <- Pending(merged) :: m in Pending(messages)
    ensures OnScreen(merged, known)
  {
    PartsAreThat(merged);
    PartsAreThat(messages);
    forall i | 0 <= i < |merged| ensures merged[i] in known { assert merged[i] in merged; }
  }

  /** A pending message goes away exactly when its stored copy is in the page. */
  lemma PendingDroppedForItsCopy(messages: seq<Message>, page: seq<Message>, known: set<Message>, profile: string,
                                 m: Message)
    requires Coherent(known) && IsPage(page, known) && OnScreen(messages, known)
    requires m in messages && m.sequence <= 0
    ensures m !in MergeHistoryMessages(messages, page, profile) <==> HasCopy(page, m, profile)
  {
    var all := page + Live(messages, page, profile);
    SortKeepsElements(all);
    LiveMeans(messages, page, profile);
    forall i | 0 <= i < |page| ensures page[i].id != m.id && page[i] != m { assert page[i] in known; }
  }

  /** Two pages may be merged in either order. */
  lemma MergesCommute(messages: seq<Message>, first: seq<Message>, second: seq<Message>, known: set<Message>,
                      profile: string)
    requires Coherent(known) && IsPage(first, known) && IsPage(second, known) && OnScreen(messages, known)
    ensures MergeHistoryMessages(MergeHistoryMessages(messages, first, profile), second, profile)
            == MergeHistoryMessages(MergeHistoryMessages(messages, second, profile), first, profile)
  {
    var one, other := MergeHistoryMessages(messages, first, profile), MergeHistoryMessages(messages, second, profile);
    MergeIsOrdered(messages, first, known, profile);
    MergeIsOrdered(messages, second, known, profile);
    MergeIsOrdered(one, second, known, profile);
    MergeIsOrdered(other, first, known, profile);
    var a, b := MergeHistoryMessages(one, second, profile), MergeHistoryMessages(other, first, profile);
    AscendingIsUnique(Confirmed(a), Confirmed(b));
    PendingAfterBoth(messages, first, second, known, profile);
    PendingAfterBoth(messages, second, first, known, profile);
    LiveTwice(Pending(messages), first, second, profile);
  }

  lemma {:induction false} PendingAfterBoth(messages: seq<Message>, first: seq<Message>, second: seq<Message>,
                                            known: set<Message>, profile: string)
    requires Coherent(known) && IsPage(first, known) && IsPage(second, known) && OnScreen(messages, known)
    ensures Pending(MergeHistoryMessages(MergeHistoryMessages(messages, first, profile), second, profile))
            == Sorted(Live(Live(Pending(messages), first, profile), second, profile))
  {
    var one := MergeHistoryMessages(messages, first, profile);
    MergeInParts(messages, first, known, profile);
    MergeIsOrdered(messages, first, known, profile);
    MergeInParts(one, second, known, profile);
    var p := Live(Pending(messages), first, profile);
    PartsAreThat(messages);
    LiveMeans(Pending(messages), first, profile);
    forall i | 0 <= i < |p| ensures p[i].sequence <= 0 { assert p[i] in p; }
    LiveSort(p, second, profile);
    LiveMeans(p, second, profile);
    var q := Live(p, second, profile);
    forall i | 0 <= i < |q| ensures q[i].sequence <= 0 { assert q[i] in q; }
    SortSorts(q);
    StableSort.SortOfSorted(Sorted(q), Comparison());
  }
}
