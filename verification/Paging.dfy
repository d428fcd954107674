/**
 Cursor paging of the two chats: the newest messages first, a page at a time, each page asked for
 with the identifier of the oldest message already received.
 */
module Paging {
  import opened Domain

  type MessageId = nat

  datatype Message = Message(createdAt: Time, id: MessageId)

  /** The order of (created_at, id). */
  predicate Earlier(a: Message, b: Message) {
    a.createdAt < b.createdAt || (a.createdAt == b.createdAt && a.id < b.id)
  }

  /** Identifiers are primary keys. */
  ghost predicate Keyed(thread: seq<Message>) {
    forall j, k :: 0 <= j < k < |thread| ==> thread[j].id != thread[k].id
  }

  ghost predicate Ascending(rows: seq<Message>) {
    forall j, k :: 0 <= j < k < |rows| ==> Earlier(rows[j], rows[k])
  }

  // ---- ORDER BY created_at, id ---------------------------------------------------------------

  function Insert(m: Message, sorted: seq<Message>): seq<Message> {
    if sorted == [] || Earlier(m, sorted[0]) then [m] + sorted
    else [sorted[0]] + Insert(m, sorted[1..])
  }

  function Listing(thread: seq<Message>): seq<Message> {
    if thread == [] then [] else Insert(thread[0], Listing(thread[1..]))
  }

  function Reversed(rows: seq<Message>): seq<Message> {
    seq(|rows|, k requires 0 <= k < |rows| => rows[|rows| - 1 - k])
  }

  lemma {:induction false} InsertAscending(m: Message, sorted: seq<Message>)
    requires Ascending(sorted) && forall x :: x in sorted ==> x.id != m.id
    ensures Ascending(Insert(m, sorted))
    ensures forall x :: x in Insert(m, sorted) <==> x == m || x in sorted
    ensures |Insert(m, sorted)| == |sorted| + 1
  {
    if sorted != [] && !Earlier(m, sorted[0]) {
      var rest := sorted[1..];
      assert sorted == [sorted[0]] + rest;
      InsertAscending(m, rest);
      var tail := Insert(m, rest);
      forall k | 0 <= k < |tail|
        ensures Earlier(sorted[0], tail[k])
      {
        assert tail[k] in tail;
        assert sorted[0] in sorted;
        if tail[k] != m {
          var j :| 0 <= j < |rest| && rest[j] == tail[k];
          assert sorted[j + 1] == tail[k];
        }
      }
    } else {
      assert forall k :: 0 <= k < |sorted| ==> Earlier(m, sorted[k]);
    }
  }

  /** The listing is strictly ascending and has the messages of the thread, no more, no less. */
  lemma {:induction false} ListingAscending(thread: seq<Message>)
    requires Keyed(thread)
    ensures Ascending(Listing(thread))
    ensures forall x :: x in Listing(thread) <==> x in thread
    ensures |Listing(thread)| == |thread|
  {
    if thread != [] {
      ListingAscending(thread[1..]);
      forall x | x in Listing(thread[1..])
        ensures x.id != thread[0].id
      {
        var j :| 0 <= j < |thread[1..]| && thread[1..][j] == x;
        assert thread[j + 1] == x;
      }
      InsertAscending(thread[0], Listing(thread[1..]));
      assert forall x :: x in thread <==> x == thread[0] || x in thread[1..];
    }
  }

  lemma NoMembersNoRows(rows: seq<Message>)
    ensures (forall x :: x !in rows) ==> rows == []
  {
    if rows != [] {
      assert rows[0] in rows;
    }
  }

  /** Two ascending lists of the same messages are the same list. */
  lemma {:induction false} AscendingUnique(a: seq<Message>, b: seq<Message>)
    requires Ascending(a) && Ascending(b) && forall x :: x in a <==> x in b
    ensures a == b
  {
    if a == [] {
      NoMembersNoRows(b);
    } else {
      assert a[0] in b;
      assert b[0] in a;
      assert a[0] == b[0];
      forall x
        ensures x in a[1..] <==> x in b[1..]
      {
        RestOfAscending(a, x);
        RestOfAscending(b, x);
      }
      AscendingUnique(a[1..], b[1..]);
      assert a == [a[0]] + a[1..] && b == [b[0]] + b[1..];
    }
  }

  lemma RestOfAscending(a: seq<Message>, x: Message)
    requires Ascending(a) && a != []
    ensures x in a[1..] <==> x in a && x != a[0]
  {
    if x in a && x != a[0] {
      var k :| 0 <= k < |a| && a[k] == x;
      assert a[1..][k - 1] == x;
    }
    if x in a[1..] {
      var k :| 0 <= k < |a[1..]| && a[1..][k] == x;
      assert a[k + 1] == x;
    }
  }

  // ---- ORDER BY created_at alone -------------------------------------------------------------

  /** rows is the thread in some order of dates: messages of the same date may stand either way round. */
  ghost predicate ByDate(rows: seq<Message>, thread: seq<Message>) {
    && multiset(rows) == multiset(thread)
    && forall j, k :: 0 <= j < k < |rows| ==> rows[j].createdAt <= rows[k].createdAt
  }

  ghost predicate NoTies(rows: seq<Message>) {
    forall j, k :: 0 <= j < k < |rows| ==> rows[j].createdAt != rows[k].createdAt
  }

  lemma {:induction false} InsertPermutes(m: Message, sorted: seq<Message>)
    ensures multiset(Insert(m, sorted)) == multiset(sorted) + multiset{m}
  {
    if sorted != [] && !Earlier(m, sorted[0]) {
      assert sorted == [sorted[0]] + sorted[1..];
      InsertPermutes(m, sorted[1..]);
    }
  }

  lemma {:induction false} ListingPermutes(thread: seq<Message>)
    ensures multiset(Listing(thread)) == multiset(thread)
  {
    if thread != [] {
      assert thread == [thread[0]] + thread[1..];
      ListingPermutes(thread[1..]);
      InsertPermutes(thread[0], Listing(thread[1..]));
    }
  }

  lemma ListingByDate(thread: seq<Message>)
    requires Keyed(thread)
    ensures ByDate(Listing(thread), thread)
  {
    ListingPermutes(thread);
    ListingAscending(thread);
  }

  /** Two positions of a list without repetitions hold different messages, whatever its arrangement. */
  lemma {:induction false} Arranged(rows: seq<Message>, thread: seq<Message>)
    requires multiset(rows) == multiset(thread) && forall j, k :: 0 <= j < k < |thread| ==> thread[j] != thread[k]
    ensures forall x :: x in rows <==> x in thread
    ensures forall j, k :: 0 <= j < k < |rows| ==> rows[j] != rows[k]
  {
    forall x
      ensures x in rows <==> x in thread
    {
      assert x in multiset(rows) <==> x in multiset(thread);
    }
    forall j, k | 0 <= j < k < |rows|
      ensures rows[j] != rows[k]
    {
      if rows[j] == rows[k] {
        assert rows == rows[..j] + [rows[j]] + rows[j + 1..k] + [rows[k]] + rows[k + 1..];
        assert multiset(thread)[rows[j]] >= 2;
        OnlyOnce(thread, rows[j]);
      }
    }
  }

  lemma {:induction false} OnlyOnce(thread: seq<Message>, x: Message)
    requires forall j, k :: 0 <= j < k < |thread| ==> thread[j] != thread[k]
    ensures multiset(thread)[x] <= 1
  {
    if thread != [] {
      assert thread == [thread[0]] + thread[1..];
      OnlyOnce(thread[1..], x);
      if x == thread[0] {
        assert x !in thread[1..];
      }
    }
  }

  lemma OnlyArrangement(thread: seq<Message>, rows: seq<Message>)
    requires Keyed(thread) && NoTies(thread) && ByDate(rows, thread)
    ensures rows == Listing(thread)
  {
    Arranged(rows, thread);
    forall j, k | 0 <= j < k < |rows|
      ensures Earlier(rows[j], rows[k])
    {
      DistinctDates(thread, rows[j], rows[k]);
    }
    ListingAscending(thread);
    AscendingUnique(rows, Listing(thread));
  }

  /** Two neighbours of the same date change places. */
  function Swapped(rows: seq<Message>, at: nat): (r: seq<Message>)
    requires at + 1 < |rows|
    ensures multiset(r) == multiset(rows)
  {
    rows[at := rows[at + 1]][at + 1 := rows[at]]
  }

  lemma OtherArrangement(thread: seq<Message>, full: seq<Message>, at: nat)
    requires ByDate(full, thread) && at + 1 < |full| && full[at].createdAt == full[at + 1].createdAt
    ensures ByDate(Swapped(full, at), thread)
  {
    var rows := Swapped(full, at);
    forall j, k | 0 <= j < k < |rows|
      ensures rows[j].createdAt <= rows[k].createdAt
    {
      assert rows[j].createdAt == full[j].createdAt && rows[k].createdAt == full[k].createdAt;
    }
  }

  /** The date decides the order if and only if no two messages share theirs. */
  lemma DatesDecide(thread: seq<Message>)
    requires Keyed(thread)
    ensures (forall rows :: ByDate(rows, thread) ==> rows == Listing(thread)) <==> NoTies(thread)
  {
    var full := Listing(thread);
    if NoTies(thread) {
      forall rows | ByDate(rows, thread)
        ensures rows == full
      {
        OnlyArrangement(thread, rows);
      }
    } else {
      ListingByDate(thread);
      ListingAscending(thread);
      var j, k :| 0 <= j < k < |thread| && thread[j].createdAt == thread[k].createdAt;
      var at := Tie(full, thread[j], thread[k]);
      OtherArrangement(thread, full, at);
      assert Swapped(full, at)[at] == full[at + 1];
    }
  }

  lemma DistinctDates(thread: seq<Message>, a: Message, b: Message)
    requires NoTies(thread) && a in thread && b in thread && a != b
    ensures a.createdAt != b.createdAt
  {
    var j :| 0 <= j < |thread| && thread[j] == a;
    var k :| 0 <= k < |thread| && thread[k] == b;
    assert j < k || k < j;
  }

  /** Two messages of the same date leave two neighbours of the same date in the sorted list. */
  lemma Tie(full: seq<Message>, a: Message, b: Message) returns (at: nat)
    requires Ascending(full) && a in full && b in full && a != b && a.createdAt == b.createdAt
    ensures at + 1 < |full| && full[at].createdAt == full[at + 1].createdAt && full[at] != full[at + 1]
  {
    var j :| 0 <= j < |full| && full[j] == a;
    var k :| 0 <= k < |full| && full[k] == b;
    at := if j < k then j else k;
    var other := if j < k then k else j;
    assert Earlier(full[at], full[at + 1]);
    assert at + 1 < other ==> Earlier(full[at + 1], full[other]);
  }

  // ---- One request ---------------------------------------------------------------------------

  datatype LimitParam = Absent | Malformed | Number(value: int)

  datatype Reply =
    | Everything(history: seq<Message>)
    | Page(rows: seq<Message>, hasMore: bool, nextBefore: Option<MessageId>)
    | Invalid

  /** At least 1, at most 100. */
  function Clamped(limit: int): nat {
    if limit < 1 then 1 else if limit > 100 then 100 else limit
  }

  function Find(thread: seq<Message>, id: MessageId): Option<Message> {
    if thread == [] then None
    else if thread[0].id == id then Some(thread[0])
    else Find(thread[1..], id)
  }

  function Below(thread: seq<Message>, cursor: Option<Message>): seq<Message> {
    if cursor.None? then thread
    else if thread == [] then []
    else (if Earlier(thread[0], cursor.value) then [thread[0]] else []) + Below(thread[1..], cursor)
  }

  /** The last `limit` messages of a list, oldest first, and how to ask for those before. */
  function LastPage(older: seq<Message>, limit: nat): Reply
    requires limit >= 1
  {
    if |older| > limit then
      Page(older[|older| - limit..], true, Some(older[|older| - limit].id))
    else
      Page(older, false, None)
  }

  function PageBefore(thread: seq<Message>, limit: nat, cursor: Option<Message>): Reply
    requires limit >= 1
  {
    LastPage(Listing(Below(thread, cursor)), limit)
  }

  function Serve(thread: seq<Message>, limit: LimitParam, before: Option<MessageId>): Reply {
    match limit
    case Absent => Everything(Listing(thread))
    case Malformed => Invalid
    case Number(n) =>
      if before.None? then PageBefore(thread, Clamped(n), None)
      else
        var cursor := Find(thread, before.value);
        if cursor.None? then Invalid else PageBefore(thread, Clamped(n), cursor)
  }

  lemma ReversedTwice(rows: seq<Message>)
    ensures Reversed(Reversed(rows)) == rows
  {
  }

  /** Taking the newest rows and turning them round gives the end of the listing. */
  lemma NewestTurnedRound(older: seq<Message>, limit: nat)
    requires 1 <= limit < |older|
    ensures Reversed(older)[..limit + 1][..limit] == Reversed(older)[..limit]
    ensures Reversed(Reversed(older)[..limit]) == older[|older| - limit..]
    ensures Reversed(older)[limit - 1] == older[|older| - limit]
  {
  }

  /** Newest first, one row more than asked for, to know whether older ones remain; then turned round. */
  method TakePage(older: seq<Message>, limit: nat) returns (reply: Reply)
    requires limit >= 1
    ensures reply == LastPage(older, limit)
  {
    var newestFirst := Reversed(older);
    var rows := if |newestFirst| < limit + 1 then newestFirst else newestFirst[..limit + 1];
    var hasMore := |rows| > limit;
    if hasMore {
      NewestTurnedRound(older, limit);
      rows := rows[..limit];
    } else {
      ReversedTwice(older);
    }
    var nextBefore := None;
    if rows != [] && hasMore {
      nextBefore := Some(rows[|rows| - 1].id);
    }
    rows := Reversed(rows);
    return Page(rows, hasMore, nextBefore);
  }

  // ---- What a page is ------------------------------------------------------------------------

  /** The messages a page is cut from: all, or those before the cursor by date and then identifier. */
  ghost function OlderThan(thread: seq<Message>, before: Option<MessageId>): set<Message> {
    set x | x in thread && (before.Some? ==> exists c :: c in thread && c.id == before.value && ByDateAndId(x, c))
  }

  /**
   The answer owed to a request with the limit n: refused if and only if the cursor is not in the thread; else
   the newest of the older messages, between 1 and 100 of them as n asks, by date and then identifier, and a
   cursor for the rest if and only if there is a rest.
   */
  ghost predicate IsAnswer(thread: seq<Message>, n: int, before: Option<MessageId>, reply: Reply) {
    if before.Some? && forall c :: c in thread ==> c.id != before.value then reply.Invalid?
    else
      var older := OlderThan(thread, before);
      var size := if n < 1 then 1 else if n > 100 then 100 else n;
      && reply.Page?
      && |reply.rows| == (if |older| < size then |older| else size)
      && (reply.hasMore <==> |older| > size)
      && reply.nextBefore == (if reply.hasMore then Some(reply.rows[0].id) else None)
      && (forall x :: x in reply.rows ==> x in older)
      && (forall j, k :: 0 <= j < k < |reply.rows| ==> ByDateAndId(reply.rows[j], reply.rows[k]))
      && (forall x, y :: x in older && x !in reply.rows && y in reply.rows ==> ByDateAndId(x, y))
  }

  predicate ByDateAndId(a: Message, b: Message) {
    a.createdAt < b.createdAt || (a.createdAt == b.createdAt && a.id < b.id)
  }

  lemma {:induction false} SizeOfAscending(rows: seq<Message>)
    requires Ascending(rows)
    ensures |set x | x in rows| == |rows|
  {
    if rows == [] {
      assert (set x | x in rows) == {};
    } else {
      SizeOfAscending(rows[1..]);
      assert (set x | x in rows) == (set x | x in rows[1..]) + {rows[0]} by {
        assert forall x :: x in rows <==> x == rows[0] || x in rows[1..];
      }
      assert rows[0] !in rows[1..];
    }
  }

  lemma {:induction false} FindFails(thread: seq<Message>, id: MessageId)
    ensures Find(thread, id).None? <==> forall c :: c in thread ==> c.id != id
    ensures Find(thread, id).Some? ==> Find(thread, id).value in thread && Find(thread, id).value.id == id
  {
    if thread != [] && thread[0].id != id {
      FindFails(thread[1..], id);
      assert forall c :: c in thread <==> c == thread[0] || c in thread[1..];
    }
  }

  lemma OnlyOne(thread: seq<Message>, a: Message, b: Message)
    requires Keyed(thread) && a in thread && b in thread && a.id == b.id
    ensures a == b
  {
    var j :| 0 <= j < |thread| && thread[j] == a;
    var k :| 0 <= k < |thread| && thread[k] == b;
    assert j < k || k < j || j == k;
  }

  lemma BelowIsOlder(thread: seq<Message>, before: Option<MessageId>)
    requires Keyed(thread) && (before.Some? ==> Find(thread, before.value).Some?)
    ensures var older := Below(thread, if before.None? then None else Find(thread, before.value));
            Keyed(older) && OlderThan(thread, before) == set x | x in older
  {
    if before.None? {
      BelowKeyed(thread, None);
    } else {
      FindFails(thread, before.value);
      var cursor := Find(thread, before.value).value;
      BelowKeyed(thread, Some(cursor));
      forall c | c in thread && c.id == before.value
        ensures c == cursor
      {
        OnlyOne(thread, c, cursor);
      }
    }
  }

  lemma InTail(full: seq<Message>, cut: nat, j: nat)
    requires cut <= |full| && j < |full|
    ensures j >= cut ==> full[j] in full[cut..]
  {
    if j >= cut {
      assert full[cut..][j - cut] == full[j];
    }
  }

  lemma CutIsAnswer(full: seq<Message>, size: nat)
    requires size >= 1 && Ascending(full)
    ensures var reply := LastPage(full, size);
            && |reply.rows| == (if |full| < size then |full| else size)
            && (reply.hasMore <==> |full| > size)
            && reply.nextBefore == (if reply.hasMore then Some(reply.rows[0].id) else None)
            && (forall x :: x in reply.rows ==> x in full)
            && (forall j, k :: 0 <= j < k < |reply.rows| ==> ByDateAndId(reply.rows[j], reply.rows[k]))
            && (forall x, y :: x in full && x !in reply.rows && y in reply.rows ==> ByDateAndId(x, y))
  {
    var reply := LastPage(full, size);
    var cut := |full| - |reply.rows|;
    assert reply.rows == full[cut..];
    forall x, y | x in full && x !in reply.rows && y in reply.rows
      ensures ByDateAndId(x, y)
    {
      var j :| 0 <= j < |full| && full[j] == x;
      var k :| 0 <= k < |reply.rows| && reply.rows[k] == y;
      InTail(full, cut, j);
      assert full[cut + k] == y;
    }
  }

  lemma ServeAnswers(thread: seq<Message>, n: int, before: Option<MessageId>)
    requires Keyed(thread)
    ensures IsAnswer(thread, n, before, Serve(thread, Number(n), before))
  {
    if before.Some? {
      FindFails(thread, before.value);
    }
    if before.None? || Find(thread, before.value).Some? {
      var older := Below(thread, if before.None? then None else Find(thread, before.value));
      BelowIsOlder(thread, before);
      ListingAscending(older);
      SizeOfAscending(Listing(older));
      assert (set x | x in Listing(older)) == OlderThan(thread, before);
      CutIsAnswer(Listing(older), Clamped(n));
    }
  }

  /** IncidentChatView.get */
  method GetChat(thread: seq<Message>, limitParam: LimitParam, before: Option<MessageId>) returns (reply: Reply)
    ensures reply == Serve(thread, limitParam, before)
    ensures limitParam.Malformed? ==> reply.Invalid?
    ensures limitParam.Number? && Keyed(thread) ==> IsAnswer(thread, limitParam.value, before, reply)
  {
    if limitParam.Absent? {
      return Everything(Listing(thread));
    }
    reply := GetPage(thread, limitParam, before);
  }

  /**
   DiscussionMessageView.list. Without a limit the messages are ordered by date alone: plain is the
   arrangement the database happened to return.
   */
  method ListDiscussion(thread: seq<Message>, plain: seq<Message>, limitParam: LimitParam, before: Option<MessageId>)
    returns (reply: Reply)
    requires ByDate(plain, thread)
    ensures reply == if limitParam.Absent? then Everything(plain) else Serve(thread, limitParam, before)
    ensures limitParam.Malformed? ==> reply.Invalid?
    ensures limitParam.Number? && Keyed(thread) ==> IsAnswer(thread, limitParam.value, before, reply)
  {
    if limitParam.Absent? {
      return Everything(plain);
    }
    reply := GetPage(thread, limitParam, before);
  }

  /** What both views do with a limit. */
  method GetPage(thread: seq<Message>, limitParam: LimitParam, before: Option<MessageId>) returns (reply: Reply)
    requires !limitParam.Absent?
    ensures reply == Serve(thread, limitParam, before)
    ensures limitParam.Malformed? ==> reply.Invalid?
    ensures limitParam.Number? && Keyed(thread) ==> IsAnswer(thread, limitParam.value, before, reply)
  {
    if limitParam.Malformed? {
      return Invalid;
    }
    if Keyed(thread) {
      ServeAnswers(thread, limitParam.value, before);
    }
    var limit := limitParam.value;
    if limit > 100 {
      limit := 100;
    }
    if limit < 1 {
      limit := 1;
    }
    var rows := thread;
    if before.Some? {
      var cursor := Find(thread, before.value);
      if cursor.None? {
        return Invalid;
      }
      rows := Below(thread, cursor);
    }
    reply := TakePage(Listing(rows), limit);
  }

  lemma {:induction false} FindFinds(thread: seq<Message>, m: Message)
    requires Keyed(thread) && m in thread
    ensures Find(thread, m.id) == Some(m)
  {
    if thread[0] != m {
      var k :| 0 <= k < |thread| && thread[k] == m;
      assert thread[1..][k - 1] == m;
      FindFinds(thread[1..], m);
    }
  }

  lemma {:induction false} BelowKeyed(thread: seq<Message>, cursor: Option<Message>)
    requires Keyed(thread)
    ensures Keyed(Below(thread, cursor))
    ensures forall x :: x in Below(thread, cursor) <==> x in thread && (cursor.Some? ==> Earlier(x, cursor.value))
  {
    if cursor.Some? && thread != [] {
      var rest := Below(thread[1..], cursor);
      BelowKeyed(thread[1..], cursor);
      assert forall x :: x in thread <==> x == thread[0] || x in thread[1..];
      forall k | 0 <= k < |rest|
        ensures rest[k].id != thread[0].id
      {
        assert rest[k] in thread[1..];
        var j :| 0 <= j < |thread[1..]| && thread[1..][j] == rest[k];
        assert thread[j + 1] == rest[k];
      }
    }
  }

  // ---- The walk ------------------------------------------------------------------------------

  /** Up to the cursor c, included, both threads hold the same messages: only newer ones may have come. */
  ghost predicate SameUpTo(a: seq<Message>, b: seq<Message>, c: Message) {
    forall x :: x == c || Earlier(x, c) ==> (x in a <==> x in b)
  }

  /**
   Pages asked for one after the other with the same limit, each with the previous next_before, while
   messages newer than the cursor may arrive: threads[k] is the chat at the time of request k.
   */
  ghost predicate IsWalk(threads: seq<seq<Message>>, limit: int, pages: seq<Reply>) {
    && |pages| == |threads| >= 1
    && (forall k :: 0 <= k < |threads| ==> Keyed(threads[k]))
    && pages[0] == Serve(threads[0], Number(limit), None)
    && forall k: nat :: 0 < k < |pages| ==> Resumes(threads, limit, pages, k)
  }

  ghost predicate Resumes(threads: seq<seq<Message>>, limit: int, pages: seq<Reply>, k: nat)
    requires 0 < k < |pages| == |threads|
  {
    var previous := pages[k - 1];
    && previous.Page? && previous.hasMore && previous.rows != []
    && SameUpTo(threads[k - 1], threads[k], previous.rows[0])
    && pages[k] == Serve(threads[k], Number(limit), previous.nextBefore)
  }

  /** The pages put back end to end, the last one received coming first. */
  ghost function Joined(pages: seq<Reply>): seq<Message>
    requires forall p :: p in pages ==> p.Page?
  {
    if pages == [] then [] else Joined(pages[1..]) + pages[0].rows
  }

  /** Request k has, before its cursor, exactly the first `rest` messages of the full listing. */
  ghost predicate AtRest(threads: seq<seq<Message>>, limit: int, pages: seq<Reply>, k: nat, full: seq<Message>,
                         rest: nat)
    requires k < |pages| == |threads|
  {
    && rest <= |full|
    && pages[k] == PageOfFull(full, Clamped(limit), rest)
    && (rest < |full| ==> forall x :: x == full[rest] || Earlier(x, full[rest]) ==> (x in threads[k] <==> x in full))
    && (rest == |full| ==> forall x :: x in threads[k] <==> x in full)
  }

  ghost function PageOfFull(full: seq<Message>, limit: nat, rest: nat): Reply
    requires rest <= |full| && limit >= 1
  {
    if rest > limit then Page(full[rest - limit..rest], true, Some(full[rest - limit].id))
    else Page(full[..rest], false, None)
  }

  /** The messages before full[p] are the first p of an ascending list. */
  lemma PrefixIsBelow(thread: seq<Message>, full: seq<Message>, p: nat)
    requires Keyed(thread) && Ascending(full) && p < |full|
    requires forall x :: Earlier(x, full[p]) ==> (x in thread <==> x in full)
    ensures Listing(Below(thread, Some(full[p]))) == full[..p]
  {
    var c := full[p];
    BelowKeyed(thread, Some(c));
    ListingAscending(Below(thread, Some(c)));
    forall x
      ensures x in full[..p] <==> x in full && Earlier(x, c)
    {
      if x in full && Earlier(x, c) {
        var j :| 0 <= j < |full| && full[j] == x;
        assert full[..p][j] == x;
      }
      if x in full[..p] {
        var j :| 0 <= j < p && full[j] == x;
      }
    }
    AscendingUnique(Listing(Below(thread, Some(c))), full[..p]);
  }

  lemma FirstRequest(threads: seq<seq<Message>>, limit: int, pages: seq<Reply>)
    requires IsWalk(threads, limit, pages)
    ensures var full := Listing(threads[0]);
            AtRest(threads, limit, pages, 0, full, |full|)
  {
    ListingAscending(threads[0]);
  }

  /** A page asked for with the cursor full[p] is cut from the first p messages of the listing. */
  lemma ServedBelow(thread: seq<Message>, limit: int, full: seq<Message>, p: nat)
    requires Keyed(thread) && Ascending(full) && p < |full|
    requires forall x :: x == full[p] || Earlier(x, full[p]) ==> (x in thread <==> x in full)
    ensures Serve(thread, Number(limit), Some(full[p].id)) == PageOfFull(full, Clamped(limit), p)
  {
    assert full[p] in full;
    FindFinds(thread, full[p]);
    PrefixIsBelow(thread, full, p);
  }

  lemma NextRequest(threads: seq<seq<Message>>, limit: int, pages: seq<Reply>, k: nat, full: seq<Message>, rest: nat)
    requires IsWalk(threads, limit, pages) && k + 1 < |pages| && Ascending(full)
    requires AtRest(threads, limit, pages, k, full, rest)
    ensures rest > Clamped(limit)
    ensures AtRest(threads, limit, pages, k + 1, full, rest - Clamped(limit))
  {
    assert Resumes(threads, limit, pages, k + 1);
    var p := rest - Clamped(limit);
    assert pages[k].rows[0] == full[p];
    SameBelow(threads[k], threads[k + 1], full, p, rest);
    ServedBelow(threads[k + 1], limit, full, p);
  }

  lemma SameBelow(before: seq<Message>, after: seq<Message>, full: seq<Message>, p: nat, rest: nat)
    requires Ascending(full) && p < rest <= |full| && SameUpTo(before, after, full[p])
    requires rest < |full| ==> forall x :: x == full[rest] || Earlier(x, full[rest]) ==> (x in before <==> x in full)
    requires rest == |full| ==> forall x :: x in before <==> x in full
    ensures forall x :: x == full[p] || Earlier(x, full[p]) ==> (x in after <==> x in full)
  {
    forall x | x == full[p] || Earlier(x, full[p])
      ensures x in after <==> x in full
    {
      assert x in before <==> x in after;
      if rest < |full| {
        assert Earlier(full[p], full[rest]) && Earlier(x, full[rest]);
      }
    }
  }

  /** n pages of the given size. */
  ghost function Span(n: nat, size: nat): nat {
    if n == 0 then 0 else Span(n - 1, size) + size
  }

  lemma {:induction false} SpanIsProduct(n: nat, size: nat)
    ensures Span(n, size) == n * size
  {
    if n > 0 {
      SpanIsProduct(n - 1, size);
      assert n * size == (n - 1) * size + size;
    }
  }

  /** The pages are, one after the other, the ends of the first `rest` messages of the listing still to come. */
  ghost predicate Unfolds(pages: seq<Reply>, size: nat, full: seq<Message>, rest: nat)
    requires size >= 1 && rest <= |full|
  {
    && pages != []
    && pages[0] == PageOfFull(full, size, rest)
    && (|pages| > 1 ==> rest > size && Unfolds(pages[1..], size, full, rest - size))
  }

  lemma {:induction false} RestUnfolds(threads: seq<seq<Message>>, limit: int, pages: seq<Reply>, k: nat,
                                       full: seq<Message>, rest: nat)
    requires IsWalk(threads, limit, pages) && k < |pages| && Ascending(full)
    requires AtRest(threads, limit, pages, k, full, rest)
    ensures Unfolds(pages[k..], Clamped(limit), full, rest)
    decreases |pages| - k
  {
    if k + 1 < |pages| {
      NextRequest(threads, limit, pages, k, full, rest);
      RestUnfolds(threads, limit, pages, k + 1, full, rest - Clamped(limit));
      assert pages[k..][1..] == pages[k + 1..];
    }
  }

  lemma WalkUnfolds(threads: seq<seq<Message>>, limit: int, pages: seq<Reply>)
    requires IsWalk(threads, limit, pages)
    ensures |Listing(threads[0])| == |threads[0]|
    ensures Unfolds(pages, Clamped(limit), Listing(threads[0]), |threads[0]|)
  {
    var full := Listing(threads[0]);
    ListingAscending(threads[0]);
    FirstRequest(threads, limit, pages);
    RestUnfolds(threads, limit, pages, 0, full, |full|);
    assert pages[0..] == pages;
  }

  lemma {:induction false} AllPages(pages: seq<Reply>, size: nat, full: seq<Message>, rest: nat)
    requires size >= 1 && rest <= |full| && Unfolds(pages, size, full, rest)
    ensures forall p :: p in pages ==> p.Page? && |p.rows| <= size
  {
    assert pages == [pages[0]] + pages[1..];
    if |pages| > 1 {
      AllPages(pages[1..], size, full, rest - size);
    }
  }

  /** How many pages it takes, and what they hold together. */
  lemma {:induction false} Unfolded(pages: seq<Reply>, size: nat, full: seq<Message>, rest: nat)
    requires size >= 1 && rest <= |full| && Unfolds(pages, size, full, rest)
    requires forall p :: p in pages ==> p.Page?
    ensures if rest == 0 then |pages| == 1 else Span(|pages| - 1, size) < rest
    ensures var last := pages[|pages| - 1];
            if last.hasMore then Span(|pages|, size) < rest
            else rest <= Span(|pages|, size) && Joined(pages) == full[..rest]
  {
    if |pages| == 1 {
      assert Joined(pages[1..]) == [];
    } else {
      Unfolded(pages[1..], size, full, rest - size);
      assert full[..rest] == full[..rest - size] + full[rest - size..rest];
    }
  }

  lemma WholeListing(pages: seq<Reply>, size: nat, full: seq<Message>)
    requires size >= 1 && Unfolds(pages, size, full, |full|)
    requires !pages[|pages| - 1].Page? || !pages[|pages| - 1].hasMore
    ensures forall p :: p in pages ==> p.Page?
    ensures Joined(pages) == full
    ensures if |full| == 0 then |pages| == 1 else (|pages| - 1) * size < |full| <= |pages| * size
  {
    AllPages(pages, size, full, |full|);
    Unfolded(pages, size, full, |full|);
    assert full[..|full|] == full;
    SpanIsProduct(|pages|, size);
    SpanIsProduct(|pages| - 1, size);
  }

  /**
   Following next_before until has_more is false gives every message of the chat as it was at the first
   request, in order, without gap or duplicate, ties of created_at and newer arrivals included; and it
   takes one request for an empty chat, else exactly the rounded-up quotient of its length by the limit.
   */
  lemma WalkIsExact(threads: seq<seq<Message>>, limit: int, pages: seq<Reply>)
    requires IsWalk(threads, limit, pages)
    requires pages[|pages| - 1].Page? && !pages[|pages| - 1].hasMore
    ensures forall p :: p in pages ==> p.Page?
    ensures Serve(threads[0], Absent, None) == Everything(Joined(pages))
    ensures var n, size := |threads[0]|, if limit < 1 then 1 else if limit > 100 then 100 else limit;
            && (n == 0 ==> |pages| == 1)
            && (n > 0 ==> (|pages| - 1) * size < n <= |pages| * size)
  {
    WalkUnfolds(threads, limit, pages);
    WholeListing(pages, Clamped(limit), Listing(threads[0]));
  }

  /**
   In a discussion the plain listing is ordered by date alone. The walk gives one of the lists it may be, and
   it is the only one if and only if no two messages share their date.
   */
  lemma DiscussionWalk(threads: seq<seq<Message>>, limit: int, pages: seq<Reply>)
    requires IsWalk(threads, limit, pages)
    requires pages[|pages| - 1].Page? && !pages[|pages| - 1].hasMore
    ensures forall p :: p in pages ==> p.Page?
    ensures ByDate(Joined(pages), threads[0])
    ensures (forall plain :: ByDate(plain, threads[0]) ==> plain == Joined(pages)) <==> NoTies(threads[0])
  {
    WalkIsExact(threads, limit, pages);
    ListingByDate(threads[0]);
    DatesDecide(threads[0]);
  }

  /** No walk goes on for ever: as long as pages announce more, they have not reached the first message. */
  lemma WalkEnds(threads: seq<seq<Message>>, limit: int, pages: seq<Reply>)
    requires IsWalk(threads, limit, pages) && pages[|pages| - 1].Page? && pages[|pages| - 1].hasMore
    ensures |pages| * (if limit < 1 then 1 else if limit > 100 then 100 else limit) < |threads[0]|
  {
    var full, n := Listing(threads[0]), |threads[0]|;
    WalkUnfolds(threads, limit, pages);
    AllPages(pages, Clamped(limit), full, n);
    Unfolded(pages, Clamped(limit), full, n);
    SpanIsProduct(|pages|, Clamped(limit));
  }

  /** A walk is never refused: every request of it gets a page. */
  lemma WalkGetsPages(threads: seq<seq<Message>>, limit: int, pages: seq<Reply>)
    requires IsWalk(threads, limit, pages)
    ensures forall p :: p in pages ==>
              p.Page? && |p.rows| <= if limit < 1 then 1 else if limit > 100 then 100 else limit
  {
    WalkUnfolds(threads, limit, pages);
    AllPages(pages, Clamped(limit), Listing(threads[0]), |threads[0]|);
  }
}
