/**
 The loops of the four `parse` methods that build the result lists: the
 fetch loops over the client's iterators with their every-50 progress
 reports (src/main.py:210-216, 293-299, 355-361), the members' admin
 collection (src/main.py:200-206), and the loops that turn what was
 fetched into rows (src/main.py:218-243, 301-313, 364-376, 430-441).

 A fetch iterator is given as the sequence of items it would yield. The
 stop flag is given as a budget: the number of further reads of
 `is_running` that still see true. Once a read sees false every later read
 does too, since `stop()` only ever clears the flag.
 */
module Collect {
  import opened Text
  import opened Records
  import opened Events

  /** What a fetch loop keeps of the iterator's items before a read of the flag sees false. */
  function Fetched<T>(items: seq<T>, budget: nat): (kept: seq<T>)
    ensures |kept| == Min(|items|, budget) && kept == items[..|kept|]
  {
    items[..Min(|items|, budget)]
  }

  /**
   The reports a fetch loop emits once it holds `n` items: after every
   fiftieth item, the `heading` followed by the count and a progress value that is
   the count, or the count capped at `limit` when `capped`.
   */
  function FetchReports(heading: string, n: nat, limit: int, capped: bool): seq<Event>
  {
    if n == 0 then [] else FetchReports(heading, n - 1, limit, capped) + FetchReport(heading, n, limit, capped)
  }

  /** What the fetch loop reports on reaching `n` items. */
  function FetchReport(heading: string, n: nat, limit: int, capped: bool): (e: seq<Event>)
    ensures |e| == (if n % 50 == 0 then 2 else 0) && OnlyReports(e)
  {
    if n % 50 == 0 then [Status(heading + IntToString(n)), Progress(if capped then Min(n, limit) else n)] else []
  }

  /** What the members' row loop reports on reaching `n` of `total` rows. */
  function ProcessedReport(n: nat, total: nat): (e: seq<Event>)
    ensures |e| == (if n % 50 == 0 then 2 else 0) && OnlyReports(e)
  {
    if n % 50 == 0 then [Status("🔄 Обработано: " + IntToString(n) + "/" + IntToString(total)), Progress(n)] else []
  }

  /** The reports of the members' row loop once it has built `n` of `total` rows. */
  function ProcessedReports(n: nat, total: nat): seq<Event>
  {
    if n == 0 then [] else ProcessedReports(n - 1, total) + ProcessedReport(n, total)
  }

  const MembersLabel := "📥 Получено участников: "
  const MessagesLabel := "🔄 Получено сообщений: "
  const CommentsLabel := "🔄 Получено комментариев: "

  lemma FiftiesStep(n: nat)
    requires n > 0
    ensures n / 50 == (n - 1) / 50 + (if n % 50 == 0 then 1 else 0)
  {
  }

  /** A loop over `n` items reports twice for every fifty, and emits nothing but reports. */
  lemma {:induction false} FetchReportsCount(heading: string, n: nat, limit: int, capped: bool)
    ensures |FetchReports(heading, n, limit, capped)| == 2 * (n / 50)
    ensures OnlyReports(FetchReports(heading, n, limit, capped))
  {
    if n > 0 {
      FetchReportsCount(heading, n - 1, limit, capped);
      FiftiesStep(n);
    }
  }

  /** With the cap, no progress value passes the number of items or the limit. */
  lemma {:induction false} FetchReportsBounded(heading: string, n: nat, limit: int)
    ensures forall i :: 0 <= i < |FetchReports(heading, n, limit, true)| && FetchReports(heading, n, limit, true)[i].Progress? ==>
      FetchReports(heading, n, limit, true)[i].value <= Min(n, limit)
  {
    if n > 0 {
      FetchReportsBounded(heading, n - 1, limit);
    }
  }

  lemma {:induction false} ProcessedReportsCount(n: nat, total: nat)
    ensures |ProcessedReports(n, total)| == 2 * (n / 50)
    ensures OnlyReports(ProcessedReports(n, total))
  {
    if n > 0 {
      ProcessedReportsCount(n - 1, total);
      FiftiesStep(n);
    }
  }

  /**
   An `async for` fetch loop: each turn reads the flag, stops when it is
   false, and otherwise appends the item and reports after every fiftieth.
   It keeps `Fetched(items, budget)` and uses one read per kept item.
   */
  method FetchLoop<T>(items: seq<T>, budget: nat, heading: string, limit: int, capped: bool)
    returns (fetched: seq<T>, rest: nat, events: seq<Event>)
    ensures fetched == Fetched(items, budget)
    ensures rest == budget - |fetched|
    ensures events == FetchReports(heading, |fetched|, limit, capped)
  {
    fetched := [];
    rest := budget;
    events := [];
    var i := 0;
    while i < |items|
      invariant 0 <= i <= |items| && i <= budget
      invariant fetched == items[..i] && rest == budget - i
      invariant events == FetchReports(heading, i, limit, capped)
    {
      if rest == 0 {
        break;
      }
      rest := rest - 1;
      fetched := fetched + [items[i]];
      events := events + FetchReport(heading, |fetched|, limit, capped);
      assert items[..i + 1] == items[..i] + [items[i]];
      i := i + 1;
    }
  }

  /** The set of the ids an admin iterator yields. */
  function AdminIds(ids: seq<int>): set<int>
  {
    set id | id in ids
  }

  /**
   `admin_ids` of the members parser: the ids its admin iterator yields
   before it ends or fails; a failure is swallowed and keeps what was added.
   */
  method CollectAdmins(ids: seq<int>) returns (admins: set<int>)
    ensures forall id :: id in admins <==> id in ids
    ensures admins == AdminIds(ids)
  {
    admins := {};
    var i := 0;
    while i < |ids|
      invariant 0 <= i <= |ids|
      invariant forall id :: id in admins <==> id in ids[..i]
    {
      admins := admins + {ids[i]};
      assert ids[..i + 1] == ids[..i] + [ids[i]];
      i := i + 1;
    }
    assert ids[..|ids|] == ids;
  }

  /**
   The members' row loop (src/main.py:218-243): it reads the flag before
   each member, so a stop keeps the rows built so far, and reports after
   every fiftieth row.
   */
  method BuildMemberRows(members: seq<User>, admins: set<int>, budget: nat)
    returns (rows: seq<Row>, rest: nat, events: seq<Event>)
    ensures rows == MemberRows(Fetched(members, budget), admins)
    ensures rest == budget - |rows|
    ensures events == ProcessedReports(|rows|, |members|)
  {
    rows := [];
    rest := budget;
    events := [];
    var i := 0;
    while i < |members|
      invariant 0 <= i <= |members| && i <= budget
      invariant rows == MemberRows(members[..i], admins) && rest == budget - i
      invariant events == ProcessedReports(i, |members|)
    {
      if rest == 0 {
        break;
      }
      rest := rest - 1;
      RowsSnoc(members, MemberItem(admins), i);
      rows := rows + [MemberItem(admins)(members[i])];
      var report := ProcessedReport(i + 1, |members|);
      assert ProcessedReports(i + 1, |members|) == events + report;
      events := events + report;
      i := i + 1;
    }
    assert Fetched(members, budget) == members[..i];
  }

  /**
   The messages' row loop (src/main.py:301-313): one row per fetched
   message, with no flag reads; an entry that raises leaves the loop.
   */
  method BuildMessageRows(messages: seq<Message>) returns (rows: Result<seq<Row>>)
    ensures rows == MessageRows(messages)
  {
    var built: seq<Row> := [];
    var i := 0;
    while i < |messages|
      invariant 0 <= i <= |messages|
      invariant MessageRows(messages[..i]) == Ok(built)
    {
      TryRowsSnoc(messages, MessageItem, i);
      var entry := MessageEntry(messages[i]);
      if entry.Err? {
        TryRowsStuck(messages, MessageItem, i + 1);
        return Err(entry.error);
      }
      built := built + [MessageRow(entry.value)];
      i := i + 1;
    }
    assert messages[..i] == messages;
    return Ok(built);
  }

  /** The comments' row loop (src/main.py:364-376). */
  method BuildCommentRows(replies: seq<Message>) returns (rows: Result<seq<Row>>)
    ensures rows == CommentRows(replies)
  {
    var built: seq<Row> := [];
    var i := 0;
    while i < |replies|
      invariant 0 <= i <= |replies|
      invariant CommentRows(replies[..i]) == Ok(built)
    {
      TryRowsSnoc(replies, CommentItem, i);
      var entry := CommentEntry(replies[i]);
      if entry.Err? {
        TryRowsStuck(replies, CommentItem, i + 1);
        return Err(entry.error);
      }
      built := built + [CommentRow(entry.value)];
      i := i + 1;
    }
    assert replies[..i] == replies;
    return Ok(built);
  }

  /**
   The reactions' row loop (src/main.py:430-441): one row per user of the
   response, in its order; the limit test comes after the append, and an
   emoji lookup that raises leaves the loop.
   */
  method BuildReactionRows(users: seq<User>, reactions: seq<PeerReaction>, limit: int) returns (rows: Result<seq<Row>>)
    ensures rows == ReactionRows(users, reactions, limit)
  {
    var built: seq<Row> := [];
    var i := 0;
    while i < |users|
      invariant 0 <= i <= |users|
      invariant UserReactionRows(users[..i], reactions) == Ok(built)
      invariant 0 < i ==> i < limit
    {
      TryRowsSnoc(users, ReactionItem(reactions), i);
      var entry := ReactionEntry(users[i], reactions);
      if entry.Err? {
        var kept := users[..ReactionCount(|users|, limit)];
        assert kept[..i + 1] == users[..i + 1];
        TryRowsStuck(kept, ReactionItem(reactions), i + 1);
        return Err(entry.error);
      }
      built := built + [ReactionRow(entry.value)];
      i := i + 1;
      if |built| >= limit {
        break;
      }
    }
    assert i == ReactionCount(|users|, limit);
    return Ok(built);
  }
}
