/**
 The `parse` methods of the four parser threads (src/main.py:173-253,
 278-321, 335-384, 398-449) as the sequence of events a thread produces.

 The Telegram client is given as a `Network` value: what each request it
 would send answers. The authorization is the `Round` script of the Auth
 module. The stop flag is a budget: the number of reads of `is_running`
 outside the waits of `ensure_auth` that still see true; the waits see the
 stop through the script's `Stopped` answers.
 */
module Jobs {
  import opened Text
  import opened Records
  import opened Events
  import opened Links
  import opened Auth
  import opened Collect

  datatype JobKind = MembersJob | MessagesJob | CommentsJob | ReactionsJob

  predicate IsPostJob(kind: JobKind) { kind == CommentsJob || kind == ReactionsJob }

  /** A resolved chat, channel or user: its `title` attribute, if it has one, and whether it is a channel. */
  datatype Entity = Entity(title: Option<string>, isChannel: bool)

  /** `getattr(entity, 'title', fallback)`. */
  function TitleOr(e: Entity, fallback: string): string
  {
    if e.title.Some? then e.title.value else fallback
  }

  /** The `users` and `reactions` of a `GetMessageReactionsListRequest` response. */
  datatype ReactionList = ReactionList(users: seq<User>, reactions: seq<PeerReaction>)

  /** What the client answers to each request a job may send; an `Err` is the exception it raises. */
  datatype Network = Network(
    lookup: Result<Entity>,           // get_entity
    fullChat: Result<int>,            // GetFullChannelRequest, its participants_count
    adminIds: seq<int>,               // the admin iterator: the ids it yields before it ends or fails
    participants: seq<User>,          // iter_participants(entity, limit=limit)
    history: seq<Message>,            // iter_messages(entity, limit=limit)
    replies: seq<Message>,            // iter_messages(entity, limit=limit, reply_to=post id)
    reactions: Result<ReactionList>)  // GetMessageReactionsListRequest

  const InitText := "🔄 Инициализация клиента…"
  function SearchText(chat: string): string { "🔍 Поиск группы: @" + chat }
  function NotFoundText(e: string): string { "❌ Не удалось найти группу: " + e }
  function CrashText(e: string): string { "❌ Критическая ошибка: " + e }
  function GroupText(title: string): string { "📊 Группа: " + title }
  function MemberCountText(count: string): string { "👥 Участников: " + count }
  const UnknownCount := "Неизвестно"
  function ChatText(name: string): string { "💬 Чат: " + name }
  const FetchingMessagesText := "📥 Получаю сообщения…"
  function MessagesTitle(name: string): string { "Сообщения чата " + name }
  const BadCommentLinkText := "❌ Некорректная ссылка на пост"
  const BadReactionLinkText := "❌ Неверная ссылка на пост"
  /** The text of the `ValueError` that `int()` raises (the quoting of Python's `repr` is not modelled). */
  function IntErrorText(s: string): string { "invalid literal for int() with base 10: '" + s + "'" }
  function CommentPostText(title: string, id: int): string { "📄 Канал: " + title + " | Пост #" + IntToString(id) }
  const FetchingCommentsText := "💬 Получаю комментарии…"
  function CommentsTitle(id: int): string { "Комментарии к посту #" + IntToString(id) }
  function ReactionPostText(title: string, id: int): string { "📄 Канал/чат: " + title + " | Пост #" + IntToString(id) }
  function ReactionsErrorText(e: string): string { "ℹ️ Ошибка получения реакций: " + e }
  function ReactionsTitle(id: int): string { "Реакции поста #" + IntToString(id) }

  function BadLinkText(kind: JobKind): string
  {
    if kind == CommentsJob then BadCommentLinkText else BadReactionLinkText
  }

  // ---------------------------------------------------------------------------
  // The jobs
  // ---------------------------------------------------------------------------

  /**
   The events of one run of a job's `parse`. The first read of the flag
   comes before anything else; the reactions thread emits no initialisation
   status; every job ends after `ensure_auth` unless it returned true, with
   the crash error under the flag when it raised.
   */
  function Run(kind: JobKind, link: string, limit: int, script: Round, budget: nat, net: Network): seq<Event>
  {
    RunAfter(kind, link, limit, Handshake(script), budget, net)
  }

  /** A run whose `ensure_auth` produces `auth`. */
  function RunAfter(kind: JobKind, link: string, limit: int, auth: AuthResult, budget: nat, net: Network): seq<Event>
  {
    if budget == 0 then [] else Intro(kind) + Authorized(auth, budget - 1, Body(kind, link, limit, budget - 1, net))
  }

  /** A run whose first read of the flag sees true goes on with one read fewer. */
  lemma RunAfterStarts(kind: JobKind, link: string, limit: int, auth: AuthResult, budget: nat, net: Network)
    requires budget > 0
    ensures RunAfter(kind, link, limit, auth, budget, net) == Intro(kind) + Authorized(auth, budget - 1, Body(kind, link, limit, budget - 1, net))
  {
  }

  function Intro(kind: JobKind): seq<Event>
  {
    if kind == ReactionsJob then [] else [Status(InitText)]
  }

  /** The initialisation status is of no counted kind. */
  lemma IntroCounts(kind: JobKind, k: Kind)
    ensures Count(Intro(kind), k) == 0
  {
    if kind != ReactionsJob {
      assert Intro(kind) == [Status(InitText)];
    }
  }

  /**
   The handshake's events, then the body's when it returned true, or what
   the job does when it did not, with `left` reads of the flag still true.
   */
  function Authorized(auth: AuthResult, left: nat, body: seq<Event>): seq<Event>
  {
    auth.trace + (if auth.ok then body else AuthFailed(auth, left))
  }

  /**
   After `ensure_auth` did not return true: a job returns at once when it
   returned false, and an exception that left it reaches the generic
   handler, which reports it under `if self.is_running:`.
   */
  function AuthFailed(auth: AuthResult, left: nat): seq<Event>
  {
    match auth.raised
    case None => []
    case Some(e) => IfRunning(left, Error(CrashText(e)))
  }

  /** What a job does after a failed handshake is at most the crash error, and never a lookup or a result. */
  lemma AuthFailedEvents(auth: AuthResult, left: nat)
    ensures EndsOnce(AuthFailed(auth, left)) && !EndsFinished(AuthFailed(auth, left))
    ensures Count(AuthFailed(auth, left), LookupKind) == 0 && Count(AuthFailed(auth, left), FinishKind) == 0
  {
    if auth.raised.Some? && left > 0 {
      var t := [Error(CrashText(auth.raised.value))];
      assert AuthFailed(auth, left) == t;
      assert t[..0] == [];
    }
  }

  /** An event emitted under `if self.is_running:`. */
  function IfRunning(budget: nat, e: Event): seq<Event>
  {
    if budget > 0 then [e] else []
  }

  /**
   The end of a job whose row loop may raise: the result under the final
   `if self.is_running:`, or, when an entry raised, the generic handler's
   error under its own read of the flag.
   */
  function Delivered(left: nat, title: string, rows: Result<seq<Row>>): seq<Event>
  {
    match rows
    case Ok(r) => IfRunning(left, Finished(title, r))
    case Err(e) => IfRunning(left, Error(CrashText(e)))
  }

  /** What a job does once authorized, with `budget` reads of the flag left. */
  function Body(kind: JobKind, link: string, limit: int, budget: nat, net: Network): seq<Event>
  {
    match kind
    case MembersJob => if budget == 0 then [] else MembersBody(CleanLink(link), limit, budget - 1, net)
    case MessagesJob => MessagesBody(CleanLink(link), budget, net)
    case CommentsJob => PostBody(kind, link, limit, budget, net)
    case ReactionsJob => PostBody(kind, link, limit, budget, net)
  }

  /** src/main.py:187-246 after the second read of the flag. */
  function MembersBody(chat: string, limit: int, budget: nat, net: Network): seq<Event>
  {
    [Status(SearchText(chat)), GetEntity(chat)] + MembersFound(limit, budget, net)
  }

  function MembersFound(limit: int, budget: nat, net: Network): seq<Event>
  {
    match net.lookup
    case Err(e) => [Error(NotFoundText(e))]
    case Ok(entity) => MembersOf(entity, limit, budget, net)
  }

  /** A channel's full-chat request failing is caught by the generic handler. */
  function MembersOf(entity: Entity, limit: int, budget: nat, net: Network): seq<Event>
  {
    if entity.isChannel && net.fullChat.Err? then IfRunning(budget, Error(CrashText(net.fullChat.error)))
    else MembersCounted(entity, if entity.isChannel then IntToString(net.fullChat.value) else UnknownCount, limit, budget, net)
  }

  function MembersCounted(entity: Entity, count: string, limit: int, budget: nat, net: Network): seq<Event>
  {
    [Status(GroupText(TitleOr(entity, ""))), Status(MemberCountText(count))]
      + MembersCollected(TitleOr(entity, ""), limit, budget, net)
  }

  /** The fetch loop, the row loop and the final read of the flag. */
  function MembersCollected(title: string, limit: int, budget: nat, net: Network): seq<Event>
  {
    var fetched := Fetched(net.participants, budget);
    MembersBuilt(title, limit, fetched, budget - |fetched|, AdminIds(net.adminIds))
  }

  /** The row loop over the `fetched` members with `left` reads of the flag remaining, then the final read. */
  function MembersBuilt(title: string, limit: int, fetched: seq<User>, left: nat, admins: set<int>): seq<Event>
  {
    var rows := MemberRows(Fetched(fetched, left), admins);
    FetchReports(MembersLabel, |fetched|, limit, true) + ProcessedReports(|rows|, |fetched|)
      + IfRunning(left - |rows|, Finished(title, rows))
  }

  /** src/main.py:287-315: a failed lookup reaches the generic handler. */
  function MessagesBody(chat: string, budget: nat, net: Network): seq<Event>
  {
    [GetEntity(chat)] + MessagesFound(chat, budget, net)
  }

  function MessagesFound(chat: string, budget: nat, net: Network): seq<Event>
  {
    match net.lookup
    case Err(e) => IfRunning(budget, Error(CrashText(e)))
    case Ok(entity) => MessagesCollected(TitleOr(entity, chat), budget, net.history)
  }

  function MessagesCollected(name: string, budget: nat, history: seq<Message>): seq<Event>
  {
    var fetched := Fetched(history, budget);
    [Status(ChatText(name)), Status(FetchingMessagesText)] + FetchReports(MessagesLabel, |fetched|, 0, false)
      + Delivered(budget - |fetched|, MessagesTitle(name), MessageRows(fetched))
  }

  /**
   src/main.py:344-350 and 406-412: the split of the post link, then
   `int()` of the id, whose failure reaches the generic handler.
   */
  function PostBody(kind: JobKind, link: string, limit: int, budget: nat, net: Network): seq<Event>
  {
    match SplitPostLink(link)
    case None => [Error(BadLinkText(kind))]
    case Some(post) => PostParsed(kind, post, limit, budget, net)
  }

  function PostParsed(kind: JobKind, post: PostLink, limit: int, budget: nat, net: Network): seq<Event>
  {
    match ParseInt(post.idText)
    case None => IfRunning(budget, Error(CrashText(IntErrorText(post.idText))))
    case Some(id) => [GetEntity(post.channel)] + PostFound(kind, post.channel, id, limit, budget, net)
  }

  function PostFound(kind: JobKind, channel: string, id: int, limit: int, budget: nat, net: Network): seq<Event>
  {
    match net.lookup
    case Err(e) => IfRunning(budget, Error(CrashText(e)))
    case Ok(entity) =>
      if kind == CommentsJob then CommentsCollected(TitleOr(entity, channel), id, limit, budget, net.replies)
      else ReactionsCollected(TitleOr(entity, channel), id, limit, budget, net.reactions)
  }

  /** src/main.py:353-378. */
  function CommentsCollected(name: string, id: int, limit: int, budget: nat, replies: seq<Message>): seq<Event>
  {
    var fetched := Fetched(replies, budget);
    [Status(CommentPostText(name, id)), Status(FetchingCommentsText)] + FetchReports(CommentsLabel, |fetched|, limit, true)
      + Delivered(budget - |fetched|, CommentsTitle(id), CommentRows(fetched))
  }

  /** src/main.py:414-443: a failed request is reported whatever the flag says. */
  function ReactionsCollected(name: string, id: int, limit: int, budget: nat, response: Result<ReactionList>): seq<Event>
  {
    [Status(ReactionPostText(name, id))] + ReactionsAnswered(id, limit, budget, response)
  }

  function ReactionsAnswered(id: int, limit: int, budget: nat, response: Result<ReactionList>): seq<Event>
  {
    match response
    case Err(e) => [Error(ReactionsErrorText(e))]
    case Ok(list) => Delivered(budget, ReactionsTitle(id), ReactionRows(list.users, list.reactions, limit))
  }

  // ---------------------------------------------------------------------------
  // What a job delivers
  // ---------------------------------------------------------------------------

  /** Every request the body sends after the handshake succeeds. */
  predicate BodyReaches(kind: JobKind, link: string, net: Network)
  {
    && net.lookup.Ok?
    && (kind == MembersJob && net.lookup.value.isChannel ==> net.fullChat.Ok?)
    && (IsPostJob(kind) ==> SplitPostLink(link).Some? && ParseInt(SplitPostLink(link).value.idText).Some?)
    && (kind == ReactionsJob ==> net.reactions.Ok?)
  }

  /** The post id a post job parses from its link. */
  function PostId(link: string): int
    requires SplitPostLink(link).Some? && ParseInt(SplitPostLink(link).value.idText).Some?
  {
    ParseInt(SplitPostLink(link).value.idText).value
  }

  /** The title of the result a job delivers. */
  function ResultTitle(kind: JobKind, link: string, net: Network): string
    requires BodyReaches(kind, link, net)
  {
    match kind
    case MembersJob => TitleOr(net.lookup.value, "")
    case MessagesJob => MessagesTitle(TitleOr(net.lookup.value, CleanLink(link)))
    case CommentsJob => CommentsTitle(PostId(link))
    case ReactionsJob => ReactionsTitle(PostId(link))
  }

  /**
   The rows of everything the client yields, with nothing cut short by a
   stop, or the exception of the first entry that raises.
   */
  function AllRows(kind: JobKind, limit: int, net: Network): Result<seq<Row>>
    requires kind == ReactionsJob ==> net.reactions.Ok?
  {
    match kind
    case MembersJob => Ok(MemberRows(net.participants, AdminIds(net.adminIds)))
    case MessagesJob => MessageRows(net.history)
    case CommentsJob => CommentRows(net.replies)
    case ReactionsJob => ReactionRows(net.reactions.value.users, net.reactions.value.reactions, limit)
  }

  /** Every request the body sends succeeds and every entry of the result is built. */
  predicate Delivers(kind: JobKind, link: string, limit: int, net: Network)
  {
    BodyReaches(kind, link, net) && AllRows(kind, limit, net).Ok?
  }

  /**
   The reads of the flag a run makes when nobody stops it: the first, the
   members' second, one per item of each fetch or row loop that checks the
   flag, and the final one.
   */
  function Reads(kind: JobKind, net: Network): nat
  {
    match kind
    case MembersJob => 3 + 2 * |net.participants|
    case MessagesJob => 2 + |net.history|
    case CommentsJob => 2 + |net.replies|
    case ReactionsJob => 2
  }

  predicate EndsFinished(t: seq<Event>) { t != [] && t[|t| - 1].Finished? }

  /** The last event of `t` is `e`. */
  predicate EndsWith(t: seq<Event>, e: Event) { t != [] && t[|t| - 1] == e }

  /** `t` holds `first` and then `second` from position `at` on. */
  predicate OpensWith(t: seq<Event>, at: nat, first: Event, second: Event)
  {
    at + 1 < |t| && t[at] == first && t[at + 1] == second
  }

  lemma FinishedAfter(front: seq<Event>, tail: seq<Event>)
    requires Count(front, FinishKind) == 0
    ensures EndsFinished(front + tail) <==> EndsFinished(tail)
    ensures EndsFinished(tail) ==> (front + tail)[|front + tail| - 1] == tail[|tail| - 1]
  {
    if tail == [] {
      assert front + tail == front;
    }
  }

  /**
   A job delivers a result exactly when the handshake and every request
   succeed and nobody stops it before its last read of the flag; the result
   then holds the rows of everything the client yielded. A stop in the
   middle of a loop never delivers the rows built so far.
   */
  lemma FinishedExactly(kind: JobKind, link: string, limit: int, script: Round, budget: nat, net: Network)
    ensures var t := Run(kind, link, limit, script, budget, net);
      && (EndsFinished(t) <==> Handshake(script).ok && Delivers(kind, link, limit, net) && budget >= Reads(kind, net))
      && (EndsFinished(t) ==> Delivers(kind, link, limit, net) && t[|t| - 1] == Finished(ResultTitle(kind, link, net), AllRows(kind, limit, net).value))
  {
    HandshakeStaysOut(script, FinishKind);
    FinishedExactlyAfter(kind, link, limit, Handshake(script), budget, net);
  }

  lemma FinishedExactlyAfter(kind: JobKind, link: string, limit: int, auth: AuthResult, budget: nat, net: Network)
    requires Count(auth.trace, FinishKind) == 0
    ensures var t := RunAfter(kind, link, limit, auth, budget, net);
      && (EndsFinished(t) <==> auth.ok && Delivers(kind, link, limit, net) && budget >= Reads(kind, net))
      && (EndsFinished(t) ==> Delivers(kind, link, limit, net) && t[|t| - 1] == Finished(ResultTitle(kind, link, net), AllRows(kind, limit, net).value))
  {
    if budget > 0 {
      RunStartedFinished(kind, link, limit, auth, budget, net);
    }
  }

  lemma RunStartedFinished(kind: JobKind, link: string, limit: int, auth: AuthResult, budget: nat, net: Network)
    requires Count(auth.trace, FinishKind) == 0 && budget > 0
    ensures var t := RunAfter(kind, link, limit, auth, budget, net);
      && (EndsFinished(t) <==> auth.ok && Delivers(kind, link, limit, net) && budget >= Reads(kind, net))
      && (EndsFinished(t) ==> Delivers(kind, link, limit, net) && t[|t| - 1] == Finished(ResultTitle(kind, link, net), AllRows(kind, limit, net).value))
  {
    StartedFinished(kind, link, limit, auth, budget - 1, net);
  }

  /** The introduction, the handshake and the body with `left` reads of the flag still true; `left` is bounded below as in `StartedEndsOnce`. */
  lemma StartedFinished(kind: JobKind, link: string, limit: int, auth: AuthResult, left: int, net: Network)
    requires left >= 0 && Count(auth.trace, FinishKind) == 0
    ensures var t := Intro(kind) + Authorized(auth, left, Body(kind, link, limit, left, net));
      && (EndsFinished(t) <==> auth.ok && Delivers(kind, link, limit, net) && left + 1 >= Reads(kind, net))
      && (EndsFinished(t) ==> Delivers(kind, link, limit, net) && t[|t| - 1] == Finished(ResultTitle(kind, link, net), AllRows(kind, limit, net).value))
  {
    BodyFinished(kind, link, limit, left, net);
    IntroCounts(kind, FinishKind);
    AuthorizedFinished(Intro(kind), auth, left, Body(kind, link, limit, left, net));
  }

  /** One lemma per kind keeps each proof to the events of one job. */
  lemma BodyFinished(kind: JobKind, link: string, limit: int, left: int, net: Network)
    requires left >= 0
    ensures var t := Body(kind, link, limit, left, net);
      && (EndsFinished(t) <==> Delivers(kind, link, limit, net) && left + 1 >= Reads(kind, net))
      && (EndsFinished(t) ==> Delivers(kind, link, limit, net) && t[|t| - 1] == Finished(ResultTitle(kind, link, net), AllRows(kind, limit, net).value))
  {
    match kind
    case MembersJob => MembersJobFinished(link, limit, left, net);
    case MessagesJob => MessagesJobFinished(link, limit, left, net);
    case CommentsJob => PostFinishedExactly(CommentsJob, link, limit, left, net);
    case ReactionsJob => PostFinishedExactly(ReactionsJob, link, limit, left, net);
  }

  lemma AuthorizedFinished(front: seq<Event>, auth: AuthResult, left: nat, body: seq<Event>)
    requires Count(front, FinishKind) == 0 && Count(auth.trace, FinishKind) == 0
    ensures var t := front + Authorized(auth, left, body);
      && (EndsFinished(t) <==> auth.ok && EndsFinished(body))
      && (EndsFinished(t) ==> t[|t| - 1] == body[|body| - 1])
  {
    var rest := if auth.ok then body else AuthFailed(auth, left);
    CountAppend(front, auth.trace, FinishKind);
    assert front + Authorized(auth, left, body) == (front + auth.trace) + rest;
    AuthFailedEvents(auth, left);
    FinishedAfter(front + auth.trace, rest);
  }

  lemma MembersJobFinished(link: string, limit: int, budget: nat, net: Network)
    ensures var t := Body(MembersJob, link, limit, budget, net);
      && (EndsFinished(t) <==> Delivers(MembersJob, link, limit, net) && budget + 1 >= Reads(MembersJob, net))
      && (EndsFinished(t) ==> Delivers(MembersJob, link, limit, net) && t[|t| - 1] == Finished(ResultTitle(MembersJob, link, net), AllRows(MembersJob, limit, net).value))
  {
    if budget > 0 {
      assert Body(MembersJob, link, limit, budget, net) == MembersBody(CleanLink(link), limit, budget - 1, net);
      MembersFinishedExactly(CleanLink(link), limit, budget - 1, net);
    } else {
      assert Body(MembersJob, link, limit, budget, net) == [];
    }
  }

  lemma MessagesJobFinished(link: string, limit: int, budget: nat, net: Network)
    ensures var t := Body(MessagesJob, link, limit, budget, net);
      && (EndsFinished(t) <==> Delivers(MessagesJob, link, limit, net) && budget + 1 >= Reads(MessagesJob, net))
      && (EndsFinished(t) ==> Delivers(MessagesJob, link, limit, net) && t[|t| - 1] == Finished(ResultTitle(MessagesJob, link, net), AllRows(MessagesJob, limit, net).value))
  {
    assert Body(MessagesJob, link, limit, budget, net) == MessagesBody(CleanLink(link), budget, net);
    assert Delivers(MessagesJob, link, limit, net) <==> net.lookup.Ok? && MessageRows(net.history).Ok?;
    assert Reads(MessagesJob, net) == 2 + |net.history|;
    MessagesFinishedExactly(CleanLink(link), budget, net);
  }

  lemma MembersFinishedExactly(chat: string, limit: int, budget: nat, net: Network)
    ensures var t := MembersBody(chat, limit, budget, net);
      && (EndsFinished(t) <==> BodyReaches(MembersJob, chat, net) && budget + 2 >= Reads(MembersJob, net))
      && (EndsFinished(t) ==> net.lookup.Ok? && t[|t| - 1] == Finished(TitleOr(net.lookup.value, ""), MemberRows(net.participants, AdminIds(net.adminIds))))
  {
    FinishedAfter([Status(SearchText(chat)), GetEntity(chat)], MembersFound(limit, budget, net));
    if net.lookup.Ok? {
      MembersOfFinished(net.lookup.value, limit, budget, net);
    }
  }

  lemma MembersOfFinished(entity: Entity, limit: int, budget: nat, net: Network)
    ensures var t := MembersOf(entity, limit, budget, net);
      && (EndsFinished(t) <==> (entity.isChannel ==> net.fullChat.Ok?) && budget >= 1 + 2 * |net.participants|)
      && (EndsFinished(t) ==> t[|t| - 1] == Finished(TitleOr(entity, ""), MemberRows(net.participants, AdminIds(net.adminIds))))
  {
    if !(entity.isChannel && net.fullChat.Err?) {
      var count := if entity.isChannel then IntToString(net.fullChat.value) else UnknownCount;
      var title := TitleOr(entity, "");
      assert MembersOf(entity, limit, budget, net) == MembersCounted(entity, count, limit, budget, net);
      FinishedAfter([Status(GroupText(title)), Status(MemberCountText(count))], MembersCollected(title, limit, budget, net));
      MembersCollectedFinished(title, limit, budget, net);
    }
  }

  lemma MembersCollectedFinished(title: string, limit: int, budget: nat, net: Network)
    ensures var t := MembersCollected(title, limit, budget, net);
      && (EndsFinished(t) <==> budget >= 1 + 2 * |net.participants|)
      && (EndsFinished(t) ==> t[|t| - 1] == Finished(title, MemberRows(net.participants, AdminIds(net.adminIds))))
  {
    var fetched := Fetched(net.participants, budget);
    MembersBuiltFinished(title, limit, fetched, budget - |fetched|, AdminIds(net.adminIds));
    if budget - |fetched| > |fetched| {
      assert fetched == net.participants;
    }
  }

  /** The row loop finishes only with a read left over after every fetched member, and then lists them all. */
  lemma MembersBuiltFinished(title: string, limit: int, fetched: seq<User>, left: nat, admins: set<int>)
    ensures var t := MembersBuilt(title, limit, fetched, left, admins);
      && (EndsFinished(t) <==> left > |fetched|)
      && (EndsFinished(t) ==> t[|t| - 1] == Finished(title, MemberRows(fetched, admins)))
  {
    var built := Fetched(fetched, left);
    var rows := MemberRows(built, admins);
    var fetchReports := FetchReports(MembersLabel, |fetched|, limit, true);
    var rowReports := ProcessedReports(|rows|, |fetched|);
    FetchReportsCount(MembersLabel, |fetched|, limit, true);
    ProcessedReportsCount(|rows|, |fetched|);
    OnlyReportsAppend(fetchReports, rowReports);
    ReportsThenFinished(fetchReports + rowReports, left - |rows|, Finished(title, rows));
    if left > |fetched| {
      assert built == fetched;
    }
  }

  /** A job's end delivers its result exactly when the flag is read as true and every entry was built. */
  lemma DeliveredFinished(left: nat, title: string, rows: Result<seq<Row>>)
    ensures var t := Delivered(left, title, rows);
      && (EndsFinished(t) <==> left > 0 && rows.Ok?)
      && (EndsFinished(t) ==> rows.Ok? && t[|t| - 1] == Finished(title, rows.value))
  {
  }

  /** Progress reports and then one event read under the flag end with that event exactly when the flag is read as true. */
  lemma ReportsThenFinished(reports: seq<Event>, budget: nat, e: Event)
    requires OnlyReports(reports) && e.Finished?
    ensures EndsFinished(reports + IfRunning(budget, e)) <==> budget > 0
    ensures budget > 0 ==> (reports + IfRunning(budget, e))[|reports|] == e
  {
    OnlyReportsCount(reports, FinishKind);
    FinishedAfter(reports, IfRunning(budget, e));
  }

  lemma MessagesFinishedExactly(chat: string, budget: nat, net: Network)
    ensures var t := MessagesBody(chat, budget, net);
      && (EndsFinished(t) <==> net.lookup.Ok? && MessageRows(net.history).Ok? && budget + 1 >= Reads(MessagesJob, net))
      && (EndsFinished(t) ==> net.lookup.Ok? && MessageRows(net.history).Ok?
                              && t[|t| - 1] == Finished(MessagesTitle(TitleOr(net.lookup.value, chat)), MessageRows(net.history).value))
  {
    FinishedAfter([GetEntity(chat)], MessagesFound(chat, budget, net));
    if net.lookup.Ok? {
      MessagesCollectedFinished(TitleOr(net.lookup.value, chat), budget, net.history);
    }
  }

  lemma MessagesCollectedFinished(name: string, budget: nat, history: seq<Message>)
    ensures var t := MessagesCollected(name, budget, history);
      && (EndsFinished(t) <==> budget >= 1 + |history| && MessageRows(history).Ok?)
      && (EndsFinished(t) ==> MessageRows(history).Ok? && t[|t| - 1] == Finished(MessagesTitle(name), MessageRows(history).value))
  {
    var fetched := Fetched(history, budget);
    var front := [Status(ChatText(name)), Status(FetchingMessagesText)] + FetchReports(MessagesLabel, |fetched|, 0, false);
    FetchReportsCount(MessagesLabel, |fetched|, 0, false);
    OnlyReportsCount(front, FinishKind);
    FinishedAfter(front, Delivered(budget - |fetched|, MessagesTitle(name), MessageRows(fetched)));
    DeliveredFinished(budget - |fetched|, MessagesTitle(name), MessageRows(fetched));
    if budget - |fetched| > 0 {
      assert fetched == history;
    }
  }

  lemma PostFinishedExactly(kind: JobKind, link: string, limit: int, budget: nat, net: Network)
    requires IsPostJob(kind)
    ensures var t := PostBody(kind, link, limit, budget, net);
      && (EndsFinished(t) <==> Delivers(kind, link, limit, net) && budget + 1 >= Reads(kind, net))
      && (EndsFinished(t) ==> Delivers(kind, link, limit, net) && t[|t| - 1] == Finished(ResultTitle(kind, link, net), AllRows(kind, limit, net).value))
  {
    if SplitPostLink(link).Some? {
      var post := SplitPostLink(link).value;
      if ParseInt(post.idText).Some? {
        var id := ParseInt(post.idText).value;
        assert PostBody(kind, link, limit, budget, net) == [GetEntity(post.channel)] + PostFound(kind, post.channel, id, limit, budget, net);
        FinishedAfter([GetEntity(post.channel)], PostFound(kind, post.channel, id, limit, budget, net));
        PostFoundFinished(kind, post.channel, id, limit, budget, net);
      }
    }
  }

  lemma PostFoundFinished(kind: JobKind, channel: string, id: int, limit: int, budget: nat, net: Network)
    requires IsPostJob(kind)
    ensures var t := PostFound(kind, channel, id, limit, budget, net);
      && (EndsFinished(t) <==> net.lookup.Ok? && (kind == ReactionsJob ==> net.reactions.Ok?) && AllRows(kind, limit, net).Ok?
                               && budget + 1 >= Reads(kind, net))
      && (EndsFinished(t) ==> && (kind == ReactionsJob ==> net.reactions.Ok?) && AllRows(kind, limit, net).Ok?
                              && t[|t| - 1] == Finished(if kind == CommentsJob then CommentsTitle(id) else ReactionsTitle(id), AllRows(kind, limit, net).value))
  {
    if net.lookup.Ok? {
      var name := TitleOr(net.lookup.value, channel);
      if kind == CommentsJob {
        CommentsCollectedFinished(name, id, limit, budget, net.replies);
      } else {
        FinishedAfter([Status(ReactionPostText(name, id))], ReactionsAnswered(id, limit, budget, net.reactions));
        if net.reactions.Ok? {
          var list := net.reactions.value;
          DeliveredFinished(budget, ReactionsTitle(id), ReactionRows(list.users, list.reactions, limit));
        }
      }
    }
  }

  lemma CommentsCollectedFinished(name: string, id: int, limit: int, budget: nat, replies: seq<Message>)
    ensures var t := CommentsCollected(name, id, limit, budget, replies);
      && (EndsFinished(t) <==> budget >= 1 + |replies| && CommentRows(replies).Ok?)
      && (EndsFinished(t) ==> CommentRows(replies).Ok? && t[|t| - 1] == Finished(CommentsTitle(id), CommentRows(replies).value))
  {
    var fetched := Fetched(replies, budget);
    var front := [Status(CommentPostText(name, id)), Status(FetchingCommentsText)] + FetchReports(CommentsLabel, |fetched|, limit, true);
    FetchReportsCount(CommentsLabel, |fetched|, limit, true);
    OnlyReportsCount(front, FinishKind);
    FinishedAfter(front, Delivered(budget - |fetched|, CommentsTitle(id), CommentRows(fetched)));
    DeliveredFinished(budget - |fetched|, CommentsTitle(id), CommentRows(fetched));
    if budget - |fetched| > 0 {
      assert fetched == replies;
    }
  }

  // ---------------------------------------------------------------------------
  // The order of events
  // ---------------------------------------------------------------------------

  /**
   Every job emits at most one terminal event (a result or an error), and
   emits it last: each `parse` returns right after its `finished_signal`
   or `error_signal`.
   */
  lemma RunEndsOnce(kind: JobKind, link: string, limit: int, script: Round, budget: nat, net: Network)
    ensures EndsOnce(Run(kind, link, limit, script, budget, net))
  {
    HandshakeOutcome(script);
    HandshakeStaysOut(script, FinishKind);
    RunAfterEndsOnce(kind, link, limit, Handshake(script), EndOf(script), budget, net);
  }

  lemma RunAfterEndsOnce(kind: JobKind, link: string, limit: int, auth: AuthResult, e: Ending, budget: nat, net: Network)
    requires Reports(auth, e) && Count(auth.trace, FinishKind) == 0
    ensures EndsOnce(RunAfter(kind, link, limit, auth, budget, net))
  {
    if budget > 0 {
      RunStartedEndsOnce(kind, link, limit, auth, e, budget, net);
    }
  }

  /** A run whose first read of the flag sees true ends once. */
  lemma RunStartedEndsOnce(kind: JobKind, link: string, limit: int, auth: AuthResult, e: Ending, budget: nat, net: Network)
    requires Reports(auth, e) && Count(auth.trace, FinishKind) == 0 && budget > 0
    ensures EndsOnce(RunAfter(kind, link, limit, auth, budget, net))
  {
    StartedEndsOnce(kind, link, limit, auth, e, budget - 1, net);
  }

  /**
   The introduction, the handshake and the body with `left` reads of the
   flag still true end once. (`left` is an `int` bounded below rather than
   a `nat`, so that the caller's `budget - 1` is checked as a precondition;
   that keeps the caller's proof small.)
   */
  lemma StartedEndsOnce(kind: JobKind, link: string, limit: int, auth: AuthResult, e: Ending, left: int, net: Network)
    requires left >= 0 && Reports(auth, e) && Count(auth.trace, FinishKind) == 0
    ensures EndsOnce(Intro(kind) + Authorized(auth, left, Body(kind, link, limit, left, net)))
  {
    BodyEndsOnce(kind, link, limit, left, net);
    IntroAuthorizedEndsOnce(kind, auth, e, left, Body(kind, link, limit, left, net));
  }

  lemma IntroAuthorizedEndsOnce(kind: JobKind, auth: AuthResult, e: Ending, left: nat, body: seq<Event>)
    requires Reports(auth, e) && Count(auth.trace, FinishKind) == 0
    ensures EndsOnce(body) ==> EndsOnce(Intro(kind) + Authorized(auth, left, body))
  {
    if EndsOnce(body) {
      AuthorizedEndsOnce(auth, e, left, body);
      IntroCounts(kind, TerminalKind);
      EndsOnceAppend(Intro(kind), Authorized(auth, left, body));
    }
  }

  lemma AuthorizedEndsOnce(auth: AuthResult, e: Ending, left: nat, body: seq<Event>)
    requires Reports(auth, e) && Count(auth.trace, FinishKind) == 0 && EndsOnce(body)
    ensures EndsOnce(Authorized(auth, left, body))
  {
    TerminalSplit(auth.trace);
    if auth.ok {
      EndsOnceAppend(auth.trace, body);
    } else if auth.raised.Some? {
      AuthFailedEvents(auth, left);
      EndsOnceAppend(auth.trace, AuthFailed(auth, left));
    } else {
      assert Authorized(auth, left, body) == auth.trace;
    }
  }

  lemma IfRunningEndsOnce(budget: nat, e: Event)
    ensures EndsOnce(IfRunning(budget, e))
  {
    if budget > 0 {
      assert IfRunning(budget, e)[..0] == [];
    }
  }

  lemma DeliveredEndsOnce(left: nat, title: string, rows: Result<seq<Row>>)
    ensures EndsOnce(Delivered(left, title, rows))
  {
    match rows
    case Ok(r) => IfRunningEndsOnce(left, Finished(title, r));
    case Err(e) => IfRunningEndsOnce(left, Error(CrashText(e)));
  }

  lemma BodyEndsOnce(kind: JobKind, link: string, limit: int, budget: nat, net: Network)
    ensures EndsOnce(Body(kind, link, limit, budget, net))
  {
    if kind == MembersJob {
      if budget > 0 {
        MembersJobEndsOnce(link, limit, budget, net);
      }
    } else if kind == MessagesJob {
      MessagesEndsOnce(CleanLink(link), budget, net);
    } else {
      PostEndsOnce(kind, link, limit, budget, net);
    }
  }

  /** The members body past its second read of the flag. */
  lemma MembersJobEndsOnce(link: string, limit: int, budget: nat, net: Network)
    requires budget > 0
    ensures EndsOnce(Body(MembersJob, link, limit, budget, net))
  {
    MembersEndsOnce(CleanLink(link), limit, budget - 1, net);
  }

  lemma MembersEndsOnce(chat: string, limit: int, budget: nat, net: Network)
    ensures EndsOnce(MembersBody(chat, limit, budget, net))
  {
    var front := [Status(SearchText(chat)), GetEntity(chat)];
    assert Count(front, TerminalKind) == 0;
    match net.lookup
    case Err(e) =>
      IfRunningEndsOnce(1, Error(NotFoundText(e)));
      assert MembersFound(limit, budget, net) == IfRunning(1, Error(NotFoundText(e)));
    case Ok(entity) =>
      if entity.isChannel && net.fullChat.Err? {
        IfRunningEndsOnce(budget, Error(CrashText(net.fullChat.error)));
      } else {
        var count := if entity.isChannel then IntToString(net.fullChat.value) else UnknownCount;
        var title := TitleOr(entity, "");
        assert MembersOf(entity, limit, budget, net) == MembersCounted(entity, count, limit, budget, net);
        MembersCollectedEndsOnce(title, limit, budget, net);
        var counted := [Status(GroupText(title)), Status(MemberCountText(count))];
        assert Count(counted, TerminalKind) == 0;
        EndsOnceAppend(counted, MembersCollected(title, limit, budget, net));
      }
    EndsOnceAppend(front, MembersFound(limit, budget, net));
  }

  lemma MembersCollectedEndsOnce(title: string, limit: int, budget: nat, net: Network)
    ensures EndsOnce(MembersCollected(title, limit, budget, net))
  {
    var fetched := Fetched(net.participants, budget);
    MembersBuiltEndsOnce(title, limit, fetched, budget - |fetched|, AdminIds(net.adminIds));
  }

  lemma MembersBuiltEndsOnce(title: string, limit: int, fetched: seq<User>, left: nat, admins: set<int>)
    ensures EndsOnce(MembersBuilt(title, limit, fetched, left, admins))
  {
    var rows := MemberRows(Fetched(fetched, left), admins);
    var fetchReports := FetchReports(MembersLabel, |fetched|, limit, true);
    var rowReports := ProcessedReports(|rows|, |fetched|);
    FetchReportsCount(MembersLabel, |fetched|, limit, true);
    ProcessedReportsCount(|rows|, |fetched|);
    TwoReportsThenEnd(fetchReports, rowReports, left - |rows|, Finished(title, rows));
  }

  lemma TwoReportsThenEnd(a: seq<Event>, b: seq<Event>, budget: nat, e: Event)
    requires OnlyReports(a) && OnlyReports(b)
    ensures EndsOnce(a + b + IfRunning(budget, e))
  {
    OnlyReportsAppend(a, b);
    ReportsThenEnd(a + b, budget, e);
  }

  lemma OnlyReportsAppend(a: seq<Event>, b: seq<Event>)
    requires OnlyReports(a) && OnlyReports(b)
    ensures OnlyReports(a + b)
  {
    assert forall i :: 0 <= i < |a + b| ==> (a + b)[i] == if i < |a| then a[i] else b[i - |a|];
  }

  /** Progress reports and then at most one event end once. */
  lemma ReportsThenEnd(reports: seq<Event>, budget: nat, e: Event)
    requires OnlyReports(reports)
    ensures EndsOnce(reports + IfRunning(budget, e))
  {
    OnlyReportsCount(reports, TerminalKind);
    IfRunningEndsOnce(budget, e);
    EndsOnceAppend(reports, IfRunning(budget, e));
  }

  lemma MessagesEndsOnce(chat: string, budget: nat, net: Network)
    ensures EndsOnce(MessagesBody(chat, budget, net))
  {
    match net.lookup
    case Err(e) =>
      IfRunningEndsOnce(budget, Error(CrashText(e)));
    case Ok(entity) =>
      var name := TitleOr(entity, chat);
      var fetched := Fetched(net.history, budget);
      var front := [Status(ChatText(name)), Status(FetchingMessagesText)] + FetchReports(MessagesLabel, |fetched|, 0, false);
      FetchReportsCount(MessagesLabel, |fetched|, 0, false);
      OnlyReportsCount(front, TerminalKind);
      DeliveredEndsOnce(budget - |fetched|, MessagesTitle(name), MessageRows(fetched));
      EndsOnceAppend(front, Delivered(budget - |fetched|, MessagesTitle(name), MessageRows(fetched)));
    assert Count([GetEntity(chat)], TerminalKind) == 0;
    EndsOnceAppend([GetEntity(chat)], MessagesFound(chat, budget, net));
  }

  lemma PostEndsOnce(kind: JobKind, link: string, limit: int, budget: nat, net: Network)
    requires IsPostJob(kind)
    ensures EndsOnce(PostBody(kind, link, limit, budget, net))
  {
    match SplitPostLink(link)
    case None =>
      IfRunningEndsOnce(1, Error(BadLinkText(kind)));
      assert PostBody(kind, link, limit, budget, net) == IfRunning(1, Error(BadLinkText(kind)));
    case Some(post) =>
      match ParseInt(post.idText)
      case None =>
        IfRunningEndsOnce(budget, Error(CrashText(IntErrorText(post.idText))));
      case Some(id) =>
        PostFoundEndsOnce(kind, post.channel, id, limit, budget, net);
        assert Count([GetEntity(post.channel)], TerminalKind) == 0;
        EndsOnceAppend([GetEntity(post.channel)], PostFound(kind, post.channel, id, limit, budget, net));
  }

  lemma PostFoundEndsOnce(kind: JobKind, channel: string, id: int, limit: int, budget: nat, net: Network)
    ensures EndsOnce(PostFound(kind, channel, id, limit, budget, net))
  {
    match net.lookup
    case Err(e) =>
      IfRunningEndsOnce(budget, Error(CrashText(e)));
    case Ok(entity) =>
      var name := TitleOr(entity, channel);
      if kind == CommentsJob {
        var fetched := Fetched(net.replies, budget);
        var front := [Status(CommentPostText(name, id)), Status(FetchingCommentsText)] + FetchReports(CommentsLabel, |fetched|, limit, true);
        FetchReportsCount(CommentsLabel, |fetched|, limit, true);
        OnlyReportsCount(front, TerminalKind);
        DeliveredEndsOnce(budget - |fetched|, CommentsTitle(id), CommentRows(fetched));
        EndsOnceAppend(front, Delivered(budget - |fetched|, CommentsTitle(id), CommentRows(fetched)));
      } else {
        match net.reactions
        case Err(e) =>
          IfRunningEndsOnce(1, Error(ReactionsErrorText(e)));
          assert ReactionsAnswered(id, limit, budget, net.reactions) == IfRunning(1, Error(ReactionsErrorText(e)));
        case Ok(list) =>
          DeliveredEndsOnce(budget, ReactionsTitle(id), ReactionRows(list.users, list.reactions, limit));
        assert Count([Status(ReactionPostText(name, id))], TerminalKind) == 0;
        EndsOnceAppend([Status(ReactionPostText(name, id))], ReactionsAnswered(id, limit, budget, net.reactions));
      }
  }

  /**
   Nothing happens before `ensure_auth` but the initialisation status, no
   entity is looked up before it ends, and a job whose handshake fails, is
   cancelled or raises ends with it: no lookup, no result, and only the
   crash error, under the flag, when it raised.
   */
  lemma AuthComesFirst(kind: JobKind, link: string, limit: int, script: Round, budget: nat, net: Network)
    requires budget > 0
    ensures var t, auth, head := Run(kind, link, limit, script, budget, net), Handshake(script), Intro(kind) + Handshake(script).trace;
      && |head| <= |t| && t[..|head|] == head
      && Count(head, LookupKind) == 0
      && (!auth.ok ==> Count(t, LookupKind) == 0 && Count(t, FinishKind) == 0)
      && (!auth.ok && auth.raised == None ==> t == head)
      && (!auth.ok && auth.raised.Some? ==> t == head + IfRunning(budget - 1, Error(CrashText(auth.raised.value))))
  {
    HandshakeStaysOut(script, LookupKind);
    HandshakeStaysOut(script, FinishKind);
    AuthComesFirstAfter(kind, link, limit, Handshake(script), budget, net);
  }

  lemma AuthComesFirstAfter(kind: JobKind, link: string, limit: int, auth: AuthResult, budget: nat, net: Network)
    requires budget > 0 && Count(auth.trace, LookupKind) == 0 && Count(auth.trace, FinishKind) == 0
    ensures var t, head := RunAfter(kind, link, limit, auth, budget, net), Intro(kind) + auth.trace;
      && |head| <= |t| && t[..|head|] == head
      && Count(head, LookupKind) == 0
      && (!auth.ok ==> Count(t, LookupKind) == 0 && Count(t, FinishKind) == 0)
      && (!auth.ok ==> t == head + AuthFailed(auth, budget - 1))
  {
    IntroCounts(kind, LookupKind);
    IntroCounts(kind, FinishKind);
    AuthorizedFront(Intro(kind), auth, budget - 1, Body(kind, link, limit, budget - 1, net));
  }

  /** `front` and then the handshake come first whatever the body, and a failed handshake ends the trace. */
  lemma AuthorizedFront(front: seq<Event>, auth: AuthResult, left: nat, body: seq<Event>)
    requires Count(front, LookupKind) == 0 && Count(front, FinishKind) == 0
    requires Count(auth.trace, LookupKind) == 0 && Count(auth.trace, FinishKind) == 0
    ensures var t, head := front + Authorized(auth, left, body), front + auth.trace;
      && |head| <= |t| && t[..|head|] == head
      && Count(head, LookupKind) == 0
      && (!auth.ok ==> Count(t, LookupKind) == 0 && Count(t, FinishKind) == 0)
      && (!auth.ok ==> t == head + AuthFailed(auth, left))
  {
    var head := front + auth.trace;
    CountAppend(front, auth.trace, LookupKind);
    CountAppend(front, auth.trace, FinishKind);
    var rest := if auth.ok then body else AuthFailed(auth, left);
    assert front + Authorized(auth, left, body) == head + rest;
    assert (head + rest)[..|head|] == head;
    if !auth.ok {
      AuthFailedEvents(auth, left);
      CountAppend(head, rest, LookupKind);
      CountAppend(head, rest, FinishKind);
    }
  }

  /**
   A check that raises, at the first entry or after a FloodWait, is
   reported by the job's generic handler as a critical error under the flag,
   after whatever the handshake emitted; nothing is looked up.
   */
  lemma AuthCheckRaises(kind: JobKind, link: string, limit: int, script: Round, budget: nat, net: Network)
    requires budget > 0 && LastRound(script).check.CheckFailed?
    ensures var t := Run(kind, link, limit, script, budget, net);
      && t == Intro(kind) + Handshake(script).trace + IfRunning(budget - 1, Error(CrashText(LastRound(script).check.error)))
      && Count(t, LookupKind) == 0 && Count(t, FinishKind) == 0
  {
    RaisedByLastCheck(script);
    HandshakeOutcome(script);
    AuthComesFirst(kind, link, limit, script, budget, net);
  }

  /**
   A post link that does not split is refused after the handshake, with the
   parser's own message, and before any lookup.
   */
  lemma UnsplittablePostLink(kind: JobKind, link: string, limit: int, script: Round, budget: nat, net: Network)
    requires IsPostJob(kind) && SplitPostLink(link).None? && budget > 0
    ensures var t, auth := Run(kind, link, limit, script, budget, net), Handshake(script);
      && t == Intro(kind) + auth.trace + (if auth.ok then [Error(BadLinkText(kind))] else AuthFailed(auth, budget - 1))
      && Count(t, LookupKind) == 0
  {
    HandshakeStaysOut(script, LookupKind);
    UnsplittablePostLinkAfter(kind, link, limit, Handshake(script), budget, net);
  }

  lemma UnsplittablePostLinkAfter(kind: JobKind, link: string, limit: int, auth: AuthResult, budget: nat, net: Network)
    requires IsPostJob(kind) && SplitPostLink(link).None? && budget > 0 && Count(auth.trace, LookupKind) == 0
    ensures var t := RunAfter(kind, link, limit, auth, budget, net);
      && t == Intro(kind) + auth.trace + (if auth.ok then [Error(BadLinkText(kind))] else AuthFailed(auth, budget - 1))
      && Count(t, LookupKind) == 0
  {
    var body := Body(kind, link, limit, budget - 1, net);
    assert body == [Error(BadLinkText(kind))];
    assert RunAfter(kind, link, limit, auth, budget, net) == Intro(kind) + Authorized(auth, budget - 1, body);
    IntroCounts(kind, LookupKind);
    RefusedAfterAuth(Intro(kind), auth, budget - 1, Error(BadLinkText(kind)));
  }

  /** An error after the handshake adds no lookup to it. */
  lemma RefusedAfterAuth(front: seq<Event>, auth: AuthResult, left: nat, e: Event)
    requires Count(front, LookupKind) == 0 && Count(auth.trace, LookupKind) == 0 && !e.GetEntity?
    ensures var t := front + Authorized(auth, left, [e]);
      && t == front + auth.trace + (if auth.ok then [e] else AuthFailed(auth, left))
      && Count(t, LookupKind) == 0
  {
    var refusal := if auth.ok then [e] else AuthFailed(auth, left);
    AuthFailedEvents(auth, left);
    AppendAssoc(front, auth.trace, refusal);
    CountAppend(front, auth.trace, LookupKind);
    CountAppend(front + auth.trace, refusal, LookupKind);
  }

  /** The handle a job looks up: the cleaned link, or the channel part of a post link. */
  function Target(kind: JobKind, link: string): string
    requires IsPostJob(kind) ==> SplitPostLink(link).Some?
  {
    if IsPostJob(kind) then SplitPostLink(link).value.channel else CleanLink(link)
  }

  /**
   Once authorized, and still running at the members' second read of the
   flag, a job looks up its target right after the handshake (the members
   job after its search status).
   */
  lemma LooksUpTarget(kind: JobKind, link: string, limit: int, script: Round, budget: nat, net: Network)
    requires Handshake(script).ok && budget >= (if kind == MembersJob then 2 else 1)
    requires IsPostJob(kind) ==> SplitPostLink(link).Some? && ParseInt(SplitPostLink(link).value.idText).Some?
    ensures var t, at := Run(kind, link, limit, script, budget, net),
        |Intro(kind)| + |Handshake(script).trace| + (if kind == MembersJob then 1 else 0);
      at < |t| && t[at] == GetEntity(Target(kind, link))
  {
    LooksUpTargetAfter(kind, link, limit, Handshake(script), budget, net);
  }

  lemma LooksUpTargetAfter(kind: JobKind, link: string, limit: int, auth: AuthResult, budget: nat, net: Network)
    requires auth.ok && budget >= (if kind == MembersJob then 2 else 1)
    requires IsPostJob(kind) ==> SplitPostLink(link).Some? && ParseInt(SplitPostLink(link).value.idText).Some?
    ensures var t, at := RunAfter(kind, link, limit, auth, budget, net),
        |Intro(kind)| + |auth.trace| + (if kind == MembersJob then 1 else 0);
      at < |t| && t[at] == GetEntity(Target(kind, link))
  {
    match kind
    case MembersJob =>
      BodyLooksUp(MembersJob, link, limit, budget - 1, net);
      AfterHandshake(MembersJob, auth, budget - 1, Body(MembersJob, link, limit, budget - 1, net), 1);
    case MessagesJob =>
      BodyLooksUp(MessagesJob, link, limit, budget - 1, net);
      AfterHandshake(MessagesJob, auth, budget - 1, Body(MessagesJob, link, limit, budget - 1, net), 0);
    case CommentsJob =>
      BodyLooksUp(CommentsJob, link, limit, budget - 1, net);
      AfterHandshake(CommentsJob, auth, budget - 1, Body(CommentsJob, link, limit, budget - 1, net), 0);
    case ReactionsJob =>
      BodyLooksUp(ReactionsJob, link, limit, budget - 1, net);
      AfterHandshake(ReactionsJob, auth, budget - 1, Body(ReactionsJob, link, limit, budget - 1, net), 0);
  }

  /** Where the body of a job looks up its target. */
  lemma BodyLooksUp(kind: JobKind, link: string, limit: int, budget: nat, net: Network)
    requires budget >= (if kind == MembersJob then 1 else 0)
    requires IsPostJob(kind) ==> SplitPostLink(link).Some? && ParseInt(SplitPostLink(link).value.idText).Some?
    ensures var body, m := Body(kind, link, limit, budget, net), if kind == MembersJob then 1 else 0;
      m < |body| && body[m] == GetEntity(Target(kind, link))
  {
    if IsPostJob(kind) {
      PostOpens(kind, link, limit, budget, net);
    }
  }

  /** A post job whose link splits and whose number parses looks up the channel part first. */
  lemma PostOpens(kind: JobKind, link: string, limit: int, budget: nat, net: Network)
    requires IsPostJob(kind) && SplitPostLink(link).Some? && ParseInt(SplitPostLink(link).value.idText).Some?
    ensures var post := SplitPostLink(link).value;
      Body(kind, link, limit, budget, net) == [GetEntity(post.channel)] + PostFound(kind, post.channel, ParseInt(post.idText).value, limit, budget, net)
  {
  }

  /** After a successful handshake the body's events follow the introduction and the handshake. */
  lemma AfterHandshake(kind: JobKind, auth: AuthResult, left: nat, body: seq<Event>, m: nat)
    requires auth.ok
    ensures var t, at := Intro(kind) + Authorized(auth, left, body), |Intro(kind)| + |auth.trace| + m;
      && (m < |body| ==> at < |t| && t[at] == body[m])
      && (body != [] ==> t != [] && t[|t| - 1] == body[|body| - 1])
  {
    assert Intro(kind) + Authorized(auth, left, body) == (Intro(kind) + auth.trace) + body;
  }

  /**
   `https://t.me/<channel>/<digits>?<query>`: the comments job looks up the
   channel part with any `@` kept and reports the post number the digits
   spell.
   */
  lemma CommentsOfFullLink(channel: string, id: string, query: string, limit: int, script: Round, budget: nat, net: Network)
    requires channel != [] && !IsSpace(channel[0])
    requires ':' !in channel && '.' !in channel && '/' !in channel
    requires id != [] && AllDigits(id)
    requires ':' !in query && '.' !in query && '/' !in query
    requires query != [] ==> !IsSpace(query[|query| - 1])
    requires Handshake(script).ok && budget >= 1 && net.lookup.Ok?
    ensures var t, at := Run(CommentsJob, FullPrefix + channel + "/" + id + "?" + query, limit, script, budget, net),
        1 + |Handshake(script).trace|;
      && at + 1 < |t|
      && t[at] == GetEntity(channel)
      && t[at + 1] == Status(CommentPostText(TitleOr(net.lookup.value, channel), DigitsValue(id)))
  {
    SplitPostLinkOfFullLink(channel, id, query);
    ParseIntDigits(id);
    PostOpening(FullPrefix + channel + "/" + id + "?" + query, PostLink(channel, id), DigitsValue(id), limit, Handshake(script), budget, net);
  }

  /** What a comments run with a splittable link and a successful lookup emits first after the handshake. */
  lemma PostOpening(link: string, post: PostLink, id: int, limit: int, auth: AuthResult, budget: nat, net: Network)
    requires auth.ok && budget >= 1 && net.lookup.Ok?
    requires SplitPostLink(link) == Some(post) && ParseInt(post.idText) == Some(id)
    ensures OpensWith(RunAfter(CommentsJob, link, limit, auth, budget, net), 1 + |auth.trace|, GetEntity(post.channel),
      Status(CommentPostText(TitleOr(net.lookup.value, post.channel), id)))
  {
    StartedPostOpening(link, post, id, limit, auth, budget - 1, net);
    RunAfterStarts(CommentsJob, link, limit, auth, budget, net);
  }

  /** The same, past the first read of the flag with `left` reads still true; `left` is bounded below as in `StartedEndsOnce`. */
  lemma StartedPostOpening(link: string, post: PostLink, id: int, limit: int, auth: AuthResult, left: int, net: Network)
    requires auth.ok && left >= 0 && net.lookup.Ok?
    requires SplitPostLink(link) == Some(post) && ParseInt(post.idText) == Some(id)
    ensures OpensWith(Intro(CommentsJob) + Authorized(auth, left, Body(CommentsJob, link, limit, left, net)), 1 + |auth.trace|, GetEntity(post.channel),
      Status(CommentPostText(TitleOr(net.lookup.value, post.channel), id)))
  {
    var l: nat := left;
    PostOpens(CommentsJob, link, limit, l, net);
    CommentsFoundOpening(post.channel, id, limit, l, net);
    OpensAfterHandshake(CommentsJob, auth, l, Body(CommentsJob, link, limit, l, net), GetEntity(post.channel),
      Status(CommentPostText(TitleOr(net.lookup.value, post.channel), id)));
  }

  /** Two events that open the body open it right after the handshake. */
  lemma OpensAfterHandshake(kind: JobKind, auth: AuthResult, left: nat, body: seq<Event>, first: Event, second: Event)
    requires auth.ok && OpensWith(body, 0, first, second)
    ensures OpensWith(Intro(kind) + Authorized(auth, left, body), |Intro(kind)| + |auth.trace|, first, second)
  {
    AfterHandshake(kind, auth, left, body, 0);
    AfterHandshake(kind, auth, left, body, 1);
  }

  /** A found comments channel is first announced with its title and the post number. */
  lemma CommentsFoundOpening(channel: string, id: int, limit: int, budget: nat, net: Network)
    requires net.lookup.Ok?
    ensures var t := [GetEntity(channel)] + PostFound(CommentsJob, channel, id, limit, budget, net);
      |t| > 1 && t[1] == Status(CommentPostText(TitleOr(net.lookup.value, channel), id))
  {
  }

  /**
   An exception caught by the generic handler is reported only while the
   flag is set: a failed lookup in the messages job ends the run with the
   error, or, after a stop, with the lookup itself.
   */
  lemma CrashNeedsFlag(link: string, limit: int, script: Round, budget: nat, net: Network)
    requires Handshake(script).ok && net.lookup.Err? && budget >= 1
    ensures var t := Run(MessagesJob, link, limit, script, budget, net);
      && t != []
      && t[|t| - 1] == if budget >= 2 then Error(CrashText(net.lookup.error)) else GetEntity(CleanLink(link))
  {
    CrashNeedsFlagAfter(link, limit, Handshake(script), budget, net);
  }

  lemma CrashNeedsFlagAfter(link: string, limit: int, auth: AuthResult, budget: nat, net: Network)
    requires auth.ok && net.lookup.Err? && budget >= 1
    ensures var t := RunAfter(MessagesJob, link, limit, auth, budget, net);
      && t != []
      && t[|t| - 1] == if budget >= 2 then Error(CrashText(net.lookup.error)) else GetEntity(CleanLink(link))
  {
    var body := Body(MessagesJob, link, limit, budget - 1, net);
    assert body == [GetEntity(CleanLink(link))] + IfRunning(budget - 1, Error(CrashText(net.lookup.error)));
    AfterHandshake(MessagesJob, auth, budget - 1, body, 0);
  }

  /**
   An entry that raises in a row loop (a channel as sender, a failed
   `get_sender()`, a reaction of a peer that is not a user, or the user's
   reaction without an emoticon) reaches the generic handler: a run that
   nobody stops then ends with the crash error carrying the exception of
   the first entry that failed, and delivers no result.
   */
  lemma EntryFailureCrashes(kind: JobKind, link: string, limit: int, script: Round, budget: nat, net: Network)
    requires Handshake(script).ok && BodyReaches(kind, link, net) && budget >= Reads(kind, net)
    requires AllRows(kind, limit, net).Err?
    ensures var t := Run(kind, link, limit, script, budget, net);
      EndsWith(t, Error(CrashText(AllRows(kind, limit, net).error)))
  {
    EntryFailureAfter(kind, link, limit, Handshake(script), budget, net);
  }

  lemma EntryFailureAfter(kind: JobKind, link: string, limit: int, auth: AuthResult, budget: nat, net: Network)
    requires auth.ok && BodyReaches(kind, link, net) && budget >= Reads(kind, net)
    requires AllRows(kind, limit, net).Err?
    ensures var t := RunAfter(kind, link, limit, auth, budget, net);
      EndsWith(t, Error(CrashText(AllRows(kind, limit, net).error)))
  {
    RunStartedEntryFailure(kind, link, limit, auth, budget, net);
  }

  lemma RunStartedEntryFailure(kind: JobKind, link: string, limit: int, auth: AuthResult, budget: nat, net: Network)
    requires auth.ok && BodyReaches(kind, link, net) && budget > 0 && budget >= Reads(kind, net)
    requires AllRows(kind, limit, net).Err?
    ensures var t := RunAfter(kind, link, limit, auth, budget, net);
      EndsWith(t, Error(CrashText(AllRows(kind, limit, net).error)))
  {
    StartedEntryFailure(kind, link, limit, auth, budget - 1, net);
  }

  /** The same, past the first read of the flag with `left` reads still true; `left` is bounded below as in `StartedEndsOnce`. */
  lemma StartedEntryFailure(kind: JobKind, link: string, limit: int, auth: AuthResult, left: int, net: Network)
    requires left >= 0 && auth.ok && BodyReaches(kind, link, net) && left + 1 >= Reads(kind, net)
    requires AllRows(kind, limit, net).Err?
    ensures var t := Intro(kind) + Authorized(auth, left, Body(kind, link, limit, left, net));
      EndsWith(t, Error(CrashText(AllRows(kind, limit, net).error)))
  {
    if kind == MessagesJob {
      MessagesEntryFailure(CleanLink(link), left, net);
    } else if IsPostJob(kind) {
      PostEntryFailure(kind, link, limit, left, net);
    }
    AfterHandshake(kind, auth, left, Body(kind, link, limit, left, net), 0);
  }

  /** A messages body whose row loop raises ends with the crash error. */
  lemma MessagesEntryFailure(chat: string, left: int, net: Network)
    requires left >= 0 && net.lookup.Ok? && left + 1 >= Reads(MessagesJob, net) && MessageRows(net.history).Err?
    ensures EndsWith(MessagesBody(chat, left, net), Error(CrashText(MessageRows(net.history).error)))
  {
    var name := TitleOr(net.lookup.value, chat);
    var fetched := Fetched(net.history, left);
    assert fetched == net.history;
    var front := [GetEntity(chat), Status(ChatText(name)), Status(FetchingMessagesText)] + FetchReports(MessagesLabel, |fetched|, 0, false);
    assert MessagesBody(chat, left, net) == front + [Error(CrashText(MessageRows(net.history).error))];
  }

  /** A comments or reactions body whose row loop raises ends with the crash error. */
  lemma PostEntryFailure(kind: JobKind, link: string, limit: int, left: int, net: Network)
    requires IsPostJob(kind) && left >= 0 && BodyReaches(kind, link, net) && left + 1 >= Reads(kind, net)
    requires AllRows(kind, limit, net).Err?
    ensures EndsWith(Body(kind, link, limit, left, net), Error(CrashText(AllRows(kind, limit, net).error)))
  {
    var post := SplitPostLink(link).value;
    PostOpens(kind, link, limit, left, net);
    var name := TitleOr(net.lookup.value, post.channel);
    if kind == CommentsJob {
      CommentsEntryFailure(name, ParseInt(post.idText).value, limit, left, net.replies);
    } else {
      ReactionsEntryFailure(name, ParseInt(post.idText).value, limit, left, net.reactions);
    }
  }

  lemma CommentsEntryFailure(name: string, id: int, limit: int, left: int, replies: seq<Message>)
    requires left >= 0 && left >= 1 + |replies| && CommentRows(replies).Err?
    ensures EndsWith(CommentsCollected(name, id, limit, left, replies), Error(CrashText(CommentRows(replies).error)))
  {
    var fetched := Fetched(replies, left);
    assert fetched == replies;
    var front := [Status(CommentPostText(name, id)), Status(FetchingCommentsText)] + FetchReports(CommentsLabel, |fetched|, limit, true);
    assert CommentsCollected(name, id, limit, left, replies) == front + [Error(CrashText(CommentRows(replies).error))];
  }

  lemma ReactionsEntryFailure(name: string, id: int, limit: int, left: int, response: Result<ReactionList>)
    requires left >= 1 && response.Ok?
    requires ReactionRows(response.value.users, response.value.reactions, limit).Err?
    ensures EndsWith(ReactionsCollected(name, id, limit, left, response),
                     Error(CrashText(ReactionRows(response.value.users, response.value.reactions, limit).error)))
  {
  }

  /** The reactions request's failure is reported whether or not the thread was stopped. */
  lemma ReactionsErrorIgnoresFlag(link: string, limit: int, script: Round, budget: nat, net: Network)
    requires Handshake(script).ok && budget >= 1
    requires SplitPostLink(link).Some? && ParseInt(SplitPostLink(link).value.idText).Some?
    requires net.lookup.Ok? && net.reactions.Err?
    ensures var t := Run(ReactionsJob, link, limit, script, budget, net);
      t != [] && t[|t| - 1] == Error(ReactionsErrorText(net.reactions.error))
  {
    ReactionsErrorIgnoresFlagAfter(link, limit, Handshake(script), budget, net);
  }

  lemma ReactionsErrorIgnoresFlagAfter(link: string, limit: int, auth: AuthResult, budget: nat, net: Network)
    requires auth.ok && budget >= 1
    requires SplitPostLink(link).Some? && ParseInt(SplitPostLink(link).value.idText).Some?
    requires net.lookup.Ok? && net.reactions.Err?
    ensures var t := RunAfter(ReactionsJob, link, limit, auth, budget, net);
      t != [] && t[|t| - 1] == Error(ReactionsErrorText(net.reactions.error))
  {
    var post := SplitPostLink(link).value;
    var body := Body(ReactionsJob, link, limit, budget - 1, net);
    PostOpens(ReactionsJob, link, limit, budget - 1, net);
    assert body[|body| - 1] == Error(ReactionsErrorText(net.reactions.error));
    AfterHandshake(ReactionsJob, auth, budget - 1, body, 0);
  }
}
