/**
 The records the four parsers hand to the window: each is an ordered list of
 (column, value) pairs, as the Python dictionaries keep their insertion
 order. The builders here are the bodies of the per-item loops of the four
 `parse` methods (src/main.py:218-240, 304-313, 368-376, 430-441).
 */
module Records {
  import opened Text
  import opened Presence

  /** A cell: a Python `str`, an `int`, or `None`. */
  datatype Value = Str(s: string) | Int(n: int) | Null

  /** An entry of a result list: a dictionary, whose columns keep their insertion order. */
  type Row = seq<(string, Value)>

  function Keys(row: Row): seq<string>
  {
    seq(|row|, i requires 0 <= i < |row| => row[i].0)
  }

  /** The dictionary with the given columns, in order, holding the given cells. */
  function Zip(keys: seq<string>, cells: seq<Value>): (row: Row)
    requires |keys| == |cells|
    ensures |row| == |keys|
  {
    seq(|keys|, i requires 0 <= i < |keys| => (keys[i], cells[i]))
  }

  /** A row built by `Zip` has the given columns, in order, holding the given cells. */
  lemma ZipColumns(keys: seq<string>, cells: seq<Value>)
    requires |keys| == |cells|
    ensures Keys(Zip(keys, cells)) == keys
    ensures forall i :: 0 <= i < |keys| ==> Zip(keys, cells)[i].1 == cells[i]
  {
  }

  // ---------------------------------------------------------------------------
  // Members
  // ---------------------------------------------------------------------------

  /** A participant as the API yields it; absent attributes are `None`, absent flags `false`. */
  datatype User = User(
    id: int,
    username: Option<string>,
    firstName: Option<string>,
    lastName: Option<string>,
    phone: Option<string>,
    status: Option<UserStatus>,
    bot: bool,
    verified: bool,
    scam: bool,
    premium: bool)

  /** Python's `x or ''` on an optional string. */
  function OrEmpty(x: Option<string>): string
  {
    if x.Some? then x.value else ""
  }

  function YesNo(b: bool): string
  {
    if b then "Да" else "Нет"
  }

  /** `last_online_str or 'Скрыто'`, where only an offline status sets `last_online_str`. */
  function LastOnline(status: Option<UserStatus>): string
  {
    var formatted := if status.Some? && status.value.Offline? then FormatDate(status.value.wasOnline) else "";
    if formatted != "" then formatted else Hidden
  }

  /** The columns of a member entry, in the order the parser inserts them. */
  datatype MemberRecord = MemberRecord(
    id: int, username: string, firstName: string, lastName: string, phone: string,
    status: string, lastOnline: string,
    isBot: string, isVerified: string, isScam: string, isPremium: string, isAdmin: string)

  /** One entry of `parsed_data` in the members parser. */
  function Member(u: User, admins: set<int>): MemberRecord
  {
    MemberRecord(
      u.id, OrEmpty(u.username), OrEmpty(u.firstName), OrEmpty(u.lastName), OrEmpty(u.phone),
      StatusText(u.status), LastOnline(u.status),
      YesNo(u.bot), YesNo(u.verified), YesNo(u.scam), YesNo(u.premium), YesNo(u.id in admins))
  }

  predicate IsYesNo(s: string) { s == "Да" || s == "Нет" }

  /** What each column of a member entry holds. */
  lemma MemberColumns(u: User, admins: set<int>)
    ensures var r := Member(u, admins);
      && r.id == u.id
      && r.status == StatusText(u.status)
      && r.username == (if u.username.Some? then u.username.value else "")
      && r.firstName == (if u.firstName.Some? then u.firstName.value else "")
      && r.lastName == (if u.lastName.Some? then u.lastName.value else "")
      && r.phone == (if u.phone.Some? then u.phone.value else "")
      && r.lastOnline == (if u.status.Some? && u.status.value.Offline?
                          then FormatDate(u.status.value.wasOnline) else Hidden)
      && IsYesNo(r.isBot) && (r.isBot == "Да" <==> u.bot)
      && IsYesNo(r.isVerified) && (r.isVerified == "Да" <==> u.verified)
      && IsYesNo(r.isScam) && (r.isScam == "Да" <==> u.scam)
      && IsYesNo(r.isPremium) && (r.isPremium == "Да" <==> u.premium)
      && IsYesNo(r.isAdmin) && (r.isAdmin == "Да" <==> u.id in admins)
  {
  }

  const MemberKeys: seq<string> := [
    "ID", "Username", "First Name", "Last Name", "Phone", "Status", "Last Online",
    "Is Bot", "Is Verified", "Is Scam", "Is Premium", "Is Admin"]

  function MemberRow(r: MemberRecord): (row: Row)
    ensures |row| == |MemberKeys|
  {
    Zip(MemberKeys, [
      Int(r.id), Str(r.username), Str(r.firstName), Str(r.lastName), Str(r.phone),
      Str(r.status), Str(r.lastOnline),
      Str(r.isBot), Str(r.isVerified), Str(r.isScam), Str(r.isPremium), Str(r.isAdmin)])
  }

  /** A member entry has the twelve columns in the parser's order; the first holds the id. */
  lemma MemberRowColumns(r: MemberRecord)
    ensures Keys(MemberRow(r)) == MemberKeys
    ensures MemberRow(r)[0].1 == Int(r.id) && MemberRow(r)[11].1 == Str(r.isAdmin)
  {
    ZipColumns(MemberKeys, [
      Int(r.id), Str(r.username), Str(r.firstName), Str(r.lastName), Str(r.phone),
      Str(r.status), Str(r.lastOnline),
      Str(r.isBot), Str(r.isVerified), Str(r.isScam), Str(r.isPremium), Str(r.isAdmin)]);
  }

  // ---------------------------------------------------------------------------
  // Messages and comments
  // ---------------------------------------------------------------------------

  /**
   The sender of a message, as `get_sender()` resolves it: a user, or a
   channel posting in its own name. A channel has an `id` and a `username`
   but no `first_name` attribute.
   */
  datatype Sender =
    | UserSender(id: int, username: Option<string>, firstName: Option<string>, lastName: Option<string>)
    | ChannelSender(id: int, username: Option<string>)

  /** The text of the `AttributeError` Python raises for an attribute an object lacks. */
  function NoAttributeText(className: string, attribute: string): string
  {
    "'" + className + "' object has no attribute '" + attribute + "'"
  }

  /**
   A message of a chat or a reply to a post. `sender` is what `get_sender()`
   returns (`None` when there is no sender), or the text of the exception it
   raises. `media` is the class name of the attached media, when there is one.
   */
  datatype Message = Message(
    id: int,
    sender: Result<Option<Sender>>,
    date: DateTime,
    text: Option<string>,
    message: Option<string>,
    media: Option<string>)

  predicate Truthy(x: Option<string>) { x.Some? && x.value != "" }

  /** `m.text or m.message or ''`. */
  function MessageText(m: Message): string
  {
    if Truthy(m.text) then m.text.value else if Truthy(m.message) then m.message.value else ""
  }

  const MaxText := 4096

  /** `s[:n]`. */
  function Truncate(s: string, n: nat): (r: string)
    ensures |r| == Min(|s|, n) && r <= s
    ensures |s| <= n ==> r == s
  {
    s[..Min(|s|, n)]
  }

  /** A Python attribute that may be `None`. */
  function Nullable(x: Option<string>): Value
  {
    if x.Some? then Str(x.value) else Null
  }

  /** The four sender columns, each written `attr if sender else ''`. */
  datatype SenderCells = SenderCells(authorId: Value, username: Value, firstName: Value, lastName: Value)

  /**
   The sender columns, read in the order the dictionary literal reads them:
   a channel fails at `first_name`, and a failed `get_sender()` fails first.
   */
  function SenderCellsOf(sender: Result<Option<Sender>>): Result<SenderCells>
  {
    match sender
    case Err(e) => Err(e)
    case Ok(None) => Ok(SenderCells(Str(""), Str(""), Str(""), Str("")))
    case Ok(Some(UserSender(id, username, firstName, lastName))) =>
      Ok(SenderCells(Int(id), Nullable(username), Nullable(firstName), Nullable(lastName)))
    case Ok(Some(ChannelSender(_, _))) => Err(NoAttributeText("Channel", "first_name"))
  }

  /** The sender columns can be read: `get_sender()` returned, and nothing or a user. */
  predicate SenderReadable(sender: Result<Option<Sender>>)
  {
    sender.Ok? && (sender.value.Some? ==> sender.value.value.UserSender?)
  }

  /** The columns of a message entry, in the order the parser inserts them. */
  datatype MessageRecord = MessageRecord(
    messageId: int, authorId: Value, username: Value, firstName: Value, lastName: Value,
    date: string, text: string, mediaType: string)

  /** One entry of `parsed` in the messages parser, or the exception building it raises. */
  function MessageEntry(m: Message): Result<MessageRecord>
  {
    match SenderCellsOf(m.sender)
    case Err(e) => Err(e)
    case Ok(c) =>
      Ok(MessageRecord(
        m.id, c.authorId, c.username, c.firstName, c.lastName,
        FormatDate(m.date), Truncate(MessageText(m), MaxText),
        if m.media.Some? then m.media.value else ""))
  }

  const MessageKeys: seq<string> :=
    ["Message ID", "Author ID", "Username", "First Name", "Last Name", "Date", "Text", "Media Type"]

  function MessageRow(r: MessageRecord): (row: Row)
    ensures |row| == |MessageKeys|
  {
    Zip(MessageKeys, [
      Int(r.messageId), r.authorId, r.username, r.firstName, r.lastName,
      Str(r.date), Str(r.text), Str(r.mediaType)])
  }

  /** A message entry has the eight columns in the parser's order. */
  lemma MessageRowColumns(r: MessageRecord)
    ensures Keys(MessageRow(r)) == MessageKeys
    ensures MessageRow(r)[0].1 == Int(r.messageId) && MessageRow(r)[6].1 == Str(r.text)
  {
    ZipColumns(MessageKeys, [
      Int(r.messageId), r.authorId, r.username, r.firstName, r.lastName,
      Str(r.date), Str(r.text), Str(r.mediaType)]);
  }

  /** The columns of a comment entry, in the order the parser inserts them. */
  datatype CommentRecord = CommentRecord(
    commentId: int, authorId: Value, username: Value, firstName: Value, lastName: Value,
    text: string, date: string)

  /** One entry of `parsed` in the comments parser, or the exception building it raises. */
  function CommentEntry(m: Message): Result<CommentRecord>
  {
    match SenderCellsOf(m.sender)
    case Err(e) => Err(e)
    case Ok(c) =>
      Ok(CommentRecord(
        m.id, c.authorId, c.username, c.firstName, c.lastName,
        MessageText(m), FormatDate(m.date)))
  }

  const CommentKeys: seq<string> :=
    ["Comment ID", "Author ID", "Username", "First Name", "Last Name", "Text", "Date"]

  function CommentRow(r: CommentRecord): (row: Row)
    ensures |row| == |CommentKeys|
  {
    Zip(CommentKeys, [
      Int(r.commentId), r.authorId, r.username, r.firstName, r.lastName, Str(r.text), Str(r.date)])
  }

  /** A comment entry has the seven columns in the parser's order. */
  lemma CommentRowColumns(r: CommentRecord)
    ensures Keys(CommentRow(r)) == CommentKeys
    ensures CommentRow(r)[0].1 == Int(r.commentId) && CommentRow(r)[5].1 == Str(r.text)
  {
    ZipColumns(CommentKeys, [
      Int(r.commentId), r.authorId, r.username, r.firstName, r.lastName, Str(r.text), Str(r.date)]);
  }

  /** A message's text is the first 4096 characters of its text; a comment's is kept whole. */
  lemma TextColumns(m: Message)
    ensures MessageEntry(m).Ok? ==>
      var t := MessageEntry(m).value.text;
      |t| == Min(|MessageText(m)|, MaxText) && t <= MessageText(m) && (|MessageText(m)| <= MaxText ==> t == MessageText(m))
    ensures CommentEntry(m).Ok? ==> CommentEntry(m).value.text == MessageText(m)
    ensures MessageText(m) == "" <==> !Truthy(m.text) && !Truthy(m.message)
  {
  }

  /**
   An entry is built exactly when the sender can be read. Without a sender
   every sender column is empty; with a user, only its absent attributes
   are `None`; a channel sender fails at `first_name`, and a failed
   `get_sender()` passes its exception on.
   */
  lemma SenderColumns(m: Message)
    ensures MessageEntry(m).Ok? <==> SenderReadable(m.sender)
    ensures CommentEntry(m).Ok? <==> SenderReadable(m.sender)
    ensures m.sender == Ok(None) ==>
      var r, c := MessageEntry(m).value, CommentEntry(m).value;
      && r.authorId == r.username == r.firstName == r.lastName == Str("")
      && c.authorId == c.username == c.firstName == c.lastName == Str("")
    ensures m.sender.Ok? && m.sender.value.Some? && m.sender.value.value.UserSender? ==>
      var r, c, s := MessageEntry(m).value, CommentEntry(m).value, m.sender.value.value;
      && r.authorId == c.authorId == Int(s.id)
      && r.username == (if s.username.Some? then Str(s.username.value) else Null)
      && r.firstName == (if s.firstName.Some? then Str(s.firstName.value) else Null)
      && r.lastName == (if s.lastName.Some? then Str(s.lastName.value) else Null)
      && c.username == r.username && c.firstName == r.firstName && c.lastName == r.lastName
    ensures m.sender.Ok? && m.sender.value.Some? && m.sender.value.value.ChannelSender? ==>
      var e := NoAttributeText("Channel", "first_name");
      MessageEntry(m) == Err(e) && CommentEntry(m) == Err(e)
    ensures m.sender.Err? ==> MessageEntry(m) == Err(m.sender.error) && CommentEntry(m) == Err(m.sender.error)
  {
  }

  // ---------------------------------------------------------------------------
  // Reactions
  // ---------------------------------------------------------------------------

  /**
   Who reacted (`peer_id`): a user, or a peer of another class
   (`PeerChannel`, `PeerChat`), which has no `user_id`.
   */
  datatype Peer = PeerUser(userId: int) | PeerOther(className: string)

  /**
   The reaction: an emoji, or a reaction of another class
   (`ReactionCustomEmoji`, `ReactionPaid`), which has no `emoticon`.
   */
  datatype Reaction = ReactionEmoji(emoticon: string) | ReactionOther(className: string)

  /** One entry of the response's `reactions`. */
  datatype PeerReaction = PeerReaction(peer: Peer, reaction: Reaction)

  const Placeholder := "🧩"

  /**
   A reaction at which the generator of `next(...)` stops for the user:
   testing `r.peer_id.user_id == user.id` raises, or it holds.
   */
  predicate StopsAt(r: PeerReaction, userId: int)
  {
    r.peer.PeerOther? || r.peer.userId == userId
  }

  /** What the generator gives at a reaction where it stops. */
  function StopValue(r: PeerReaction): Result<string>
  {
    match r.peer
    case PeerOther(className) => Err(NoAttributeText(className, "user_id"))
    case PeerUser(_) =>
      match r.reaction
      case ReactionEmoji(emoticon) => Ok(emoticon)
      case ReactionOther(className) => Err(NoAttributeText(className, "emoticon"))
  }

  /**
   `next((r.reaction.emoticon for r in reactions if r.peer_id.user_id == userId), '🧩')`:
   the value at the first reaction where the generator stops, or the placeholder.
   */
  function EmojiFor(reactions: seq<PeerReaction>, userId: int): (emoji: Result<string>)
    ensures (forall j :: 0 <= j < |reactions| ==> !StopsAt(reactions[j], userId)) ==> emoji == Ok(Placeholder)
    ensures forall j :: 0 <= j < |reactions| && StopsAt(reactions[j], userId) ==>
      (exists k :: 0 <= k < j && StopsAt(reactions[k], userId)) || emoji == StopValue(reactions[j])
  {
    if reactions == [] then Ok(Placeholder)
    else if StopsAt(reactions[0], userId) then StopValue(reactions[0])
    else
      assert forall j :: 1 <= j < |reactions| ==> reactions[1..][j - 1] == reactions[j];
      EmojiFor(reactions[1..], userId)
  }

  /** The columns of a reaction entry, in the order the parser inserts them. */
  datatype ReactionRecord = ReactionRecord(emoji: string, userId: int, username: string, firstName: string, lastName: string)

  /** One entry of `parsed` in the reactions parser, or the exception finding its emoji raises. */
  function ReactionEntry(u: User, reactions: seq<PeerReaction>): Result<ReactionRecord>
  {
    match EmojiFor(reactions, u.id)
    case Err(e) => Err(e)
    case Ok(emoji) => Ok(ReactionRecord(emoji, u.id, OrEmpty(u.username), OrEmpty(u.firstName), OrEmpty(u.lastName)))
  }

  const ReactionKeys: seq<string> := ["Emoji", "User ID", "Username", "First Name", "Last Name"]

  function ReactionRow(r: ReactionRecord): (row: Row)
    ensures |row| == |ReactionKeys|
  {
    Zip(ReactionKeys, [Str(r.emoji), Int(r.userId), Str(r.username), Str(r.firstName), Str(r.lastName)])
  }

  /** A reaction entry has the five columns in the parser's order, the emoji first. */
  lemma ReactionRowColumns(r: ReactionRecord)
    ensures Keys(ReactionRow(r)) == ReactionKeys
    ensures ReactionRow(r)[0].1 == Str(r.emoji) && ReactionRow(r)[1].1 == Int(r.userId)
  {
    ZipColumns(ReactionKeys, [Str(r.emoji), Int(r.userId), Str(r.username), Str(r.firstName), Str(r.lastName)]);
  }

  // ---------------------------------------------------------------------------
  // Whole result lists
  // ---------------------------------------------------------------------------

  /** One row per item, in the items' order: the list a parser's loop appends to. */
  function Rows<T>(items: seq<T>, row: T -> Row): (rows: seq<Row>)
    ensures |rows| == |items|
  {
    if items == [] then [] else Rows(items[..|items| - 1], row) + [row(items[|items| - 1])]
  }

  /** The `k`th row is built from the `k`th item. */
  lemma {:induction false} RowsAt<T>(items: seq<T>, row: T -> Row, k: nat)
    requires k < |items|
    ensures Rows(items, row)[k] == row(items[k])
    decreases |items|
  {
    var n := |items|;
    if k < n - 1 {
      RowsAt(items[..n - 1], row, k);
      assert items[..n - 1][k] == items[k];
    }
  }

  /** Appending the next item's row extends the list of a prefix. */
  lemma RowsSnoc<T>(items: seq<T>, row: T -> Row, i: nat)
    requires i < |items|
    ensures Rows(items[..i + 1], row) == Rows(items[..i], row) + [row(items[i])]
  {
    assert items[..i + 1][..i] == items[..i];
  }

  /**
   A row loop whose entries may raise: the rows of all items, in order, or
   the exception of the first item whose entry raises, which leaves the
   loop and the list built so far behind.
   */
  function TryRows<T>(items: seq<T>, row: T -> Result<Row>): (rows: Result<seq<Row>>)
    ensures rows.Ok? ==> |rows.value| == |items|
  {
    if items == [] then Ok([])
    else
      var front := TryRows(items[..|items| - 1], row);
      var last := row(items[|items| - 1]);
      if front.Err? then front
      else if last.Err? then Err(last.error)
      else Ok(front.value + [last.value])
  }

  /** One more item: the loop goes on only while every entry so far was built. */
  lemma TryRowsSnoc<T>(items: seq<T>, row: T -> Result<Row>, i: nat)
    requires i < |items|
    ensures var front, last := TryRows(items[..i], row), row(items[i]);
      TryRows(items[..i + 1], row) ==
        if front.Err? then front else if last.Err? then Err(last.error) else Ok(front.value + [last.value])
  {
    assert items[..i + 1][..i] == items[..i];
  }

  /** Once an entry raises, later items change nothing. */
  lemma {:induction false} TryRowsStuck<T>(items: seq<T>, row: T -> Result<Row>, i: nat)
    requires i <= |items| && TryRows(items[..i], row).Err?
    ensures TryRows(items, row) == TryRows(items[..i], row)
    decreases |items|
  {
    var n := |items|;
    if i < n {
      assert items[..n - 1][..i] == items[..i];
      TryRowsStuck(items[..n - 1], row, i);
    } else {
      assert items[..i] == items;
    }
  }

  /** The list is built exactly when every entry is, and then holds the entries' rows in order. */
  lemma {:induction false} TryRowsOk<T>(items: seq<T>, row: T -> Result<Row>)
    ensures TryRows(items, row).Ok? <==> forall k :: 0 <= k < |items| ==> row(items[k]).Ok?
    ensures TryRows(items, row).Ok? ==>
      forall k :: 0 <= k < |items| ==> row(items[k]) == Ok(TryRows(items, row).value[k])
    decreases |items|
  {
    if items != [] {
      var n := |items|;
      var front := items[..n - 1];
      TryRowsOk(front, row);
      assert forall k :: 0 <= k < n - 1 ==> front[k] == items[k];
    }
  }

  /** A list that is not built fails with the exception of its first failing entry. */
  lemma {:induction false} TryRowsError<T>(items: seq<T>, row: T -> Result<Row>) returns (k: nat)
    requires TryRows(items, row).Err?
    ensures k < |items| && row(items[k]) == Err(TryRows(items, row).error)
    ensures forall j :: 0 <= j < k ==> row(items[j]).Ok?
    decreases |items|
  {
    var n := |items|;
    var front := items[..n - 1];
    assert forall j :: 0 <= j < n - 1 ==> front[j] == items[j];
    if TryRows(front, row).Err? {
      k := TryRowsError(front, row);
    } else {
      TryRowsOk(front, row);
      k := n - 1;
    }
  }

  function MemberItem(admins: set<int>): User -> Row
  {
    u => MemberRow(Member(u, admins))
  }

  function MessageItem(m: Message): Result<Row>
  {
    match MessageEntry(m)
    case Err(e) => Err(e)
    case Ok(r) => Ok(MessageRow(r))
  }

  function CommentItem(m: Message): Result<Row>
  {
    match CommentEntry(m)
    case Err(e) => Err(e)
    case Ok(r) => Ok(CommentRow(r))
  }

  function ReactionItem(reactions: seq<PeerReaction>): User -> Result<Row>
  {
    u => match ReactionEntry(u, reactions)
         case Err(e) => Err(e)
         case Ok(r) => Ok(ReactionRow(r))
  }

  function MemberRows(users: seq<User>, admins: set<int>): seq<Row>
  {
    Rows(users, MemberItem(admins))
  }

  function MessageRows(messages: seq<Message>): Result<seq<Row>>
  {
    TryRows(messages, MessageItem)
  }

  function CommentRows(replies: seq<Message>): Result<seq<Row>>
  {
    TryRows(replies, CommentItem)
  }

  /**
   How many users the reactions loop keeps. Its limit test runs after the
   append, so a limit of zero or less still keeps the first user.
   */
  function ReactionCount(users: nat, limit: int): (n: nat)
    ensures limit >= 1 ==> n == Min(users, limit)
    ensures limit <= 0 ==> (n == 1 <==> users > 0) && n <= 1
  {
    if users == 0 then 0 else if limit <= 0 then 1 else Min(users, limit)
  }

  /** One reaction row per user, in order, or the first exception. */
  function UserReactionRows(users: seq<User>, reactions: seq<PeerReaction>): Result<seq<Row>>
  {
    TryRows(users, ReactionItem(reactions))
  }

  /** The rows of the users the reactions loop reaches. */
  function ReactionRows(users: seq<User>, reactions: seq<PeerReaction>, limit: int): (rows: Result<seq<Row>>)
    ensures rows.Ok? ==> |rows.value| == ReactionCount(|users|, limit)
  {
    UserReactionRows(users[..ReactionCount(|users|, limit)], reactions)
  }

  // ---------------------------------------------------------------------------
  // Each row comes from the item at its own position
  // ---------------------------------------------------------------------------

  lemma MemberRowsAt(users: seq<User>, admins: set<int>, k: nat)
    requires k < |users|
    ensures MemberRows(users, admins)[k] == MemberRow(Member(users[k], admins))
  {
    RowsAt(users, MemberItem(admins), k);
  }

  /** The message rows are built exactly when every sender can be read, and then follow the messages. */
  lemma MessageRowsBuilt(messages: seq<Message>)
    ensures MessageRows(messages).Ok? <==> forall k :: 0 <= k < |messages| ==> SenderReadable(messages[k].sender)
    ensures MessageRows(messages).Ok? ==> forall k :: 0 <= k < |messages| ==>
      MessageEntry(messages[k]).Ok? && MessageRows(messages).value[k] == MessageRow(MessageEntry(messages[k]).value)
  {
    TryRowsOk(messages, MessageItem);
    forall k | 0 <= k < |messages|
      ensures MessageItem(messages[k]).Ok? <==> SenderReadable(messages[k].sender)
    {
      SenderColumns(messages[k]);
    }
  }

  /** The comment rows are built exactly when every sender can be read, and then follow the replies. */
  lemma CommentRowsBuilt(replies: seq<Message>)
    ensures CommentRows(replies).Ok? <==> forall k :: 0 <= k < |replies| ==> SenderReadable(replies[k].sender)
    ensures CommentRows(replies).Ok? ==> forall k :: 0 <= k < |replies| ==>
      CommentEntry(replies[k]).Ok? && CommentRows(replies).value[k] == CommentRow(CommentEntry(replies[k]).value)
  {
    TryRowsOk(replies, CommentItem);
    forall k | 0 <= k < |replies|
      ensures CommentItem(replies[k]).Ok? <==> SenderReadable(replies[k].sender)
    {
      SenderColumns(replies[k]);
    }
  }

  /**
   The reaction rows are built exactly when the emoji of every user the
   loop reaches is found, and are then those users' rows, in the response's order.
   */
  lemma ReactionRowsBuilt(users: seq<User>, reactions: seq<PeerReaction>, limit: int)
    ensures var n := ReactionCount(|users|, limit);
      && (ReactionRows(users, reactions, limit).Ok? <==> forall k :: 0 <= k < n ==> EmojiFor(reactions, users[k].id).Ok?)
      && (ReactionRows(users, reactions, limit).Ok? ==> forall k :: 0 <= k < n ==>
            ReactionEntry(users[k], reactions).Ok?
            && ReactionRows(users, reactions, limit).value[k] == ReactionRow(ReactionEntry(users[k], reactions).value))
  {
    var kept := users[..ReactionCount(|users|, limit)];
    TryRowsOk(kept, ReactionItem(reactions));
    assert forall k :: 0 <= k < |kept| ==> kept[k] == users[k];
  }
}
