# TGpars parser core in Dafny

A model of the parsing core of TGpars (`src/main.py`), a desktop tool that
logs into Telegram and exports one of four lists: the members of a group,
the messages of a chat, the comments on a channel post, or the reactions to
a post. The model covers everything a parser thread does between the
window's start button and the `finished_signal` that hands a list back to
the window. It does so as the sequence of Qt signals and client requests
the thread produces (`Events.Event`).

- **Text** (`text.dfy`): the Python string operations the core relies on.
  `str.strip` (with Python's whitespace set), `str.replace` with an empty
  replacement, `str.split` and a join, `str(int)`, and `int()` on a
  decimal string.
- **Presence** (`presence.dfy`): the status label of a user
  (`get_user_status_text`) and the `"%Y-%m-%d %H:%M:%S"` rendering of a
  timestamp.
- **Records** (`records.dfy`): the dictionaries the four row loops build,
  as ordered (column, value) lists. This covers `x or ''`, the
  `sender.attr if sender else ''` cells, the 4096-character truncation of a
  message text, and the first-match emoji lookup with its `🧩` default.
  An entry can also raise: `get_sender()` can fail, a channel as sender
  has no `first_name`, a reaction of a peer that is not a user has no
  `user_id`, and a reaction that is not an emoji has no `emoticon`. A row
  loop then ends at the first entry that raises (`TryRows`).
- **Events** (`events.dfy`): the trace alphabet, counting by kind, and
  "at most one terminal event, and it is last" (`EndsOnce`).
- **Links** (`links.dfy`): three things.
  - `_clean_link`.
  - The post-link split that the comments and reactions parsers both carry.
  - The window's `re.search(r"/\d+(?:\?.*)?$", link)`. It is given both as
    the regular expression's meaning (`PostLinkPattern`) and as an
    executable scan (`IsPostLink`), and the two are proved equivalent.
- **Auth** (`auth.dfy`): `ensure_auth` and the window's two dialog
  handlers.
  - The client and the user are a finite `Round` script. A FloodWait
    reply carries the round that the re-entry consumes.
  - `Handshake` is the functional specification.
  - `class ParserThread` holds the fields the procedure and the dialogs
    update: `is_running`, `auth_code`, `auth_password` and the emitted
    signals.
  - Its method `EnsureAuth` loops over FloodWait re-entries and is proved
    to emit exactly `Handshake`'s trace.
  - Connecting the client, `is_user_authorized()` and `get_me()` can
    raise (`CheckFailed`). The exception leaves `ensure_auth` (`raised`)
    and reaches each job's generic handler.
- **Collect** (`collect.dfy`): the fetch loops, the admin collection and
  the row loops as `while` loops. Each is proved against a specification
  function.
- **Jobs** (`jobs.dfy`): the four `parse` methods as traces (`Run`).
  - The stop flag is a budget: the number of further reads of `is_running`
    that still see true. `stop()` only ever clears the flag, so once a read
    sees false, every later read does too.
- **Dispatch** (`dispatch.dfy`): `start_parsing`. Its checks run in the
  window's order, and the outcome is a warning, a started job, or an
  exception out of the slot. Two calls can raise: the progress bar's
  `setMaximum`, with a maximum outside the C `int` range, and the thread
  constructor's `int(api_id)`.

## Model

| member | source | states |
|---|---|---|
| Text.TrimLeftCuts | src/main.py:256 | what the left strip removes is whitespace, a suffix of the input remains, and it starts with a non-blank character |
| Text.TrimRightCuts | src/main.py:256 | the right strip keeps a prefix and removes only whitespace; what remains ends with a non-blank character |
| Text.StripIsInfix | src/main.py:256 | `strip()` returns a contiguous piece of its input with only whitespace around it, and it neither starts nor ends blank |
| Text.StripUnchanged | src/main.py:720 | a text with no blank at either end is its own strip |
| Text.StripIdempotent | src/main.py:107 | stripping twice is stripping once, so the handshake's second strip of a dialog answer changes nothing |
| Text.RemoveAll | src/main.py:257 | `replace(pat, "")` never lengthens its input and introduces no character that was not there |
| Text.RemoveAllAbsent | src/main.py:257 | a text missing a character of the pattern is left as it is |
| Text.RemoveAllUnchanged | src/main.py:257 | `replace(pat, "")` leaves a text as it is exactly when the pattern occurs nowhere in it |
| Text.RemoveAllFirst | src/main.py:257 | the text before the first occurrence of the pattern is kept, that occurrence is removed, and the scan goes on after it |
| Text.IndexOfFirst | src/main.py:261 | the index found is that of the first occurrence, and it equals the length exactly when the character is absent |
| Text.Split | src/main.py:261 | `split(c)` yields at least one piece; the first piece is the text before the first `c`; there are two or more pieces exactly when `c` occurs; no piece contains `c` |
| Text.JoinSplit | src/main.py:345 | joining the pieces of `split(c)` with `c` gives back the input |
| Text.IndexOfAfter | src/main.py:349 | in `a + c + b` with no `c` in `a`, the split's first piece is `a` and its second is the part of `b` before `c` |
| Text.SecondPiece | src/main.py:349 | the second piece of a split is the text between the first and the second separator |
| Text.AllDigitsAt | src/main.py:350 | the recursive all-digits test holds exactly when every character is an ASCII digit |
| Text.DecimalStringValue | src/main.py:353 | the decimal rendering of a natural number spells that number |
| Text.ParseInt | src/main.py:350 | the model of `int()` succeeds only on text that is not blank |
| Text.IntToStringRoundTrip | src/main.py:706 | `ParseInt(IntToString(i))` is `i` for every integer, negative ones included |
| Text.ParseIntDigits | src/main.py:350 | a non-empty run of digits parses to the number it spells |
| Text.ParseIntRejects | src/main.py:706 | `ParseInt` refuses a stripped text with a non-digit after its first character |
| Presence.StatusText | src/main.py:34-51 | every status has a non-empty label; the label is "Скрыто" exactly for a missing or empty status, and "Давно" exactly for an unrecognised one |
| Presence.LabelsDistinguishClasses | src/main.py:34-51 | two statuses get the same label exactly when they are in the same class: hidden, any offline, or the same named status |
| Presence.FormatDate | src/main.py:225 | the rendering has at least the 19 characters of `YYYY-MM-DD HH:MM:SS` |
| Presence.ZeroPadValue | src/main.py:225 | a number below 10^w, zero padded to w, is exactly w digits whose decimal value is the number |
| Presence.PadLeftValue | src/main.py:225 | left padding with zeros reaches the width (or keeps a longer text) and keeps the decimal value |
| Presence.FormatDateLayout | src/main.py:225 | for a year below 10000 and two-digit fields, the rendering is exactly 19 characters with `-`, `-`, ` `, `:`, `:` at positions 4, 7, 10, 13, 16, and each field's digits read back to its value |
| Records.ZipColumns | src/main.py:227-240 | a row carries its columns in insertion order, each holding its own cell |
| Records.MemberColumns | src/main.py:220-240 | a member entry keeps the user's id and status label; each of username, names and phone holds the user's value when present and `""` when missing; last-online is the offline timestamp and otherwise "Скрыто"; each flag, admin included, is "Да" exactly when it is set, and "Нет" otherwise |
| Records.MemberRowColumns | src/main.py:227-240 | a member row has the twelve columns in the parser's order, with ID first and Is Admin last |
| Records.Truncate | src/main.py:311 | `s[:n]` is the prefix of `s` of length `min(len(s), n)`, so `s` itself when `s` is short enough |
| Records.TextColumns | src/main.py:311 | a built message entry's text cell is the prefix of `text or message or ''` of length `min(len(text), 4096)`, so all of it when it fits; a comment's text is never truncated; the text is empty exactly when both attributes are falsy |
| Records.SenderColumns | src/main.py:303-308 | a message or comment entry is built exactly when its sender can be read; without a sender the four sender cells are `""`; with a user, the author id is the user's and each of username, first and last name holds the user's value when present and is `None` when absent; a channel sender raises the missing `first_name`; a failed `get_sender()` passes its exception on |
| Records.MessageRowColumns | src/main.py:304-313 | a message row has the eight columns in order, with Message ID first and Text seventh |
| Records.CommentRowColumns | src/main.py:368-376 | a comment row has the seven columns in order, with Comment ID first and Text sixth |
| Records.EmojiFor | src/main.py:432 | the first reaction at which the generator stops decides: the user's own emoji reaction gives its emoticon, a peer that is not a user raises the missing `user_id`, and a reaction that is not an emoji raises the missing `emoticon`; when no reaction stops it, the user gets `🧩` |
| Records.ReactionRowColumns | src/main.py:433-439 | a reaction row has the five columns in order, with the emoji first and the user id second |
| Records.RowsAt | src/main.py:219-240 | the `k`-th row is built from the `k`-th item |
| Records.TryRowsOk | src/main.py:302-313 | a row loop whose entries may raise builds its list exactly when every entry is built, and then the `k`-th row is the `k`-th entry's |
| Records.TryRowsError | src/main.py:302-313 | a loop that raises fails with the exception of its first failing entry, every earlier entry having been built |
| Records.ReactionCount | src/main.py:430-441 | with a positive limit the loop keeps exactly min(users, limit) users; with a limit of zero or less it keeps exactly one user when there is one and none otherwise |
| Records.ReactionRows | src/main.py:430-441 | when built, one row per kept user |
| Records.MemberRowsAt | src/main.py:219-240 | the `k`-th member row is the row of the `k`-th member |
| Records.MessageRowsBuilt | src/main.py:302-313 | the message rows are built exactly when every sender can be read, and the `k`-th row is then the `k`-th message's |
| Records.CommentRowsBuilt | src/main.py:366-376 | the comment rows are built exactly when every sender can be read, and the `k`-th row is then the `k`-th reply's |
| Records.ReactionRowsBuilt | src/main.py:430-439 | the reaction rows are built exactly when the emoji of every kept user is found, and the `k`-th row is then the `k`-th user's, with that user's emoji |
| Events.CountZero | src/main.py:61-66 | a trace holds no event of a kind exactly when none of its events is of that kind |
| Events.CountAppend | src/main.py:61-66 | counts add up over concatenated traces |
| Events.TerminalSplit | src/main.py:61-66 | terminal events are the results plus the errors |
| Events.EndsOnceAppend | src/main.py:61-66 | events before a trace that ends once keep it ending once, provided they contain no terminal event |
| Links.CleanLink | src/main.py:255-264 | a cleaned handle contains neither `/` nor `?` |
| Links.DropPrefixesAbsent | src/main.py:257 | a text without `/` keeps its prefixes |
| Links.CleanLinkKeepsBareHandle | src/main.py:255-264 | a bare handle, not blank at either end and without `/`, `?` or a leading `@`, is cleaned to itself |
| Links.CleanLinkFixedPoints | src/main.py:255-264 | a cleaned handle that neither starts with `@` nor has blanks at its ends is its own cleaning |
| Links.CleanLinkNotIdempotent | src/main.py:258-259 | cleaning is not idempotent: `@@h` cleans to `@h`, and cleaning again gives `h` |
| Links.CleanLinkDropsOneAt | src/main.py:258-259 | exactly one leading `@` is dropped |
| Links.DropPrefixesFull | src/main.py:257 | both the `https://t.me/` and the `t.me/` prefix are removed |
| Links.CleanLinkOfFullLink | src/main.py:255-264 | `https://t.me/<handle>/<tail>` cleans to the handle |
| Links.SplitPostLink | src/main.py:344-348 | the split is refused exactly when the prefix-free link has no `/` |
| Links.SplitPostLinkShape | src/main.py:344-349 | a split link is `channel + "/" + rest`; the channel has no `/`; the id text is what precedes the next `/` and then the next `?` of the rest |
| Links.SplitPostLinkOfFullLink | src/main.py:344-350 | `https://t.me/<channel>/<digits>?<query>` splits into the channel and the digits |
| Links.TrailingDigits | src/main.py:721 | counts the maximal run of digits that ends the text |
| Links.EndsWithPostIdIff | src/main.py:721 | the end scan sees `/` and digits exactly when some slash is followed by nothing but digits to the end |
| Links.QueryWitness | src/main.py:721 | the query scan's success yields the position of a `?` with a post id before it and no newline after it |
| Links.QueryScanned | src/main.py:721 | conversely, such a `?` makes the query scan succeed |
| Links.NoQueryWithoutMark | src/main.py:721 | without a `?` the query scan fails |
| Links.AnchorIsEnd | src/main.py:721 | a match ends where `$` allows: at the end or before one final newline |
| Links.IsPostLinkMatchesRegex | src/main.py:721 | the scan accepts a link exactly when `re.search(r"/\d+(?:\?.*)?$", link)` finds a match |
| Links.PostLinkTestAdmitsUnsplittable | src/main.py:721 | `t.me/<digits>` passes the window's test, yet the parsers' split refuses it |
| Links.PostLinkTestRefusesSplittable | src/main.py:721 | `<channel>/<word>` with a word that does not end in a digit splits, yet fails the window's test |
| Auth.DialogCode | src/main.py:685-690 | the code dialog stores a text that is its own strip; it is empty exactly when the dialog is cancelled or holds only whitespace, and is the stripped input when accepted |
| Auth.DialogPassword | src/main.py:692-697 | the password dialog stores the text as typed, or `""` |
| Auth.HandshakeOutcome | src/main.py:86-151 | `ensure_auth` emits nothing only when its first check raises; it returns true exactly on a success and raises exactly when a check raises; a failed request emits exactly one error, as the last event; a stop or a raise emits none |
| Auth.RaisedByLastCheck | src/main.py:86-97 | the exception that leaves `ensure_auth` is the one the check of its last entry raises, at the start or after a FloodWait, and there is none otherwise |
| Auth.StopIsSilent | src/main.py:103-106 | a stop at any wait makes the procedure return false without an error |
| Auth.AuthorizedSkipsPrompts | src/main.py:96-99 | an authorized session returns true with the single "Авторизован как" status, and prompts for nothing |
| Auth.FloodWaitRestarts | src/main.py:113-116 | after a FloodWait the procedure re-enters from the authorization check and returns what the new entry returns |
| Auth.CodeRequestsPerEntry | src/main.py:108-116 | one code request per entry answered with a phone |
| Auth.HandshakeStaysOut | src/main.py:93-151 | the handshake looks up no entity and emits no result |
| Auth.RepliesAreSubmitted | src/main.py:107-141 | the client receives the stripped phone, the stripped code and the password as typed; a cancelled dialog submits `""` instead of stopping |
| Auth.RetryFront | src/main.py:113-116 | a FloodWait entry's trace is its own front followed by the retried round's trace, with the same verdict |
| Auth.ParserThread.constructor | src/main.py:68-80 | a new thread is running, with no code, no password and no signals |
| Auth.ParserThread.Stop | src/main.py:161-162 | `stop()` clears the flag and changes nothing else |
| Auth.ParserThread.HandleAuthCode | src/main.py:685-690 | the dialog stores its code and changes nothing else |
| Auth.ParserThread.HandleAuthPassword | src/main.py:692-697 | the dialog stores its password and changes nothing else |
| Auth.ParserThread.AwaitCode | src/main.py:103-106 | the wait ends with the dialog's answer stored, or with a stop and no answer |
| Auth.ParserThread.AwaitPassword | src/main.py:138-141 | the wait ends with the password stored, or with a stop |
| Auth.ParserThread.EnsureAuth | src/main.py:93-151 | the method emits exactly `Handshake`'s signals and returns its verdict or gives the exception that leaves it; `auth_code` ends empty; the thread is still running unless the script stopped it; the password field holds the last answered password |
| Auth.ParserThread.Enter | src/main.py:86-151 | one entry either returns the handshake's verdict or its exception, or meets a FloodWait after emitting the retry front |
| Auth.ParserThread.SendAndSignIn | src/main.py:112-151 | from the code request on, the method emits `SendStage`'s signals and returns its verdict |
| Collect.Fetched | src/main.py:209-216 | a loop stopped by the flag keeps a prefix of the iterator's items, one item per true read |
| Collect.FetchReportsCount | src/main.py:214-216 | a fetch loop over `n` items reports twice for every fifty, and only reports |
| Collect.FetchReportsBounded | src/main.py:216 | a capped progress value never exceeds the count or the limit |
| Collect.ProcessedReportsCount | src/main.py:241-243 | the members' row loop reports twice for every fifty rows |
| Collect.FetchLoop | src/main.py:209-216 | the loop keeps `Fetched(items, budget)`, uses one read per item and emits `FetchReports` |
| Collect.CollectAdmins | src/main.py:200-206 | the admin set holds exactly the ids the iterator yielded |
| Collect.BuildMemberRows | src/main.py:218-243 | the loop builds the rows of the members seen before a stop, and their reports |
| Collect.BuildMessageRows | src/main.py:301-313 | the loop returns `MessageRows`: one row per fetched message, in order, or the exception of the first entry that raises |
| Collect.BuildCommentRows | src/main.py:364-376 | the loop returns `CommentRows`: one row per fetched reply, in order, or the first exception |
| Collect.BuildReactionRows | src/main.py:430-441 | the loop returns `ReactionRows`: the rows of the first `ReactionCount` users, with the limit tested after each append, or the first exception |
| Jobs.FinishedExactly | src/main.py:173-449 | a job delivers a result exactly when the handshake and every request succeed, every entry of its row loop is built, and the flag is still set at its last read; the result has the job's title and the rows of everything the client yielded |
| Jobs.MembersFinishedExactly | src/main.py:187-246 | the members body delivers exactly when the chat is found and counted and `2n + 1` reads of the flag still see true after its second one, and then holds every member's row |
| Jobs.MessagesFinishedExactly | src/main.py:287-317 | the messages body delivers exactly when the chat is found, every sender can be read and `n + 1` reads of the flag still see true after the first, and then holds every message's row |
| Jobs.PostFinishedExactly | src/main.py:344-445 | a comments or reactions body delivers exactly when the link splits, the id parses, the requests succeed, every entry is built and nobody stops it |
| Jobs.MembersCollectedFinished | src/main.py:209-246 | after the fetch and row loops, the members result is delivered exactly when `1 + 2n` reads are left, and then holds every member's row |
| Jobs.MessagesCollectedFinished | src/main.py:292-317 | after the fetch loop, the messages result is delivered exactly when `1 + n` reads are left and every sender can be read |
| Jobs.CommentsCollectedFinished | src/main.py:357-380 | after the fetch loop, the comments result is delivered exactly when `1 + n` reads are left and every sender can be read |
| Jobs.DeliveredFinished | src/main.py:314-321 | the end of a job delivers its rows exactly when the flag is read as true and every entry was built |
| Jobs.EntryFailureCrashes | src/main.py:301-321 | a run nobody stops whose row loop raises ends with the crash error carrying the first failing entry's exception |
| Jobs.RunEndsOnce | src/main.py:173-449 | every job emits at most one result or error, and emits it last |
| Jobs.AuthComesFirst | src/main.py:173-250 | nothing but the initialisation status precedes `ensure_auth`; no lookup happens before it; a failed, cancelled or raising handshake ends the job with neither a lookup nor a result, a raising one with only the crash error under the flag |
| Jobs.AuthCheckRaises | src/main.py:247-250 | a check that raises in `ensure_auth` ends the run with the handshake's signals and then, when the flag is still set, the critical error with that exception; nothing is looked up |
| Jobs.UnsplittablePostLink | src/main.py:344-348 | a post link that does not split is refused with the parser's own message after the handshake, and nothing is looked up |
| Jobs.LooksUpTarget | src/main.py:187-189 | once authorized, a job looks up its target right after the handshake: the cleaned link, or the channel part of a post link |
| Jobs.CommentsOfFullLink | src/main.py:344-353 | for `https://t.me/<channel>/<digits>?<query>` the comments job looks up the channel with any `@` kept, and reports the post number the digits spell |
| Jobs.CrashNeedsFlag | src/main.py:287-321 | a failed lookup in the messages job is reported only if the flag is still set; after a stop, the lookup is the last event |
| Jobs.ReactionsErrorIgnoresFlag | src/main.py:418-428 | a failed reactions request is reported whether or not the thread was stopped |
| Dispatch.ModeRoundTrip | src/main.py:549 | each item of the mode box selects its own job |
| Dispatch.ModeRouting | src/main.py:726-738 | any text other than the three named items selects the members job |
| Dispatch.MissingFieldWarns | src/main.py:701-703 | an empty API id, API hash or link gives the required-fields warning, whatever else is entered |
| Dispatch.BadMaximumWarns | src/main.py:705-709 | with the fields filled, a maximum that `int()` refuses gives the number warning |
| Dispatch.PostModeNeedsPostLink | src/main.py:717-735 | the comments and reactions modes start nothing on a link that fails the post-link test: the window warns, unless the maximum has already made the progress bar raise |
| Dispatch.WideMaximumRaises | src/main.py:612-717 | a maximum that parses but does not fit a C `int` makes `setMaximum` raise, whatever the mode and the link |
| Dispatch.LaunchMeansValid | src/main.py:699-738 | a started job has passed every check, its maximum fits a C `int`, it runs the mode's kind, and it gets the stripped link and the parsed maximum |
| Dispatch.ValidLaunches | src/main.py:699-738 | inputs that pass every check start the mode's job |
| Dispatch.RaisesOnlyAfterChecks | src/main.py:699-738 | the slot raises exactly when the fields are filled, the maximum parses, and either the maximum does not fit a C `int`, or every warning check passed and the API id is not a number |
| Dispatch.UnsplittableLinkStartsDoomedJob | src/main.py:721-728 | `t.me/<digits>` in the comments mode starts a job that, once authorized, fails with the bad-link error and looks nothing up |

## Left out

- The network, the Telegram client and Qt are not modelled as code.
  - The client's answers are the `Network` and `Round` values.
  - Signals are trace events.
  - The window's table, the CSV export, the log view, the session deletion
    and the thread's `cleanup` are not part of this model.
- Concurrency: the thread, the window's event loop and the `asyncio.sleep`
  polling are not modelled. A stop is seen only at the points where the
  source reads `is_running`. Outside the authorization waits these reads
  are modelled as a budget of reads that still see true; the waits take a
  `Stopped` answer in the script.
- Jobs.Run: the exception handler's `if self.is_running` is modelled, and
  so are the exceptions of the row loops and of connecting the client and
  checking the authorization in `ensure_auth`. An exception raised by the
  client in the middle of a fetch loop is not: each fetch iterator yields
  its whole list. `m.date.strftime` is taken never to raise.
- Text.ParseInt: Python's `int()` also accepts underscores between digits
  (`int("1_0") == 10`) and non-ASCII decimal digits. The model accepts only
  an optional sign and ASCII digits, with surrounding whitespace. From
  Python 3.10.7 on, `int()` also refuses a text of more than 4300 digits;
  the model parses texts of any length.
- Links.IsPostLink: `\d` is read as the ASCII digits, not every Unicode
  decimal digit.
- Presence.FormatDate: the year is zero padded to four digits, which the
  platform's `strftime` may not do for years below 1000. The timestamp is a
  broken-down value with no calendar validation.
- Jobs.IntErrorText: the text of Python's `ValueError` quotes the literal
  with `repr`. The model quotes it verbatim.
- Dispatch.StartParsing: the side effects of the start button are not
  modelled: stopping and waiting for the previous thread, resetting the
  UI, and connecting the signals. `Launch` is the thread the window would
  start. The maximum inherits `ParseInt`'s gaps: a text of more than 4300
  digits, which `int()` refuses on Python 3.10.7 and later, is parsed and
  then raises at `setMaximum` in the model, where the window would warn.
- Member records carry each user's `username`, names and phone as given;
  the API objects' other attributes are not modelled.
- Senders, peers and reactions: a sender is a user or a channel, and a
  peer is a user or another class. The peer and reaction classes carry only their names, so
  the interpreter's exception texts are modelled as
  `'<class>' object has no attribute '<name>'`.

Where the code and its design description differ, the model follows the
code:

- The channel part of a post link keeps a leading `@`.
- `_clean_link` is not idempotent: it drops one `@`.
- The reactions loop keeps one user even when the limit is zero or
  negative.
- A job stopped before its first read of the flag emits nothing.
- The post-link split happens only after `ensure_auth`.
- A cancelled dialog submits `""` and does not stop the handshake.
- The reactions thread emits no initialisation status.
- The messages job has no second read of the flag before its lookup.
