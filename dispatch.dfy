/**
 The decision part of the window's start button (src/main.py:699-738):
 from the texts of the API id, API hash, link and maximum fields and the
 selected mode, either a warning box and no job, or a parser thread of one
 kind started on the stripped link with the parsed maximum. Two calls
 raise out of the slot: the progress bar's `setMaximum` (src/main.py:612),
 called with the maximum before the mode is looked at, when the maximum
 does not fit a C `int`; and the thread's constructor, which converts the
 API id with `int()` (src/main.py:71), when the id is not a number.
 */
module Dispatch {
  import opened Text
  import opened Links
  import opened Events
  import opened Auth
  import opened Jobs

  datatype Decision =
    | Warn(message: string)
    | Launch(kind: JobKind, link: string, limit: int)
    | Raises

  const MissingFieldsText := "Заполните все обязательные поля!"
  const BadNumberText := "Введите корректное число!"
  const NotPostLinkText := "Ссылка не является ссылкой на пост."

  /** The items of the mode box, in the order the window adds them (src/main.py:549). */
  function ModeText(kind: JobKind): string
  {
    match kind
    case MembersJob => "Участники"
    case CommentsJob => "Комментарии"
    case MessagesJob => "Сообщения"
    case ReactionsJob => "Реакции"
  }

  /** The job a mode text selects: the three named modes, and members for any other text. */
  function ModeKind(mode: string): JobKind
  {
    if mode == ModeText(CommentsJob) then CommentsJob
    else if mode == ModeText(MessagesJob) then MessagesJob
    else if mode == ModeText(ReactionsJob) then ReactionsJob
    else MembersJob
  }

  /**
   The values PyQt passes to a C `int` parameter such as the one of
   `QProgressBar.setMaximum`; any other value raises `OverflowError`.
   */
  predicate FitsCInt(n: int)
  {
    -0x8000_0000 <= n <= 0x7FFF_FFFF
  }

  /** `start_parsing`: the checks in the order the window makes them. */
  function StartParsing(apiId: string, apiHash: string, linkText: string, maxText: string, mode: string): Decision
  {
    if apiId == [] || apiHash == [] || linkText == [] then Warn(MissingFieldsText)
    else match ParseInt(maxText)
      case None => Warn(BadNumberText)
      case Some(maxItems) =>
        if !FitsCInt(maxItems) then Raises
        else
          var link := Strip(linkText);
          var kind := ModeKind(mode);
          if IsPostJob(kind) && !IsPostLink(link) then Warn(NotPostLinkText)
          else if ParseInt(apiId).None? then Raises
          else Launch(kind, link, maxItems)
  }

  /** Every item of the mode box selects its own job. */
  lemma ModeRoundTrip(kind: JobKind)
    ensures ModeKind(ModeText(kind)) == kind
  {
  }

  /** A mode text selects a job other than members exactly when it is that job's item. */
  lemma ModeRouting(mode: string)
    ensures ModeKind(mode) == MembersJob <==> mode !in {ModeText(CommentsJob), ModeText(MessagesJob), ModeText(ReactionsJob)}
    ensures ModeKind(mode) != MembersJob ==> mode == ModeText(ModeKind(mode))
  {
  }

  /** An empty API id, API hash or link field gives the first warning and no job, whatever the rest holds. */
  lemma MissingFieldWarns(apiId: string, apiHash: string, linkText: string, maxText: string, mode: string)
    requires apiId == [] || apiHash == [] || linkText == []
    ensures StartParsing(apiId, apiHash, linkText, maxText, mode) == Warn(MissingFieldsText)
  {
  }

  /** With the fields filled, a maximum `int()` refuses gives the number warning. */
  lemma BadMaximumWarns(apiId: string, apiHash: string, linkText: string, maxText: string, mode: string)
    requires apiId != [] && apiHash != [] && linkText != []
    requires ParseInt(maxText) == None
    ensures StartParsing(apiId, apiHash, linkText, maxText, mode) == Warn(BadNumberText)
  {
  }

  /**
   The comments and reactions modes start nothing on a link the post-link
   test refuses: the window warns, or the progress bar has already raised.
   */
  lemma PostModeNeedsPostLink(apiId: string, apiHash: string, linkText: string, maxText: string, mode: string)
    requires IsPostJob(ModeKind(mode)) && !IsPostLink(Strip(linkText))
    ensures var d := StartParsing(apiId, apiHash, linkText, maxText, mode);
      d.Warn? || (d == Raises && !FitsCInt(ParseInt(maxText).value))
  {
  }

  /** A maximum that parses but does not fit a C `int` raises at the progress bar, whatever the mode and the link. */
  lemma WideMaximumRaises(apiId: string, apiHash: string, linkText: string, maxText: string, mode: string)
    requires apiId != [] && apiHash != [] && linkText != []
    requires ParseInt(maxText).Some? && !FitsCInt(ParseInt(maxText).value)
    ensures StartParsing(apiId, apiHash, linkText, maxText, mode) == Raises
  {
  }

  /**
   A started job has passed every check: the fields were filled, the
   maximum and the API id parse, the kind is the mode's, the link is the
   stripped field, and a post job's link passed the post-link test.
   */
  lemma LaunchMeansValid(apiId: string, apiHash: string, linkText: string, maxText: string, mode: string)
    ensures var d := StartParsing(apiId, apiHash, linkText, maxText, mode);
      d.Launch? ==>
        && apiId != [] && apiHash != [] && linkText != []
        && ParseInt(maxText) == Some(d.limit) && FitsCInt(d.limit) && ParseInt(apiId).Some?
        && d.kind == ModeKind(mode) && d.link == Strip(linkText)
        && (IsPostJob(d.kind) ==> IsPostLink(d.link))
  {
  }

  /** Conversely, inputs that pass every check start the mode's job. */
  lemma ValidLaunches(apiId: string, apiHash: string, linkText: string, maxText: string, mode: string)
    requires apiId != [] && apiHash != [] && linkText != []
    requires ParseInt(maxText).Some? && FitsCInt(ParseInt(maxText).value) && ParseInt(apiId).Some?
    requires IsPostJob(ModeKind(mode)) ==> IsPostLink(Strip(linkText))
    ensures StartParsing(apiId, apiHash, linkText, maxText, mode) == Launch(ModeKind(mode), Strip(linkText), ParseInt(maxText).value)
  {
  }

  /**
   The slot raises only once the fields are filled and the maximum parses:
   at the progress bar when the maximum does not fit, or, after every
   warning check has passed, at the conversion of the API id.
   */
  lemma RaisesOnlyAfterChecks(apiId: string, apiHash: string, linkText: string, maxText: string, mode: string)
    ensures StartParsing(apiId, apiHash, linkText, maxText, mode) == Raises <==>
      && apiId != [] && apiHash != [] && linkText != [] && ParseInt(maxText).Some?
      && (|| !FitsCInt(ParseInt(maxText).value)
          || ((IsPostJob(ModeKind(mode)) ==> IsPostLink(Strip(linkText))) && ParseInt(apiId) == None))
  {
  }

  /**
   A link `t.me/<digits>` passes the window's test in the comments mode and
   starts the comments job, which, once authorized, reports the bad-link
   error without looking anything up.
   */
  lemma UnsplittableLinkStartsDoomedJob(apiId: string, apiHash: string, digits: string, maxText: string,
                                        script: Round, budget: nat, net: Network)
    requires apiId != [] && apiHash != [] && ParseInt(maxText).Some? && FitsCInt(ParseInt(maxText).value) && ParseInt(apiId).Some?
    requires digits != [] && AllDigits(digits) && budget > 0
    ensures var link := ShortPrefix + digits;
      && StartParsing(apiId, apiHash, link, maxText, ModeText(CommentsJob)) == Launch(CommentsJob, link, ParseInt(maxText).value)
      && var t, auth := Run(CommentsJob, link, ParseInt(maxText).value, script, budget, net), Handshake(script);
      && t == Intro(CommentsJob) + auth.trace + (if auth.ok then [Error(BadCommentLinkText)] else AuthFailed(auth, budget - 1))
      && Count(t, LookupKind) == 0
  {
    var link := ShortPrefix + digits;
    PostLinkTestAdmitsUnsplittable(digits);
    assert link[|link| - 1] == digits[|digits| - 1];
    DigitIsNotSpace(digits[|digits| - 1]);
    StripUnchanged(link);
    ValidLaunches(apiId, apiHash, link, maxText, ModeText(CommentsJob));
    UnsplittablePostLink(CommentsJob, link, ParseInt(maxText).value, script, budget, net);
  }

  lemma DigitIsNotSpace(c: char)
    requires IsDigit(c)
    ensures !IsSpace(c)
  {
  }
}
