/**
 The interactive authorization handshake of a parser thread
 (`TelegramParserThread.ensure_auth`, src/main.py:93-151) together with the
 window's dialog handlers that answer its prompts (src/main.py:685-697).

 The Telegram client is a finite script of replies, one `Round` per entry
 into the procedure. A FloodWait reply carries the round the procedure
 re-enters after sleeping, so the recursion of src/main.py:116 consumes
 the script and terminates. A wait point is either answered through the
 dialog while the thread is still running, or `Stopped`: the user stopped
 the thread before an answer was taken.
 */
module Auth {
  import opened Text
  import opened Events

  /** One wait point: the dialog's `(text, ok)` pair, or a stop. */
  datatype Wait = Answered(ok: bool, input: string) | Stopped

  /**
   `is_user_authorized()`, and `get_me().first_name` when it is true; or the
   exception that connecting the client (`ensure_client`), the check or
   `get_me()` raises, which leaves `ensure_auth` before any signal.
   */
  datatype AuthCheck = AlreadyAuthorized(firstName: Option<string>) | NotAuthorized | CheckFailed(error: string)

  /** The replies the client and the user give during one entry into the procedure. */
  datatype Round = Round(
    check: AuthCheck,
    phone: Wait,
    sendCode: SendCodeReply,
    code: Wait,
    signIn: SignInReply,
    password: Wait,
    passwordSignIn: PasswordReply)

  /** `send_code_request(phone)`: success, `FloodWaitError` or any other exception. */
  datatype SendCodeReply = CodeSent | FloodWait(seconds: int, retry: Round) | SendFailed(error: string)

  /** `sign_in(phone=..., code=...)`: success, `SessionPasswordNeededError` or any other exception. */
  datatype SignInReply = SignedIn | PasswordNeeded | SignInFailed(error: string)

  /** `sign_in(password=...)`: success or any exception. */
  datatype PasswordReply = PasswordAccepted | PasswordRejected(error: string)

  /**
   What `ensure_auth` emits and what it returns, or, in `raised`, the
   exception that leaves it instead of a return value.
   */
  datatype AuthResult = AuthResult(ok: bool, trace: seq<Event>, raised: Option<string>)

  const PhonePrompt := "Введите номер телефона (например: +1234567890)"

  /**
   What `handle_auth_code` stores in `auth_code`: the stripped text when the
   dialog is accepted, and `""` when it is cancelled or holds only whitespace.
   */
  function DialogCode(ok: bool, input: string): (stored: string)
    ensures Strip(stored) == stored
    ensures stored == [] <==> !ok || Strip(input) == []
    ensures ok ==> stored == Strip(input)
  {
    if ok && input != "" then
      StripIdempotent(input);
      Strip(input)
    else ""
  }

  /** What `handle_auth_password` stores in `auth_password`: the text as typed, or `""`. */
  function DialogPassword(ok: bool, input: string): (stored: string)
    ensures stored == (if ok then input else [])
  {
    if ok && input != "" then input else ""
  }

  /** How `{me.first_name}` renders: Python prints a missing name as `None`. */
  function NameText(name: Option<string>): string
  {
    match name
    case None => "None"
    case Some(n) => n
  }

  function AuthorizedText(name: Option<string>): string { "✅ Авторизован как: " + NameText(name) }
  function SendingText(phone: string): string { "📤 Отправляем код на " + phone + "…" }
  function FloodWaitText(seconds: int): string { "⏳ FloodWait: " + IntToString(seconds) + " сек" }
  function SendFailedText(e: string): string { "❌ Не удалось отправить код: " + e }
  function CodePromptText(phone: string): string { "Введите код из SMS/Telegram для " + phone }
  const SignedInText := "✅ Авторизация успешна"
  function SignInFailedText(e: string): string { "❌ Ошибка авторизации: " + e }
  const PasswordNeededText := "🔐 Требуется пароль 2FA…"
  const PasswordSignedInText := "✅ Авторизация с 2FA успешна"
  function PasswordRejectedText(e: string): string { "❌ Неверный пароль 2FA: " + e }

  /** `head` happens first, then what `res` describes. */
  function Then(head: seq<Event>, res: AuthResult): (r: AuthResult)
    ensures r.ok == res.ok && r.trace == head + res.trace && r.raised == res.raised
  {
    AuthResult(res.ok, head + res.trace, res.raised)
  }

  /** The emitted signals and client requests of `ensure_auth`, and the value it returns. */
  function Handshake(r: Round): AuthResult
    decreases r, 5
  {
    match r.check
    case AlreadyAuthorized(name) => AuthResult(true, [Status(AuthorizedText(name))], None)
    case CheckFailed(e) => AuthResult(false, [], Some(e))
    case NotAuthorized => Then([CodePrompt(PhonePrompt)], PhoneStage(r))
  }

  /** src/main.py:103-112: the wait for the phone, then the code request. */
  function PhoneStage(r: Round): AuthResult
    decreases r, 4
  {
    match r.phone
    case Stopped => AuthResult(false, [], None)
    case Answered(ok, input) =>
      var phone := Strip(DialogCode(ok, input));
      Then([Status(SendingText(phone)), SendCode(phone)], SendStage(r, phone))
  }

  /** src/main.py:113-122: the reply to the code request. */
  function SendStage(r: Round, phone: string): AuthResult
    decreases r, 3
  {
    match r.sendCode
    case FloodWait(seconds, retry) => Then([Status(FloodWaitText(seconds))], Handshake(retry))
    case SendFailed(e) => AuthResult(false, [Error(SendFailedText(e))], None)
    case CodeSent => Then([CodePrompt(CodePromptText(phone))], CodeStage(r, phone))
  }

  /** src/main.py:123-131: the wait for the code, then the sign-in. */
  function CodeStage(r: Round, phone: string): AuthResult
  {
    match r.code
    case Stopped => AuthResult(false, [], None)
    case Answered(ok, input) => Then([SignIn(phone, Strip(DialogCode(ok, input)))], SignInStage(r))
  }

  /** src/main.py:132-137 and 149-151: the reply to the sign-in. */
  function SignInStage(r: Round): AuthResult
  {
    match r.signIn
    case SignedIn => AuthResult(true, [Status(SignedInText)], None)
    case SignInFailed(e) => AuthResult(false, [Error(SignInFailedText(e))], None)
    case PasswordNeeded => Then([Status(PasswordNeededText), PasswordPrompt], PasswordStage(r))
  }

  /** src/main.py:138-148: the wait for the password, then the password sign-in. */
  function PasswordStage(r: Round): AuthResult
  {
    match r.password
    case Stopped => AuthResult(false, [], None)
    case Answered(ok, input) =>
      var last := match r.passwordSignIn
        case PasswordAccepted => AuthResult(true, [Status(PasswordSignedInText)], None)
        case PasswordRejected(e) => AuthResult(false, [Error(PasswordRejectedText(e))], None);
      Then([SignInPassword(DialogPassword(ok, input))], last)
  }

  // ---------------------------------------------------------------------------
  // How a script ends, read off the script alone
  // ---------------------------------------------------------------------------

  /** The way the procedure leaves the last round it enters. */
  datatype Ending = WasAuthorized | CodeAccepted | PasswordAccepted2FA | Cancelled | SendError | CodeError | PasswordError | Raised

  /** The ending the script leads to, following FloodWait retries. */
  function EndOf(r: Round): Ending
    decreases r
  {
    if r.check.AlreadyAuthorized? then WasAuthorized
    else if r.check.CheckFailed? then Raised
    else if r.phone.Stopped? then Cancelled
    else if r.sendCode.FloodWait? then EndOf(r.sendCode.retry)
    else SendEnding(r)
  }

  /** The ending of a round whose code request is not answered with FloodWait. */
  function SendEnding(r: Round): Ending
  {
    if r.sendCode.SendFailed? then SendError
    else if r.code.Stopped? then Cancelled
    else if r.signIn.SignedIn? then CodeAccepted
    else if r.signIn.SignInFailed? then CodeError
    else if r.password.Stopped? then Cancelled
    else if r.passwordSignIn.PasswordAccepted? then PasswordAccepted2FA
    else PasswordError
  }

  predicate IsSuccess(e: Ending) { e == WasAuthorized || e == CodeAccepted || e == PasswordAccepted2FA }

  predicate IsFailure(e: Ending) { e == SendError || e == CodeError || e == PasswordError }

  /**
   `res` ends as `e` says: true exactly on a success, an exception exactly
   when the check raised, exactly one error on a failure and none
   otherwise, and the error, when there is one, last.
   */
  predicate Reports(res: AuthResult, e: Ending)
  {
    && (res.ok <==> IsSuccess(e))
    && (res.raised.Some? <==> e == Raised)
    && Count(res.trace, ErrorKind) == (if IsFailure(e) then 1 else 0)
    && ((res.trace != [] && res.trace[|res.trace| - 1].Error?) <==> IsFailure(e))
  }

  lemma ThenReports(head: seq<Event>, res: AuthResult, e: Ending)
    requires Count(head, ErrorKind) == 0 && Reports(res, e)
    ensures Reports(Then(head, res), e)
  {
    CountAppend(head, res.trace, ErrorKind);
    var t := head + res.trace;
    if res.trace != [] {
      assert t[|t| - 1] == res.trace[|res.trace| - 1];
    } else if head != [] {
      assert t == head;
      assert !head[|head| - 1].Error?;
    }
  }

  /** How many code requests the script leads to: one per entry answered with a phone. */
  function Requests(r: Round): nat
    decreases r
  {
    if !r.check.NotAuthorized? || r.phone.Stopped? then 0
    else if r.sendCode.FloodWait? then 1 + Requests(r.sendCode.retry)
    else 1
  }

  // ---------------------------------------------------------------------------
  // Properties of the handshake
  // ---------------------------------------------------------------------------

  /**
   The procedure returns true exactly when the script ends in a success and
   raises exactly when the last check raises; a failed request emits
   exactly one error, a stop or a raise none; the error, when there is one,
   is the last event. Only a check that raises at once emits nothing.
   */
  lemma {:induction false} HandshakeOutcome(r: Round)
    ensures Handshake(r).trace == [] <==> r.check.CheckFailed?
    ensures Reports(Handshake(r), EndOf(r))
    decreases r
  {
    if r.check.NotAuthorized? {
      if r.phone.Answered? {
        var phone := Strip(DialogCode(r.phone.ok, r.phone.input));
        if r.sendCode.FloodWait? {
          HandshakeOutcome(r.sendCode.retry);
          ThenReports([Status(FloodWaitText(r.sendCode.seconds))], Handshake(r.sendCode.retry), EndOf(r));
        } else {
          SendStageOutcome(r, phone);
        }
        ThenReports([Status(SendingText(phone)), SendCode(phone)], SendStage(r, phone), EndOf(r));
      }
      ThenReports([CodePrompt(PhonePrompt)], PhoneStage(r), EndOf(r));
    }
  }

  lemma SendStageOutcome(r: Round, phone: string)
    requires !r.sendCode.FloodWait?
    ensures Reports(SendStage(r, phone), SendEnding(r))
  {
    if r.sendCode.CodeSent? {
      CodeStageOutcome(r, phone);
      ThenReports([CodePrompt(CodePromptText(phone))], CodeStage(r, phone), SendEnding(r));
    }
  }

  lemma CodeStageOutcome(r: Round, phone: string)
    requires r.sendCode.CodeSent?
    ensures Reports(CodeStage(r, phone), SendEnding(r))
  {
    if r.code.Answered? {
      SignInStageOutcome(r);
      ThenReports([SignIn(phone, Strip(DialogCode(r.code.ok, r.code.input)))], SignInStage(r), SendEnding(r));
    }
  }

  lemma SignInStageOutcome(r: Round)
    requires r.sendCode.CodeSent? && r.code.Answered?
    ensures Reports(SignInStage(r), SendEnding(r))
  {
    if r.signIn.PasswordNeeded? {
      PasswordStageOutcome(r);
      ThenReports([Status(PasswordNeededText), PasswordPrompt], PasswordStage(r), SendEnding(r));
    }
  }

  lemma PasswordStageOutcome(r: Round)
    requires r.sendCode.CodeSent? && r.code.Answered? && r.signIn.PasswordNeeded?
    ensures Reports(PasswordStage(r), SendEnding(r))
  {
  }

  /** A stop at any wait point makes the procedure return false without an error. */
  lemma StopIsSilent(r: Round)
    requires EndOf(r) == Cancelled
    ensures !Handshake(r).ok && Count(Handshake(r).trace, ErrorKind) == 0
  {
    HandshakeOutcome(r);
  }

  /** An authorized session returns true at once and prompts for nothing. */
  lemma AuthorizedSkipsPrompts(r: Round)
    requires r.check.AlreadyAuthorized?
    ensures Handshake(r).ok
    ensures Handshake(r).trace == [Status(AuthorizedText(r.check.firstName))]
    ensures Count(Handshake(r).trace, PromptKind) == 0
  {
  }

  /**
   After a FloodWait the procedure starts over: it checks the authorization
   again, prompts for the phone again when needed, and returns what the new
   entry returns.
   */
  lemma FloodWaitRestarts(r: Round)
    requires r.check.NotAuthorized? && r.phone.Answered? && r.sendCode.FloodWait?
    ensures var res, again := Handshake(r), Handshake(r.sendCode.retry);
      && res.ok == again.ok
      && |res.trace| == 4 + |again.trace|
      && res.trace[4..] == again.trace
      && res.trace[3] == Status(FloodWaitText(r.sendCode.seconds))
      && (r.sendCode.retry.check.NotAuthorized? ==> res.trace[4] == CodePrompt(PhonePrompt))
  {
    var phone := Strip(DialogCode(r.phone.ok, r.phone.input));
    var again := Handshake(r.sendCode.retry);
    assert SendStage(r, phone) == Then([Status(FloodWaitText(r.sendCode.seconds))], again);
    assert PhoneStage(r) == Then([Status(SendingText(phone)), SendCode(phone)], SendStage(r, phone));
    assert Handshake(r) == Then([CodePrompt(PhonePrompt)], PhoneStage(r));
  }

  /** One code request per entry answered with a phone. */
  lemma {:induction false} CodeRequestsPerEntry(r: Round)
    ensures Count(Handshake(r).trace, CodeRequestKind) == Requests(r)
    decreases r, 1
  {
    if r.check.NotAuthorized? {
      var asked := [CodePrompt(PhonePrompt)];
      assert Handshake(r) == Then(asked, PhoneStage(r));
      if r.phone.Answered? {
        CodeRequestsAfterPhone(r);
      }
      CountAppend(asked, PhoneStage(r).trace, CodeRequestKind);
    }
  }

  /** The same from the answered phone prompt on. */
  lemma {:induction false} CodeRequestsAfterPhone(r: Round)
    requires r.check.NotAuthorized? && r.phone.Answered?
    ensures Count(PhoneStage(r).trace, CodeRequestKind) == Requests(r)
    decreases r, 0
  {
    var phone := Strip(DialogCode(r.phone.ok, r.phone.input));
    var head := [Status(SendingText(phone)), SendCode(phone)];
    assert PhoneStage(r) == Then(head, SendStage(r, phone));
    if r.sendCode.FloodWait? {
      var waited := [Status(FloodWaitText(r.sendCode.seconds))];
      assert SendStage(r, phone) == Then(waited, Handshake(r.sendCode.retry));
      CodeRequestsPerEntry(r.sendCode.retry);
      CountAppend(waited, Handshake(r.sendCode.retry).trace, CodeRequestKind);
    } else {
      NothingAfterCode(r, phone, CodeRequestKind);
    }
    CountAppend(head, SendStage(r, phone).trace, CodeRequestKind);
  }

  /**
   The handshake neither looks up an entity nor emits a result: it never
   touches the chat the job is about, and `finished_signal` belongs to the job.
   */
  lemma {:induction false} HandshakeStaysOut(r: Round, k: Kind)
    requires k == LookupKind || k == FinishKind
    ensures Count(Handshake(r).trace, k) == 0
    decreases r, 1
  {
    if r.check.NotAuthorized? {
      var asked := [CodePrompt(PhonePrompt)];
      assert Handshake(r) == Then(asked, PhoneStage(r));
      if r.phone.Answered? {
        StaysOutAfterPhone(r, k);
      }
      CountAppend(asked, PhoneStage(r).trace, k);
    }
  }

  /** The same from the answered phone prompt on. */
  lemma {:induction false} StaysOutAfterPhone(r: Round, k: Kind)
    requires r.check.NotAuthorized? && r.phone.Answered?
    requires k == LookupKind || k == FinishKind
    ensures Count(PhoneStage(r).trace, k) == 0
    decreases r, 0
  {
    var phone := Strip(DialogCode(r.phone.ok, r.phone.input));
    var head := [Status(SendingText(phone)), SendCode(phone)];
    assert PhoneStage(r) == Then(head, SendStage(r, phone));
    if r.sendCode.FloodWait? {
      var waited := [Status(FloodWaitText(r.sendCode.seconds))];
      assert SendStage(r, phone) == Then(waited, Handshake(r.sendCode.retry));
      HandshakeStaysOut(r.sendCode.retry, k);
      CountAppend(waited, Handshake(r.sendCode.retry).trace, k);
    } else {
      NothingAfterCode(r, phone, k);
    }
    CountAppend(head, SendStage(r, phone).trace, k);
  }

  /** Once the code is sent, no further code request, lookup or result follows. */
  lemma NothingAfterCode(r: Round, phone: string, k: Kind)
    requires !r.sendCode.FloodWait?
    requires k == LookupKind || k == FinishKind || k == CodeRequestKind
    ensures Count(SendStage(r, phone).trace, k) == 0
  {
    var t := SendStage(r, phone).trace;
    assert forall i :: 0 <= i < |t| ==> !t[i].GetEntity? && !t[i].SendCode? && !t[i].Finished?;
    CountZero(t, k);
  }

  /**
   What the user typed is what the client receives: the phone and the code
   stripped, the password as typed, and a cancelled or empty dialog as the
   empty string rather than as a stop.
   */
  lemma RepliesAreSubmitted(r: Round)
    requires r.check.NotAuthorized? && r.phone.Answered?
    ensures var t, phone := Handshake(r).trace, if r.phone.ok then Strip(r.phone.input) else "";
      && |t| >= 3
      && t[2] == SendCode(phone)
      && (r.sendCode.CodeSent? && r.code.Answered? ==>
            |t| >= 5 && t[4] == SignIn(phone, if r.code.ok then Strip(r.code.input) else ""))
      && (r.sendCode.CodeSent? && r.code.Answered? && r.signIn.PasswordNeeded? && r.password.Answered? ==>
            |t| >= 8 && t[7] == SignInPassword(if r.password.ok then r.password.input else ""))
  {
    StripIdempotent(r.phone.input);
    var phone := Strip(DialogCode(r.phone.ok, r.phone.input));
    assert phone == if r.phone.ok then Strip(r.phone.input) else "";
    assert Handshake(r) == Then([CodePrompt(PhonePrompt)], PhoneStage(r));
    assert PhoneStage(r) == Then([Status(SendingText(phone)), SendCode(phone)], SendStage(r, phone));
    if r.sendCode.CodeSent? && r.code.Answered? {
      StripIdempotent(r.code.input);
      var code := Strip(DialogCode(r.code.ok, r.code.input));
      assert code == if r.code.ok then Strip(r.code.input) else "";
      assert SendStage(r, phone) == Then([CodePrompt(CodePromptText(phone))], CodeStage(r, phone));
      assert CodeStage(r, phone) == Then([SignIn(phone, code)], SignInStage(r));
      if r.signIn.PasswordNeeded? && r.password.Answered? {
        assert SignInStage(r) == Then([Status(PasswordNeededText), PasswordPrompt], PasswordStage(r));
      }
    }
  }

  // ---------------------------------------------------------------------------
  // The thread object: the fields `ensure_auth` and the dialog handlers update
  // ---------------------------------------------------------------------------

  /** The round in which the procedure stops re-entering itself. */
  function LastRound(r: Round): Round
    decreases r
  {
    if r.check.NotAuthorized? && r.phone.Answered? && r.sendCode.FloodWait? then LastRound(r.sendCode.retry) else r
  }

  /**
   The exception that leaves the procedure is the one the check of its last
   entry raises: a failure before the first prompt, or after a FloodWait.
   */
  lemma {:induction false} RaisedByLastCheck(r: Round)
    ensures Handshake(r).raised == (if LastRound(r).check.CheckFailed? then Some(LastRound(r).check.error) else None)
    ensures EndOf(r) == Raised <==> LastRound(r).check.CheckFailed?
    decreases r
  {
    if r.check.NotAuthorized? && r.phone.Answered? {
      var phone := Strip(DialogCode(r.phone.ok, r.phone.input));
      HandshakeFront(r);
      if r.sendCode.FloodWait? {
        RaisedByLastCheck(r.sendCode.retry);
        assert SendStage(r, phone) == Then([Status(FloodWaitText(r.sendCode.seconds))], Handshake(r.sendCode.retry));
      } else {
        SendStageSilent(r, phone);
      }
    }
  }

  /** Once the code request is answered without a FloodWait, nothing raises. */
  lemma SendStageSilent(r: Round, phone: string)
    requires !r.sendCode.FloodWait?
    ensures SendStage(r, phone).raised == None && SendEnding(r) != Raised
  {
  }

  /** The round gets as far as an answered password prompt. */
  predicate AnswersPassword(r: Round)
  {
    && r.check.NotAuthorized? && r.phone.Answered? && r.sendCode.CodeSent?
    && r.code.Answered? && r.signIn.PasswordNeeded? && r.password.Answered?
  }

  lemma HandshakeUnfolds(r: Round)
    requires r.check.NotAuthorized? && r.phone.Answered?
    ensures var phone := Strip(DialogCode(r.phone.ok, r.phone.input));
      && Handshake(r) == Then([CodePrompt(PhonePrompt)], PhoneStage(r))
      && PhoneStage(r) == Then([Status(SendingText(phone)), SendCode(phone)], SendStage(r, phone))
  {
  }

  /** The first signals of an entry into the procedure that gets a phone. */
  lemma HandshakeFront(r: Round)
    requires r.check.NotAuthorized? && r.phone.Answered?
    ensures var phone := Strip(DialogCode(r.phone.ok, r.phone.input));
      && Handshake(r).ok == SendStage(r, phone).ok
      && Handshake(r).raised == SendStage(r, phone).raised
      && Handshake(r).trace == [CodePrompt(PhonePrompt), Status(SendingText(phone)), SendCode(phone)] + SendStage(r, phone).trace
  {
    HandshakeUnfolds(r);
    var phone := Strip(DialogCode(r.phone.ok, r.phone.input));
    assert Handshake(r).trace == [CodePrompt(PhonePrompt)] + ([Status(SendingText(phone)), SendCode(phone)] + SendStage(r, phone).trace);
  }

  /** An entry that is not authorized and is stopped at the phone prompt. */
  lemma PhoneStopped(r: Round)
    requires r.check.NotAuthorized? && r.phone.Stopped?
    ensures Handshake(r) == AuthResult(false, [CodePrompt(PhonePrompt)], None)
    ensures EndOf(r) == Cancelled && !AnswersPassword(r) && !Retries(r)
  {
  }

  /** An entry that is not authorized and gets a phone, split at the code request. */
  lemma PhoneAnswered(r: Round)
    requires r.check.NotAuthorized? && r.phone.Answered?
    ensures var phone := Strip(DialogCode(r.phone.ok, r.phone.input));
      var front := [CodePrompt(PhonePrompt), Status(SendingText(phone)), SendCode(phone)];
      && (Retries(r) <==> r.sendCode.FloodWait?)
      && (r.sendCode.FloodWait? ==> RetryFront(r) == front + [Status(FloodWaitText(r.sendCode.seconds))])
      && (!r.sendCode.FloodWait? ==>
            && Handshake(r) == AuthResult(SendStage(r, phone).ok, front + SendStage(r, phone).trace, SendStage(r, phone).raised)
            && EndOf(r) == SendEnding(r))
  {
    HandshakeFront(r);
  }


  /** The entry meets a FloodWait and the procedure re-enters itself. */
  predicate Retries(r: Round)
  {
    r.check.NotAuthorized? && r.phone.Answered? && r.sendCode.FloodWait?
  }

  /** What an entry that meets a FloodWait emits before re-entering. */
  function RetryFront(r: Round): (front: seq<Event>)
    requires Retries(r)
    ensures Handshake(r).trace == front + Handshake(r.sendCode.retry).trace
    ensures Handshake(r).ok == Handshake(r.sendCode.retry).ok
    ensures Handshake(r).raised == Handshake(r.sendCode.retry).raised
  {
    var phone := Strip(DialogCode(r.phone.ok, r.phone.input));
    HandshakeFront(r);
    assert SendStage(r, phone) == Then([Status(FloodWaitText(r.sendCode.seconds))], Handshake(r.sendCode.retry));
    [CodePrompt(PhonePrompt), Status(SendingText(phone)), SendCode(phone), Status(FloodWaitText(r.sendCode.seconds))]
  }

  /**
   The part of `TelegramParserThread` the handshake works on
   (src/main.py:76-80): the stop flag, the two answer slots the window's
   dialogs fill, and the signals emitted so far.
   */
  class ParserThread {
    var isRunning: bool
    var authCode: Option<string>
    var authPassword: Option<string>
    var signals: seq<Event>

    constructor ()
      ensures isRunning && authCode == None && authPassword == None && signals == []
    {
      isRunning := true;
      authCode := None;
      authPassword := None;
      signals := [];
    }

    /** `stop()`, src/main.py:161-162. */
    method Stop()
      modifies this
      ensures !isRunning
      ensures authCode == old(authCode) && authPassword == old(authPassword) && signals == old(signals)
    {
      isRunning := false;
    }

    method Emit(e: Event)
      modifies this
      ensures signals == old(signals) + [e]
      ensures isRunning == old(isRunning) && authCode == old(authCode) && authPassword == old(authPassword)
    {
      signals := signals + [e];
    }

    /** `handle_auth_code`, src/main.py:685-690: the window answers a code prompt. */
    method HandleAuthCode(ok: bool, input: string)
      modifies this
      ensures authCode == Some(DialogCode(ok, input))
      ensures isRunning == old(isRunning) && authPassword == old(authPassword) && signals == old(signals)
    {
      authCode := Some(if ok && input != "" then Strip(input) else "");
    }

    /** `handle_auth_password`, src/main.py:692-697. */
    method HandleAuthPassword(ok: bool, input: string)
      modifies this
      ensures authPassword == Some(DialogPassword(ok, input))
      ensures isRunning == old(isRunning) && authCode == old(authCode) && signals == old(signals)
    {
      authPassword := Some(if ok && input != "" then input else "");
    }

    /**
     A wait for `auth_code` (src/main.py:103-106, 123-126): the window
     answers, or the user stops the thread first.
     */
    method AwaitCode(w: Wait) returns (answered: bool)
      requires isRunning && authCode == None
      modifies this
      ensures answered == w.Answered?
      ensures answered ==> isRunning && authCode == Some(DialogCode(w.ok, w.input))
      ensures !answered ==> !isRunning && authCode == None
      ensures authPassword == old(authPassword) && signals == old(signals)
    {
      if w.Stopped? {
        Stop();
        return false;
      }
      HandleAuthCode(w.ok, w.input);
      return true;
    }

    /** The wait for `auth_password`, src/main.py:138-141. */
    method AwaitPassword(w: Wait) returns (answered: bool)
      requires isRunning
      modifies this
      ensures answered == w.Answered?
      ensures answered ==> isRunning && authPassword == Some(DialogPassword(w.ok, w.input))
      ensures !answered ==> !isRunning && authPassword == old(authPassword)
      ensures authCode == old(authCode) && signals == old(signals)
    {
      if w.Stopped? {
        Stop();
        return false;
      }
      HandleAuthPassword(w.ok, w.input);
      return true;
    }

    /**
     `ensure_auth`, src/main.py:93-151, with the FloodWait re-entry of line
     116 as a further turn of the loop. It emits exactly the signals of
     `Handshake`, returns its verdict or gives the exception that leaves it
     in `raised`, leaves `auth_code` empty, and stops the thread exactly
     when the script stops it.
     */
    method EnsureAuth(script: Round) returns (ok: bool, raised: Option<string>)
      requires isRunning && authCode == None
      modifies this
      ensures ok == Handshake(script).ok && raised == Handshake(script).raised
      ensures signals == old(signals) + Handshake(script).trace
      ensures authCode == None
      ensures isRunning <==> EndOf(script) != Cancelled
      ensures authPassword == if AnswersPassword(LastRound(script))
        then Some(DialogPassword(LastRound(script).password.ok, LastRound(script).password.input))
        else old(authPassword)
    {
      var cur := script;
      ghost var done: seq<Event> := [];
      while true
        invariant isRunning && authCode == None && authPassword == old(authPassword)
        invariant signals == old(signals) + done
        invariant Handshake(script).trace == done + Handshake(cur).trace
        invariant Handshake(script).ok == Handshake(cur).ok && Handshake(script).raised == Handshake(cur).raised
        invariant EndOf(script) == EndOf(cur) && LastRound(script) == LastRound(cur)
        decreases Requests(cur)
      {
        var again;
        again, ok, raised := Enter(cur);
        if !again {
          AppendAssoc(old(signals), done, Handshake(cur).trace);
          return;
        }
        AppendAssoc(old(signals), done, RetryFront(cur));
        AppendAssoc(done, RetryFront(cur), Handshake(cur.sendCode.retry).trace);
        done := done + RetryFront(cur);
        cur := cur.sendCode.retry;
      }
    }

    /**
     One entry into the procedure: either it returns, or it meets a FloodWait
     after emitting `RetryFront` and is to be entered again.
     */
    method Enter(r: Round) returns (again: bool, ok: bool, raised: Option<string>)
      requires isRunning && authCode == None
      modifies this
      ensures again <==> Retries(r)
      ensures authCode == None
      ensures again ==> isRunning && authPassword == old(authPassword) && signals == old(signals) + RetryFront(r)
      ensures !again ==> && ok == Handshake(r).ok && raised == Handshake(r).raised
                         && signals == old(signals) + Handshake(r).trace
                         && (isRunning <==> EndOf(r) != Cancelled)
                         && authPassword == if AnswersPassword(r)
                              then Some(DialogPassword(r.password.ok, r.password.input))
                              else old(authPassword)
    {
      if r.check.AlreadyAuthorized? {
        assert Handshake(r).trace == [Status(AuthorizedText(r.check.firstName))];
        Emit(Status(AuthorizedText(r.check.firstName)));
        return false, true, None;
      }
      if r.check.CheckFailed? {
        return false, false, Some(r.check.error);
      }
      raised := None;
      again, ok := EnterUnauthorized(r);
      if !again && r.phone.Answered? {
        HandshakeFront(r);
        SendStageSilent(r, Strip(DialogCode(r.phone.ok, r.phone.input)));
      }
    }

    /** An entry into the procedure when the session is not authorized (src/main.py:102-151). */
    method EnterUnauthorized(r: Round) returns (again: bool, ok: bool)
      requires r.check.NotAuthorized?
      requires isRunning && authCode == None
      modifies this
      ensures again <==> Retries(r)
      ensures authCode == None
      ensures again ==> isRunning && authPassword == old(authPassword) && signals == old(signals) + RetryFront(r)
      ensures !again ==> && ok == Handshake(r).ok
                         && signals == old(signals) + Handshake(r).trace
                         && (isRunning <==> EndOf(r) != Cancelled)
                         && authPassword == if AnswersPassword(r)
                              then Some(DialogPassword(r.password.ok, r.password.input))
                              else old(authPassword)
    {
      ghost var start := signals;
      var answered, phone := AskPhone(r.phone);
      if !answered {
        PhoneStopped(r);
        return false, false;
      }
      again, ok := AnswerCodeRequest(r, phone, start);
    }

    /**
     src/main.py:113-151: what follows the code request, with a FloodWait
     ending the entry; `start` is what had been emitted before the phone
     prompt, so the contract speaks of the whole entry.
     */
    method AnswerCodeRequest(r: Round, phone: string, ghost start: seq<Event>) returns (again: bool, ok: bool)
      requires r.check.NotAuthorized? && r.phone.Answered? && phone == Strip(DialogCode(r.phone.ok, r.phone.input))
      requires signals == start + [CodePrompt(PhonePrompt), Status(SendingText(phone)), SendCode(phone)]
      requires isRunning && authCode == None
      modifies this
      ensures again <==> Retries(r)
      ensures authCode == None
      ensures again ==> isRunning && authPassword == old(authPassword) && signals == start + RetryFront(r)
      ensures !again ==> && ok == Handshake(r).ok
                         && signals == start + Handshake(r).trace
                         && (isRunning <==> EndOf(r) != Cancelled)
                         && authPassword == if AnswersPassword(r)
                              then Some(DialogPassword(r.password.ok, r.password.input))
                              else old(authPassword)
    {
      ghost var front := [CodePrompt(PhonePrompt), Status(SendingText(phone)), SendCode(phone)];
      PhoneAnswered(r);
      if r.sendCode.FloodWait? {
        Emit(Status(FloodWaitText(r.sendCode.seconds)));
        AppendAssoc(start, front, [Status(FloodWaitText(r.sendCode.seconds))]);
        return true, false;
      }
      ok := SendAndSignIn(r, phone);
      AppendAssoc(start, front, SendStage(r, phone).trace);
      return false, ok;
    }

    /** src/main.py:102-112 up to the code request: the phone prompt, its wait, and the request. */
    method AskPhone(w: Wait) returns (answered: bool, phone: string)
      requires isRunning && authCode == None
      modifies this
      ensures answered == w.Answered? && authCode == None && authPassword == old(authPassword)
      ensures answered ==> isRunning && phone == Strip(DialogCode(w.ok, w.input))
      ensures !answered ==> !isRunning
      ensures signals == old(signals)
        + (if answered then [CodePrompt(PhonePrompt), Status(SendingText(phone)), SendCode(phone)] else [CodePrompt(PhonePrompt)])
    {
      Emit(CodePrompt(PhonePrompt));
      answered := AwaitCode(w);
      if !answered {
        return false, "";
      }
      phone := Strip(authCode.value);
      authCode := None;
      Emit(Status(SendingText(phone)));
      Emit(SendCode(phone));
      assert signals == old(signals) + [CodePrompt(PhonePrompt)] + [Status(SendingText(phone))] + [SendCode(phone)];
    }

    /** src/main.py:117-131: the code request was not answered with FloodWait. */
    method SendAndSignIn(r: Round, phone: string) returns (ok: bool)
      requires r.check.NotAuthorized? && r.phone.Answered? && !r.sendCode.FloodWait?
      requires isRunning && authCode == None
      modifies this
      ensures ok == SendStage(r, phone).ok
      ensures signals == old(signals) + SendStage(r, phone).trace
      ensures authCode == None
      ensures isRunning <==> SendEnding(r) != Cancelled
      ensures authPassword == if AnswersPassword(r)
        then Some(DialogPassword(r.password.ok, r.password.input))
        else old(authPassword)
    {
      if r.sendCode.SendFailed? {
        Emit(Error(SendFailedText(r.sendCode.error)));
        return false;
      }
      ghost var start := signals;
      Emit(CodePrompt(CodePromptText(phone)));
      ok := AnswerCodePrompt(r, phone, start);
    }

    /**
     src/main.py:124-137, from the wait for the code on; `start` is what had
     been emitted before the code prompt, so the contract speaks of the
     whole reply to the code request.
     */
    method AnswerCodePrompt(r: Round, phone: string, ghost start: seq<Event>) returns (ok: bool)
      requires r.check.NotAuthorized? && r.phone.Answered? && r.sendCode.CodeSent?
      requires signals == start + [CodePrompt(CodePromptText(phone))]
      requires isRunning && authCode == None
      modifies this
      ensures ok == SendStage(r, phone).ok
      ensures signals == start + SendStage(r, phone).trace
      ensures authCode == None
      ensures isRunning <==> SendEnding(r) != Cancelled
      ensures authPassword == if AnswersPassword(r)
        then Some(DialogPassword(r.password.ok, r.password.input))
        else old(authPassword)
    {
      ghost var prompt := [CodePrompt(CodePromptText(phone))];
      assert SendStage(r, phone) == Then(prompt, CodeStage(r, phone));
      var answered := AwaitCode(r.code);
      if !answered {
        return false;
      }
      var code := Strip(authCode.value);
      authCode := None;
      assert CodeStage(r, phone) == Then([SignIn(phone, code)], SignInStage(r));
      Emit(SignIn(phone, code));
      ok := SignInWithCode(r);
      AppendAssoc(start + prompt, [SignIn(phone, code)], SignInStage(r).trace);
      AppendAssoc(start, prompt, [SignIn(phone, code)] + SignInStage(r).trace);
    }

    /** src/main.py:132-137 and 149-151: the reply to the sign-in with the code. */
    method SignInWithCode(r: Round) returns (ok: bool)
      requires isRunning && authCode == None
      modifies this
      ensures ok == SignInStage(r).ok
      ensures signals == old(signals) + SignInStage(r).trace
      ensures authCode == None
      ensures isRunning <==> !(r.signIn.PasswordNeeded? && r.password.Stopped?)
      ensures authPassword == if r.signIn.PasswordNeeded? && r.password.Answered?
        then Some(DialogPassword(r.password.ok, r.password.input))
        else old(authPassword)
    {
      match r.signIn
      case SignedIn =>
        Emit(Status(SignedInText));
        return true;
      case SignInFailed(e) =>
        Emit(Error(SignInFailedText(e)));
        return false;
      case PasswordNeeded =>
        assert SignInStage(r) == Then([Status(PasswordNeededText), PasswordPrompt], PasswordStage(r));
        Emit(Status(PasswordNeededText));
        Emit(PasswordPrompt);
        ok := SignInWithPassword(r);
    }

    /** src/main.py:138-148: the wait for the password and the sign-in with it. */
    method SignInWithPassword(r: Round) returns (ok: bool)
      requires isRunning && authCode == None
      modifies this
      ensures ok == PasswordStage(r).ok
      ensures signals == old(signals) + PasswordStage(r).trace
      ensures authCode == None
      ensures isRunning <==> r.password.Answered?
      ensures authPassword == if r.password.Answered?
        then Some(DialogPassword(r.password.ok, r.password.input))
        else old(authPassword)
    {
      var answered := AwaitPassword(r.password);
      if !answered {
        return false;
      }
      Emit(SignInPassword(authPassword.value));
      match r.passwordSignIn
      case PasswordAccepted =>
        Emit(Status(PasswordSignedInText));
        return true;
      case PasswordRejected(e) =>
        Emit(Error(PasswordRejectedText(e)));
        return false;
    }
  }
}
