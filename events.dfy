/**
 What a parser thread does that the rest of the program can observe, in the
 order it happens: the Qt signals it emits (`progress_signal`,
 `progress_value`, `finished_signal`, `error_signal`, `auth_code_needed`,
 `auth_password_needed`, src/main.py:61-66) and the requests it sends to the
 Telegram client that carry arguments derived from its input.
 */
module Events {
  import opened Records

  datatype Event =
    | Status(text: string)                      // progress_signal
    | Progress(value: int)                      // progress_value
    | Finished(title: string, rows: seq<Row>)   // finished_signal
    | Error(text: string)                       // error_signal
    | CodePrompt(text: string)                  // auth_code_needed
    | PasswordPrompt                            // auth_password_needed
    | SendCode(phone: string)                   // client.send_code_request(phone)
    | SignIn(phone: string, code: string)       // client.sign_in(phone=..., code=...)
    | SignInPassword(password: string)          // client.sign_in(password=...)
    | GetEntity(handle: string)                 // client.get_entity(handle)

  /** The classes of events the properties of the model count. */
  datatype Kind = ErrorKind | FinishKind | TerminalKind | PromptKind | LookupKind | CodeRequestKind

  predicate IsKind(e: Event, k: Kind)
  {
    match k
    case ErrorKind => e.Error?
    case FinishKind => e.Finished?
    case TerminalKind => e.Finished? || e.Error?
    case PromptKind => e.CodePrompt? || e.PasswordPrompt?
    case LookupKind => e.GetEntity?
    case CodeRequestKind => e.SendCode?
  }

  /** How many events of kind `k` a trace holds. */
  function Count(t: seq<Event>, k: Kind): (n: nat)
    ensures n <= |t|
  {
    if t == [] then 0 else Count(t[..|t| - 1], k) + (if IsKind(t[|t| - 1], k) then 1 else 0)
  }

  /** No event of kind `k` exactly when the count is zero. */
  lemma {:induction false} CountZero(t: seq<Event>, k: Kind)
    ensures Count(t, k) == 0 <==> forall i :: 0 <= i < |t| ==> !IsKind(t[i], k)
  {
    if t != [] {
      CountZero(t[..|t| - 1], k);
      assert forall i :: 0 <= i < |t| - 1 ==> t[..|t| - 1][i] == t[i];
    }
  }

  lemma {:induction false} CountAppend(a: seq<Event>, b: seq<Event>, k: Kind)
    ensures Count(a + b, k) == Count(a, k) + Count(b, k)
    decreases |b|
  {
    if b == [] {
      assert a + b == a;
    } else {
      assert (a + b)[..|a + b| - 1] == a + b[..|b| - 1];
      CountAppend(a, b[..|b| - 1], k);
    }
  }

  /** A terminal event is an error or a result, so the terminal count is the sum of theirs. */
  lemma {:induction false} TerminalSplit(t: seq<Event>)
    ensures Count(t, TerminalKind) == Count(t, ErrorKind) + Count(t, FinishKind)
  {
    if t != [] {
      TerminalSplit(t[..|t| - 1]);
    }
  }

  /** Only `progress_signal` and `progress_value` emissions. */
  predicate OnlyReports(t: seq<Event>)
  {
    forall i :: 0 <= i < |t| ==> t[i].Status? || t[i].Progress?
  }

  /** Progress reports are of no counted kind. */
  lemma OnlyReportsCount(t: seq<Event>, k: Kind)
    requires OnlyReports(t)
    ensures Count(t, k) == 0
  {
  }

  /** At most one terminal event, and when there is one it comes last. */
  predicate EndsOnce(t: seq<Event>)
  {
    && Count(t, TerminalKind) <= 1
    && (Count(t, TerminalKind) == 1 ==> IsKind(t[|t| - 1], TerminalKind))
  }

  lemma EndsOnceAppend(a: seq<Event>, b: seq<Event>)
    requires Count(a, TerminalKind) == 0 && EndsOnce(b)
    ensures EndsOnce(a + b)
  {
    CountAppend(a, b, TerminalKind);
    if b == [] {
      assert a + b == a;
    } else {
      assert (a + b)[|a + b| - 1] == b[|b| - 1];
    }
  }
}
