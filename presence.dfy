/**
 A user's presence status as the API reports it, the label the parser shows
 for it (`get_user_status_text`, src/main.py:34-51), and the
 `"%Y-%m-%d %H:%M:%S"` rendering of a timestamp used for 'Last Online' and
 for message dates.
 */
module Presence {
  import opened Text

  /** A broken-down calendar timestamp, as a `datetime` holds it. */
  datatype DateTime = DateTime(year: nat, month: nat, day: nat, hour: nat, minute: nat, second: nat)

  /**
   The status variants the parser distinguishes. `Unrecognised` stands for
   every other variant the API may send.
   */
  datatype UserStatus =
    | Online
    | Offline(wasOnline: DateTime)
    | Recently
    | LastWeek
    | LastMonth
    | Empty
    | Unrecognised

  const Hidden := "Скрыто"
  const LongAgo := "Давно"

  /** The label of a status; `None` is a user whose status is not given at all. */
  function StatusText(status: Option<UserStatus>): (caption: string)
    ensures caption != []
    ensures caption == Hidden <==> status == None || status == Some(Empty)
    ensures caption == LongAgo <==> status == Some(Unrecognised)
  {
    match status
    case None => Hidden
    case Some(Online) => "Онлайн"
    case Some(Offline(_)) => "Оффлайн"
    case Some(Recently) => "Недавно"
    case Some(LastWeek) => "Был на этой неделе"
    case Some(LastMonth) => "Был в этом месяце"
    case Some(Empty) => Hidden
    case Some(Unrecognised) => LongAgo
  }

  /** Two statuses belong to one class when the classifier need not tell them apart. */
  predicate SameClass(a: Option<UserStatus>, b: Option<UserStatus>) {
    var hidden := (s: Option<UserStatus>) => s == None || s == Some(Empty);
    if hidden(a) || hidden(b) then hidden(a) && hidden(b)
    else (a.value.Offline? && b.value.Offline?) || a == b
  }

  /** Distinct classes get distinct labels: the label tells the class back. */
  lemma LabelsDistinguishClasses(a: Option<UserStatus>, b: Option<UserStatus>)
    ensures StatusText(a) == StatusText(b) <==> SameClass(a, b)
  {
  }

  /** `n` in decimal, left-padded with zeros to `width` characters. */
  function ZeroPad(n: nat, width: nat): (s: string)
    ensures |s| >= width && AllDigits(s)
  {
    PadLeft(DecimalString(n), width)
  }

  function PadLeft(s: string, width: nat): (r: string)
    ensures |r| >= width && (AllDigits(s) ==> AllDigits(r))
    decreases width - |s|
  {
    if |s| >= width then s else AllDigitsPrepend('0', s); PadLeft("0" + s, width)
  }

  /** `ts.strftime("%Y-%m-%d %H:%M:%S")`. */
  function FormatDate(ts: DateTime): (s: string)
    ensures |s| >= 19
  {
    ZeroPad(ts.year, 4) + "-" + ZeroPad(ts.month, 2) + "-" + ZeroPad(ts.day, 2) + " "
      + ZeroPad(ts.hour, 2) + ":" + ZeroPad(ts.minute, 2) + ":" + ZeroPad(ts.second, 2)
  }

  /** A field, a separator and the rest of the rendering. */
  function Joined(field: string, sep: char, rest: string): (s: string)
    ensures |s| == |field| + 1 + |rest|
  {
    field + [sep] + rest
  }

  /** Six fields with five separators, read as nested `Joined` texts. */
  lemma NestFields(a: string, b: string, c: string, d: string, e: string, f: string,
                   s1: char, s2: char, s3: char, s4: char, s5: char)
    ensures a + [s1] + b + [s2] + c + [s3] + d + [s4] + e + [s5] + f
      == Joined(a, s1, Joined(b, s2, Joined(c, s3, Joined(d, s4, Joined(e, s5, f)))))
  {
  }

  /** The rendering as nested `Joined` texts. */
  lemma FormatDateNested(ts: DateTime)
    ensures FormatDate(ts) == Joined(ZeroPad(ts.year, 4), '-', Joined(ZeroPad(ts.month, 2), '-', Joined(ZeroPad(ts.day, 2), ' ',
      Joined(ZeroPad(ts.hour, 2), ':', Joined(ZeroPad(ts.minute, 2), ':', ZeroPad(ts.second, 2))))))
  {
    NestFields(ZeroPad(ts.year, 4), ZeroPad(ts.month, 2), ZeroPad(ts.day, 2), ZeroPad(ts.hour, 2), ZeroPad(ts.minute, 2),
      ZeroPad(ts.second, 2), '-', '-', ' ', ':', ':');
  }

  /** The pieces of a joined text are found at their positions. */
  lemma JoinedParts(field: string, sep: char, rest: string)
    ensures var s := Joined(field, sep, rest);
      s[..|field|] == field && s[|field|] == sep && s[|field| + 1..] == rest
  {
    var s := Joined(field, sep, rest);
    assert s[..|field|] == field;
    assert s[|field| + 1..] == rest;
  }

  function Pow10(w: nat): (p: nat)
    ensures p >= 1
  {
    if w == 0 then 1 else 10 * Pow10(w - 1)
  }

  /** A leading zero does not change the value of a digit string. */
  lemma {:induction false} LeadingZeroValue(s: string)
    requires AllDigits(s)
    ensures AllDigits("0" + s) && DigitsValue("0" + s) == DigitsValue(s)
    decreases |s|
  {
    AllDigitsPrepend('0', s);
    if s != [] {
      var init := s[..|s| - 1];
      LeadingZeroValue(init);
      assert ("0" + s)[..|"0" + s| - 1] == "0" + init;
    }
  }

  /** A number below `10^w` has at most `w` decimal digits. */
  lemma {:induction false} DecimalStringWidth(n: nat, w: nat)
    requires 1 <= w && n < Pow10(w)
    ensures |DecimalString(n)| <= w
    decreases w
  {
    if n >= 10 {
      DecimalStringWidth(n / 10, w - 1);
    }
  }

  /** Padding keeps the value and reaches exactly the width when the text is not longer. */
  lemma {:induction false} PadLeftValue(s: string, width: nat)
    requires AllDigits(s)
    ensures |PadLeft(s, width)| == if |s| >= width then |s| else width
    ensures DigitsValue(PadLeft(s, width)) == DigitsValue(s)
    decreases width - |s|
  {
    if |s| < width {
      LeadingZeroValue(s);
      PadLeftValue("0" + s, width);
    }
  }

  /** A number below `10^w`, zero padded to `w`, is `w` digits that spell it. */
  lemma ZeroPadValue(n: nat, w: nat)
    requires 1 <= w && n < Pow10(w)
    ensures |ZeroPad(n, w)| == w && DigitsValue(ZeroPad(n, w)) == n
  {
    DecimalStringWidth(n, w);
    PadLeftValue(DecimalString(n), w);
    DecimalStringValue(n);
  }

  /** The fields of a timestamp whose year has at most four digits and whose other fields at most two. */
  predicate InRange(ts: DateTime)
  {
    ts.year < 10000 && ts.month < 100 && ts.day < 100 && ts.hour < 100 && ts.minute < 100 && ts.second < 100
  }

  /**
   The rendering reads back: nineteen characters with the separators of
   `YYYY-MM-DD HH:MM:SS` in place, and each field spelling its value.
   */
  lemma FormatDateLayout(ts: DateTime)
    requires InRange(ts)
    ensures var s := FormatDate(ts);
      && |s| == 19
      && s[4] == '-' && s[7] == '-' && s[10] == ' ' && s[13] == ':' && s[16] == ':'
      && AllDigits(s[..4]) && DigitsValue(s[..4]) == ts.year
      && AllDigits(s[5..7]) && DigitsValue(s[5..7]) == ts.month
      && AllDigits(s[8..10]) && DigitsValue(s[8..10]) == ts.day
      && AllDigits(s[11..13]) && DigitsValue(s[11..13]) == ts.hour
      && AllDigits(s[14..16]) && DigitsValue(s[14..16]) == ts.minute
      && AllDigits(s[17..]) && DigitsValue(s[17..]) == ts.second
  {
    ZeroPadValue(ts.year, 4);
    ZeroPadValue(ts.month, 2);
    ZeroPadValue(ts.day, 2);
    ZeroPadValue(ts.hour, 2);
    ZeroPadValue(ts.minute, 2);
    ZeroPadValue(ts.second, 2);
    FormatDateNested(ts);
    FieldsLayout(ZeroPad(ts.year, 4), ZeroPad(ts.month, 2), ZeroPad(ts.day, 2), ZeroPad(ts.hour, 2), ZeroPad(ts.minute, 2),
      ZeroPad(ts.second, 2));
  }

  /** Fields of widths 4, 2, 2, 2, 2, 2 joined with the date's separators sit at fixed positions. */
  lemma FieldsLayout(y: string, mo: string, d: string, h: string, mi: string, se: string)
    requires |y| == 4 && |mo| == 2 && |d| == 2 && |h| == 2 && |mi| == 2 && |se| == 2
    ensures var s := Joined(y, '-', Joined(mo, '-', Joined(d, ' ', Joined(h, ':', Joined(mi, ':', se)))));
      && |s| == 19
      && s[4] == '-' && s[7] == '-' && s[10] == ' ' && s[13] == ':' && s[16] == ':'
      && s[..4] == y && s[5..7] == mo && s[8..10] == d && s[11..13] == h && s[14..16] == mi && s[17..] == se
  {
    var r4 := Joined(mi, ':', se);
    var r3 := Joined(h, ':', r4);
    var r2 := Joined(d, ' ', r3);
    var r1 := Joined(mo, '-', r2);
    var s := Joined(y, '-', r1);
    JoinedParts(y, '-', r1);
    JoinedParts(mo, '-', r2);
    JoinedParts(d, ' ', r3);
    JoinedParts(h, ':', r4);
    JoinedParts(mi, ':', se);
    assert s[5..7] == r1[..2];
    assert s[8..10] == r2[..2];
    assert s[11..13] == r3[..2];
    assert s[14..16] == r4[..2];
    assert s[17..] == se;
  }
}
