/**
 The Python string and integer primitives that the parser threads and the
 window rely on: `str.strip()`, `str.replace(pat, "")`, `str.split(c)`,
 `int(text)` and `str(n)`. Strings are sequences of Unicode scalar values,
 as Python's `str` is, so lengths and slices agree with Python's.
 */
module Text {

  datatype Option<+T> = None | Some(value: T)

  datatype Result<+T> = Ok(value: T) | Err(error: string)

  function Min(a: int, b: int): int { if a <= b then a else b }

  /** Python's `str.isspace()` for one code point. */
  predicate IsSpace(c: char) {
    || c == ' ' || ('\t' <= c <= '\r') || ('\U{1C}' <= c <= '\U{1F}')
    || c == '\U{85}' || c == '\U{A0}' || c == '\U{1680}'
    || ('\U{2000}' <= c <= '\U{200A}') || c == '\U{2028}' || c == '\U{2029}'
    || c == '\U{202F}' || c == '\U{205F}' || c == '\U{3000}'
  }

  // ---------------------------------------------------------------------------
  // str.strip()
  // ---------------------------------------------------------------------------

  function TrimLeft(s: string): (r: string)
    ensures |r| <= |s|
  {
    if |s| > 0 && IsSpace(s[0]) then TrimLeft(s[1..]) else s
  }

  function TrimRight(s: string): (r: string)
    ensures |r| <= |s|
  {
    if |s| > 0 && IsSpace(s[|s| - 1]) then TrimRight(s[..|s| - 1]) else s
  }

  /** `TrimLeft` cuts a run of whitespace off the front, and all of it. */
  lemma {:induction false} TrimLeftCuts(s: string)
    ensures var r := TrimLeft(s);
      && |r| <= |s| && r == s[|s| - |r|..]
      && (forall i :: 0 <= i < |s| - |r| ==> IsSpace(s[i]))
      && (r != [] ==> !IsSpace(r[0]))
    decreases |s|
  {
    if |s| > 0 && IsSpace(s[0]) {
      TrimLeftCuts(s[1..]);
    }
  }

  /** `TrimRight` cuts a run of whitespace off the back, and all of it. */
  lemma {:induction false} TrimRightCuts(s: string)
    ensures var r := TrimRight(s);
      && |r| <= |s| && r == s[..|r|]
      && (forall i :: |r| <= i < |s| ==> IsSpace(s[i]))
      && (r != [] ==> !IsSpace(r[|r| - 1]))
    decreases |s|
  {
    if |s| > 0 && IsSpace(s[|s| - 1]) {
      TrimRightCuts(s[..|s| - 1]);
    }
  }

  /** `s.strip()`: the longest infix of `s` that neither starts nor ends with whitespace. */
  function Strip(s: string): (r: string)
  {
    TrimRight(TrimLeft(s))
  }

  /** What `Strip` returns: `s` cut at two points, with only whitespace cut away. */
  lemma StripIsInfix(s: string)
    ensures var r, i := Strip(s), |s| - |TrimLeft(s)|;
      0 <= i <= |s| - |r| && r == s[i..i + |r|]
        && (forall k :: 0 <= k < i ==> IsSpace(s[k]))
        && (forall k :: i + |r| <= k < |s| ==> IsSpace(s[k]))
        && (r != [] ==> !IsSpace(r[0]) && !IsSpace(r[|r| - 1]))
  {
    StripCuts(s);
    StripTail(s);
    StripEnds(s);
  }

  lemma StripCuts(s: string)
    ensures var r, i := Strip(s), |s| - |TrimLeft(s)|;
      0 <= i <= |s| - |r| && r == s[i..i + |r|]
  {
    TrimLeftCuts(s);
    TrimRightCuts(TrimLeft(s));
    var l := TrimLeft(s);
    var r := TrimRight(l);
    var i := |s| - |l|;
    assert l == s[i..];
    assert r == l[..|r|];
  }

  lemma StripTail(s: string)
    ensures var r, i := Strip(s), |s| - |TrimLeft(s)|;
      forall k :: i + |r| <= k < |s| ==> IsSpace(s[k])
  {
    TrimLeftCuts(s);
    TrimRightCuts(TrimLeft(s));
    var l := TrimLeft(s);
    var r := TrimRight(l);
    var i := |s| - |l|;
    forall k | i + |r| <= k < |s| ensures IsSpace(s[k]) {
      var j := k - i;
      assert |r| <= j < |l|;
      assert IsSpace(l[j]);
      assert s[k] == l[j];
    }
  }

  lemma StripEnds(s: string)
    ensures var r := Strip(s); r != [] ==> !IsSpace(r[0]) && !IsSpace(r[|r| - 1])
  {
    TrimLeftCuts(s);
    TrimRightCuts(TrimLeft(s));
    var l := TrimLeft(s);
    var r := TrimRight(l);
    if r != [] {
      assert r[0] == l[0];
    }
  }

  /** A string without surrounding whitespace is its own strip. */
  lemma StripUnchanged(s: string)
    requires s != [] ==> !IsSpace(s[0]) && !IsSpace(s[|s| - 1])
    ensures Strip(s) == s
  {
  }

  lemma StripIdempotent(s: string)
    ensures Strip(Strip(s)) == Strip(s)
  {
    StripIsInfix(s);
    StripUnchanged(Strip(s));
  }

  // ---------------------------------------------------------------------------
  // str.replace(pat, "")
  // ---------------------------------------------------------------------------

  /**
   `s.replace(pat, "")`: scanning from the left, every non-overlapping
   occurrence of `pat` is removed, wherever it stands in `s`.
   */
  function RemoveAll(s: string, pat: string): (r: string)
    requires pat != []
    ensures |r| <= |s|
    ensures forall c :: c in r ==> c in s
    decreases |s|
  {
    if |s| < |pat| then s
    else if s[..|pat|] == pat then RemoveAll(s[|pat|..], pat)
    else [s[0]] + RemoveAll(s[1..], pat)
  }

  /** A string that lacks one character of `pat` holds no occurrence and is left alone. */
  lemma {:induction false} RemoveAllAbsent(s: string, pat: string, c: char)
    requires pat != [] && c in pat && c !in s
    ensures RemoveAll(s, pat) == s
    decreases |s|
  {
    if |s| < |pat| {
    } else {
      assert s[..|pat|] != pat;
      RemoveAllAbsent(s[1..], pat, c);
      assert s == [s[0]] + s[1..];
    }
  }

  /** `pat` occurs in `s` starting at index `i`. */
  predicate OccursAt(s: string, pat: string, i: nat)
  {
    i + |pat| <= |s| && s[i..i + |pat|] == pat
  }

  /** The replacement leaves `s` as it is exactly when `pat` does not occur in `s`. */
  lemma {:induction false} RemoveAllUnchanged(s: string, pat: string)
    requires pat != []
    ensures RemoveAll(s, pat) == s <==> forall i: nat :: !OccursAt(s, pat, i)
    decreases |s|
  {
    if |s| < |pat| {
    } else if s[..|pat|] == pat {
      assert OccursAt(s, pat, 0);
    } else {
      RemoveAllUnchanged(s[1..], pat);
      assert !OccursAt(s, pat, 0);
      forall i: nat | OccursAt(s[1..], pat, i)
        ensures OccursAt(s, pat, i + 1)
      {
        assert s[1..][i..i + |pat|] == s[i + 1..i + 1 + |pat|];
      }
      forall i: nat | i > 0 && OccursAt(s, pat, i)
        ensures OccursAt(s[1..], pat, i - 1)
      {
        assert s[1..][i - 1..i - 1 + |pat|] == s[i..i + |pat|];
      }
      if RemoveAll(s, pat) == s {
        assert RemoveAll(s[1..], pat) == s[1..];
      }
      if forall i: nat :: !OccursAt(s, pat, i) {
        assert s == [s[0]] + s[1..];
      }
    }
  }

  /**
   Everything before the first occurrence of `pat` is kept, that occurrence
   is removed, and the scan goes on after it.
   */
  lemma {:induction false} RemoveAllFirst(s: string, pat: string, i: nat)
    requires pat != [] && OccursAt(s, pat, i)
    requires forall j: nat :: j < i ==> !OccursAt(s, pat, j)
    ensures RemoveAll(s, pat) == s[..i] + RemoveAll(s[i + |pat|..], pat)
    decreases i
  {
    var after := RemoveAll(s[i + |pat|..], pat);
    if i == 0 {
      assert s[..|pat|] == pat;
      assert RemoveAll(s, pat) == after;
      assert s[..i] + after == after;
    } else {
      assert |s| >= |pat| && s[..|pat|] != pat by {
        assert !OccursAt(s, pat, 0);
      }
      assert RemoveAll(s, pat) == [s[0]] + RemoveAll(s[1..], pat);
      RemoveAllFirstAfter(s, pat, i);
      var kept := s[1..][..i - 1];
      assert [s[0]] + kept == s[..i];
      AppendAssoc([s[0]], kept, after);
    }
  }

  /** The step of `RemoveAllFirst`: the same decomposition one character on. */
  lemma {:induction false} RemoveAllFirstAfter(s: string, pat: string, i: nat)
    requires pat != [] && i > 0 && OccursAt(s, pat, i)
    requires forall j: nat :: j < i ==> !OccursAt(s, pat, j)
    ensures RemoveAll(s[1..], pat) == s[1..][..i - 1] + RemoveAll(s[i + |pat|..], pat)
    decreases i, 0
  {
    var t := s[1..];
    assert t[i - 1..i - 1 + |pat|] == s[i..i + |pat|];
    forall j: nat | j < i - 1
      ensures !OccursAt(t, pat, j)
    {
      assert !OccursAt(s, pat, j + 1);
      assert t[j..j + |pat|] == s[j + 1..j + 1 + |pat|];
    }
    RemoveAllFirst(t, pat, i - 1);
    assert t[i - 1 + |pat|..] == s[i + |pat|..];
  }

  /** An occurrence of `pat` at the front is removed and the scan goes on after it. */
  lemma RemoveAllLeading(pat: string, rest: string)
    requires pat != []
    ensures RemoveAll(pat + rest, pat) == RemoveAll(rest, pat)
  {
    assert (pat + rest)[..|pat|] == pat;
    assert (pat + rest)[|pat|..] == rest;
  }

  // ---------------------------------------------------------------------------
  // str.split(c) and s.split(c)[0]
  // ---------------------------------------------------------------------------

  /** Index of the first `c` in `s`, or `|s|` when there is none. */
  function IndexOf(s: string, c: char): (i: nat)
    ensures i <= |s|
    ensures i < |s| ==> s[i] == c
  {
    if |s| == 0 then 0 else if s[0] == c then 0 else 1 + IndexOf(s[1..], c)
  }

  /** No `c` comes before `IndexOf(s, c)`, so the index is `|s|` exactly when `s` holds no `c`. */
  lemma {:induction false} IndexOfFirst(s: string, c: char)
    ensures forall k :: 0 <= k < IndexOf(s, c) ==> s[k] != c
    ensures IndexOf(s, c) == |s| <==> c !in s
    decreases |s|
  {
    if |s| > 0 && s[0] != c {
      IndexOfFirst(s[1..], c);
      assert forall k :: 1 <= k < |s| ==> s[k] == s[1..][k - 1];
      assert s == [s[0]] + s[1..];
    }
  }

  /** `s.split(c)[0]`: everything before the first `c`. */
  function Before(s: string, c: char): (r: string)
    ensures c !in r
    ensures c !in s ==> r == s
  {
    IndexOfFirst(s, c);
    s[..IndexOf(s, c)]
  }

  /** `s.split(c)`: the pieces between the occurrences of `c`. */
  function Split(s: string, c: char): (parts: seq<string>)
    ensures |parts| >= 1
    ensures parts[0] == Before(s, c)
    ensures |parts| >= 2 <==> c in s
    ensures forall k :: 0 <= k < |parts| ==> c !in parts[k]
    decreases |s|
  {
    IndexOfFirst(s, c);
    var i := IndexOf(s, c);
    if i == |s| then [s] else [s[..i]] + Split(s[i + 1..], c)
  }

  /** `c.join(parts)`. */
  function Join(parts: seq<string>, c: char): string
    requires |parts| >= 1
  {
    if |parts| == 1 then parts[0] else parts[0] + [c] + Join(parts[1..], c)
  }

  /** Splitting loses nothing: joining the pieces gives the string back. */
  lemma {:induction false} JoinSplit(s: string, c: char)
    ensures Join(Split(s, c), c) == s
    decreases |s|
  {
    var i := IndexOf(s, c);
    if i < |s| {
      var tail := s[i + 1..];
      JoinSplit(tail, c);
      JoinStep(s[..i], Split(tail, c), c);
      CutAt(s, i);
    }
  }

  /** A string is the part before index `i`, the character there, and the part after. */
  lemma CutAt(s: string, i: nat)
    requires i < |s|
    ensures s == s[..i] + [s[i]] + s[i + 1..]
  {
  }

  lemma JoinStep(first: string, rest: seq<string>, c: char)
    requires |rest| >= 1
    ensures Join([first] + rest, c) == first + [c] + Join(rest, c)
  {
    assert ([first] + rest)[1..] == rest;
  }

  /** Concatenation is associative; stated once for the proofs that regroup traces and strings. */
  lemma AppendAssoc<T>(a: seq<T>, b: seq<T>, c: seq<T>)
    ensures a + (b + c) == a + b + c
  {
  }

  /** The first `c` of `a + [c] + b` is the one after `a`, when `a` holds none. */
  lemma {:induction false} IndexOfAfter(a: string, b: string, c: char)
    requires c !in a
    ensures IndexOf(a + [c] + b, c) == |a|
    ensures Before(a + [c] + b, c) == a
    ensures Split(a + [c] + b, c)[1] == Before(b, c)
  {
    var s := a + [c] + b;
    if a != [] {
      assert s[1..] == a[1..] + [c] + b;
      IndexOfAfter(a[1..], b, c);
    }
    assert s[|a| + 1..] == b;
  }

  /** The second piece of the split, for a string holding `c`. */
  lemma SecondPiece(s: string, c: char)
    requires c in s
    ensures var i := IndexOf(s, c);
      Split(s, c)[1] == Before(s[i + 1..], c)
  {
  }

  // ---------------------------------------------------------------------------
  // Decimal digits, str(n) and int(text)
  // ---------------------------------------------------------------------------

  predicate IsDigit(c: char) { '0' <= c <= '9' }

  /** Every character is an ASCII digit; stated by recursion so that it unfolds one character at a time. */
  predicate AllDigits(s: string) { s == [] || (IsDigit(s[|s| - 1]) && AllDigits(s[..|s| - 1])) }

  lemma {:induction false} AllDigitsAt(s: string)
    ensures AllDigits(s) <==> forall k :: 0 <= k < |s| ==> IsDigit(s[k])
    decreases |s|
  {
    if s != [] {
      AllDigitsAt(s[..|s| - 1]);
      assert forall k :: 0 <= k < |s| - 1 ==> s[..|s| - 1][k] == s[k];
    }
  }

  /** A digit string holds none of the separators links are cut at. */
  lemma DigitsHaveNoMarks(s: string)
    requires AllDigits(s)
    ensures ':' !in s && '.' !in s && '/' !in s && '?' !in s
  {
    AllDigitsAt(s);
  }

  lemma AllDigitsPrepend(c: char, s: string)
    requires IsDigit(c)
    ensures AllDigits(s) ==> AllDigits([c] + s)
  {
    AllDigitsAt(s);
    AllDigitsAt([c] + s);
  }

  function DigitChar(d: nat): (c: char)
    requires d < 10
    ensures IsDigit(c)
  {
    ['0', '1', '2', '3', '4', '5', '6', '7', '8', '9'][d]
  }

  function DigitValue(c: char): (d: nat)
    requires IsDigit(c)
    ensures d < 10 && DigitChar(d) == c
  {
    (c as int - '0' as int) as nat
  }

  /** The value of a string of decimal digits, most significant first. */
  function DigitsValue(s: string): nat
    requires AllDigits(s)
  {
    if s == [] then 0 else 10 * DigitsValue(s[..|s| - 1]) + DigitValue(s[|s| - 1])
  }

  /** `str(n)` for `n >= 0`: no leading zeros except for `0` itself. */
  function DecimalString(n: nat): (s: string)
    ensures s != [] && AllDigits(s)
    ensures |s| > 1 ==> s[0] != '0'
  {
    if n < 10 then [DigitChar(n)] else DecimalString(n / 10) + [DigitChar(n % 10)]
  }

  /** `str(i)` for any Python integer. */
  function IntToString(i: int): string
  {
    if i < 0 then "-" + DecimalString(-i) else DecimalString(i)
  }

  lemma {:induction false} DecimalStringValue(n: nat)
    ensures DigitsValue(DecimalString(n)) == n
  {
    if n >= 10 {
      var s := DecimalString(n);
      DecimalStringValue(n / 10);
      assert s[..|s| - 1] == DecimalString(n / 10);
    }
  }

  /**
   `int(text)` on the texts it accepts: surrounding whitespace, an optional
   sign and at least one ASCII digit; anything else raises `ValueError`,
   modelled as `None`.
   */
  function ParseInt(text: string): (r: Option<int>)
    ensures r.Some? ==> Strip(text) != []
  {
    var t := Strip(text);
    var signed := |t| > 0 && (t[0] == '+' || t[0] == '-');
    var body := if signed then t[1..] else t;
    if body != [] && AllDigits(body) then
      Some(if signed && t[0] == '-' then -(DigitsValue(body) as int) else DigitsValue(body))
    else None
  }

  /** Printing an integer and reading it back gives the integer. */
  lemma IntToStringRoundTrip(i: int)
    ensures ParseInt(IntToString(i)) == Some(i)
  {
    var s := IntToString(i);
    var digits := DecimalString(if i < 0 then -i else i);
    DecimalStringValue(if i < 0 then -i else i);
    AllDigitsAt(digits);
    StripUnchanged(s);
    if i < 0 {
      assert s[1..] == digits;
    }
  }

  /** A plain string of ASCII digits reads as its decimal value. */
  lemma ParseIntDigits(s: string)
    requires s != [] && AllDigits(s)
    ensures ParseInt(s) == Some(DigitsValue(s) as int)
  {
    AllDigitsAt(s);
    StripUnchanged(s);
  }

  /** A text with a non-digit after its sign is refused, whatever else it holds. */
  lemma ParseIntRejects(text: string, k: nat)
    requires var t := Strip(text); 0 < k < |t| && !IsDigit(t[k])
    ensures ParseInt(text) == None
  {
    var t := Strip(text);
    var signed := t[0] == '+' || t[0] == '-';
    var body := if signed then t[1..] else t;
    AllDigitsAt(body);
    assert body[if signed then k - 1 else k] == t[k];
  }
}
