/** Failure-carrying wrappers and the few Python string operations the
    commenter relies on: `in` on strings, `str()` of an optional value,
    `str()` of an integer, `str.replace` on one character and `str.title`. */
module Common {

  datatype Option<+T> = None | Some(value: T)

  datatype Result<+T, +E> = Success(value: T) | Failure(error: E)

  /** An HTTP reply as the client sees it: a status code and a decoded body. */
  datatype Reply<+T> = Reply(status: int, payload: T)

  /** `pat` is a prefix of `s`. */
  predicate IsPrefix(pat: string, s: string) {
    |pat| <= |s| && s[..|pat|] == pat
  }

  lemma PrefixOfLonger(pat: string, s: string, t: string)
    requires IsPrefix(pat, s)
    ensures IsPrefix(pat, s + t)
  {
    assert (s + t)[..|pat|] == s[..|pat|];
  }

  /** Python's `pat in s` on two strings. */
  predicate IsSubstring(pat: string, s: string)
    decreases |s|
  {
    IsPrefix(pat, s) || (|s| > 0 && IsSubstring(pat, s[1..]))
  }

  lemma {:induction false} SubstringOfLonger(pat: string, s: string, t: string)
    requires IsSubstring(pat, s)
    ensures IsSubstring(pat, s + t)
    decreases |s|
  {
    if IsPrefix(pat, s) {
      assert (s + t)[..|pat|] == s[..|pat|];
    } else {
      SubstringOfLonger(pat, s[1..], t);
      assert (s + t)[1..] == s[1..] + t;
    }
  }

  lemma {:induction false} SubstringAfterPrefix(pat: string, s: string, t: string)
    requires IsSubstring(pat, t)
    ensures IsSubstring(pat, s + t)
    decreases |s|
  {
    if s == [] {
      assert s + t == t;
    } else {
      SubstringAfterPrefix(pat, s[1..], t);
      assert (s + t)[1..] == s[1..] + t;
    }
  }

  /** Python's f-string rendering of a value that is a string or None. */
  function PyStr(v: Option<string>): string {
    match v
    case None => "None"
    case Some(s) => s
  }

  function DigitChar(d: nat): char
    requires d < 10
  {
    "0123456789"[d]
  }

  function NatDecimal(n: nat): string
    decreases n
  {
    if n < 10 then [DigitChar(n)] else NatDecimal(n / 10) + [DigitChar(n % 10)]
  }

  /** Python's `str(n)` for an integer. */
  function Decimal(n: int): string {
    if n < 0 then "-" + NatDecimal(-n) else NatDecimal(n)
  }

  /** Python's `s.replace(a, b)` for one-character `a` and `b`. */
  function ReplaceChar(s: string, a: char, b: char): (r: string)
    ensures |r| == |s|
    ensures forall i :: 0 <= i < |s| ==> r[i] == if s[i] == a then b else s[i]
    ensures a != b ==> forall i :: 0 <= i < |r| ==> r[i] != a
  {
    if s == [] then [] else [if s[0] == a then b else s[0]] + ReplaceChar(s[1..], a, b)
  }

  predicate IsAsciiLetter(c: char) {
    'a' <= c <= 'z' || 'A' <= c <= 'Z'
  }

  function AsciiUpper(c: char): char {
    if 'a' <= c <= 'z' then (c as int - 32) as char else c
  }

  function AsciiLower(c: char): char {
    if 'A' <= c <= 'Z' then (c as int + 32) as char else c
  }

  /** Python's `s.title()` on ASCII text: a letter is upper-cased when the
      character before it is not a letter and lower-cased otherwise; every
      other character is kept. `afterLetter` says whether the character
      before `s` was a letter. Only the case of letters changes. */
  function TitleFrom(s: string, afterLetter: bool): (r: string)
    ensures |r| == |s|
    ensures forall i :: 0 <= i < |s| ==> (r[i] == '_' <==> s[i] == '_')
  {
    if s == [] then []
    else
      var c := s[0];
      var c' := if !IsAsciiLetter(c) then c else if afterLetter then AsciiLower(c) else AsciiUpper(c);
      [c'] + TitleFrom(s[1..], IsAsciiLetter(c))
  }

  function Title(s: string): string {
    TitleFrom(s, false)
  }
}
