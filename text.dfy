/**
 * Character classes and string operations that the orchestrator relies on:
 * JavaScript's `\s` / `String.prototype.trim` white space, `\w` word characters,
 * `includes`, ASCII `toLowerCase`, and the decimal rendering of a number in a
 * template string.
 */
module Text {

  /** JavaScript white space and line terminators: the class `\s` and what `trim` removes. */
  predicate IsSpace(c: char) {
    c == '\t' || c == '\n' || c == '\U{0B}' || c == '\U{0C}' || c == '\r' || c == ' '
    || c == '\U{A0}' || c == '\U{1680}' || ('\U{2000}' <= c <= '\U{200A}')
    || c == '\U{2028}' || c == '\U{2029}' || c == '\U{202F}' || c == '\U{205F}'
    || c == '\U{3000}' || c == '\U{FEFF}'
  }

  predicate IsDigit(c: char) { '0' <= c <= '9' }

  predicate IsLetter(c: char) { 'A' <= c <= 'Z' || 'a' <= c <= 'z' }

  /** The regular-expression class `\w`. */
  predicate IsWordChar(c: char) { IsLetter(c) || IsDigit(c) || c == '_' }

  /** The class `[A-Za-z_]` that starts a `$NAME` reference. */
  predicate IsIdentStart(c: char) { IsLetter(c) || c == '_' }

  predicate NotQuote(c: char) { c != '"' }

  predicate NotNewline(c: char) { c != '\n' }

  /** The character classes whose runs the matchers scan. */
  datatype Class = Space | Digit | Word | NonQuote | NonNewline

  predicate In(k: Class, c: char) {
    match k
    case Space => IsSpace(c)
    case Digit => IsDigit(c)
    case Word => IsWordChar(c)
    case NonQuote => NotQuote(c)
    case NonNewline => NotNewline(c)
  }

  /** End of the longest run of characters of class `p` that starts at `i`. */
  function SpanEnd(s: string, i: nat, p: Class): (e: nat)
    requires i <= |s|
    ensures i <= e <= |s|
    ensures forall k :: i <= k < e ==> In(p, s[k])
    ensures e == |s| || !In(p, s[e])
    decreases |s| - i
  {
    if i == |s| || !In(p, s[i]) then i else SpanEnd(s, i + 1, p)
  }

  /** A run end is determined by its two defining facts. */
  lemma SpanEndUnique(s: string, i: nat, p: Class, j: nat)
    requires i <= j <= |s|
    requires forall k :: i <= k < j ==> In(p, s[k])
    requires j == |s| || !In(p, s[j])
    ensures SpanEnd(s, i, p) == j
  {
  }

  // ---------------------------------------------------------------- substrings

  ghost predicate OccursAt(s: string, sub: string, i: nat) {
    i + |sub| <= |s| && s[i..i + |sub|] == sub
  }

  /** `s.includes(sub)`. */
  function Contains(s: string, sub: string): bool
    decreases |s|
  {
    if |sub| > |s| then false
    else if s[..|sub|] == sub then true
    else Contains(s[1..], sub)
  }

  /** `Contains` finds an occurrence exactly when there is one. */
  lemma {:induction false} ContainsSpec(s: string, sub: string)
    ensures Contains(s, sub) <==> exists i: nat :: OccursAt(s, sub, i)
    decreases |s|
  {
    if |sub| > |s| {
    } else if s[..|sub|] == sub {
      assert OccursAt(s, sub, 0);
    } else {
      ContainsSpec(s[1..], sub);
      if Contains(s[1..], sub) {
        var i: nat :| OccursAt(s[1..], sub, i);
        assert s[i + 1..i + 1 + |sub|] == s[1..][i..i + |sub|];
        assert OccursAt(s, sub, i + 1);
      } else {
        forall i: nat | OccursAt(s, sub, i) ensures false {
          assert i != 0;
          assert s[1..][i - 1..i - 1 + |sub|] == s[i..i + |sub|];
          assert OccursAt(s[1..], sub, i - 1);
        }
      }
    }
  }

  // ----------------------------------------------------------------- lower case

  function LowerChar(c: char): char {
    if 'A' <= c <= 'Z' then (c as int + 32) as char else c
  }

  /** `toLowerCase`, restricted to ASCII letters. */
  function Lower(s: string): (r: string)
    ensures |r| == |s|
    ensures forall i :: 0 <= i < |s| ==> r[i] == LowerChar(s[i])
  {
    seq(|s|, i requires 0 <= i < |s| => LowerChar(s[i]))
  }

  /** `s.toLowerCase().includes(word)`. */
  function ContainsIgnoringCase(s: string, word: string): bool {
    Contains(Lower(s), word)
  }

  /** An exact occurrence of a lower-case word is also found when case is ignored,
      and so is an occurrence written in capitals. */
  lemma ExactOccurrenceFoundIgnoringCase(s: string, word: string, i: nat)
    requires forall k :: 0 <= k < |word| ==> LowerChar(word[k]) == word[k]
    requires i + |word| <= |s|
    requires forall k :: 0 <= k < |word| ==> LowerChar(s[i + k]) == word[k]
    ensures ContainsIgnoringCase(s, word)
  {
    var l := Lower(s);
    assert l[i..i + |word|] == word by {
      forall k | 0 <= k < |word| ensures l[i..i + |word|][k] == word[k] {
        assert l[i + k] == LowerChar(s[i + k]);
      }
    }
    assert OccursAt(l, word, i);
    ContainsSpec(l, word);
  }

  /** `word` occurs at `i` once the characters of `s` are lower-cased. */
  ghost predicate OccursIgnoringCaseAt(s: string, word: string, i: nat) {
    i + |word| <= |s| && forall k :: 0 <= k < |word| ==> LowerChar(s[i + k]) == word[k]
  }

  /** The case-insensitive test finds `word` exactly when, at some position, the
      lower-cased characters of `s` spell it. */
  lemma ContainsIgnoringCaseSpec(s: string, word: string)
    ensures ContainsIgnoringCase(s, word) <==> exists i: nat :: OccursIgnoringCaseAt(s, word, i)
  {
    var l := Lower(s);
    ContainsSpec(l, word);
    forall i: nat ensures OccursAt(l, word, i) <==> OccursIgnoringCaseAt(s, word, i) {
      if i + |word| <= |s| {
        var part := l[i..i + |word|];
        assert forall k :: 0 <= k < |word| ==> part[k] == l[i + k];
      }
    }
  }

  // ----------------------------------------------------------------------- trim

  /** `String.prototype.trim`. */
  function Trim(s: string): string {
    TrimEnd(TrimStart(s))
  }

  function TrimStart(s: string): string
    decreases |s|
  {
    if s != [] && IsSpace(s[0]) then TrimStart(s[1..]) else s
  }

  function TrimEnd(s: string): string
    decreases |s|
  {
    if s != [] && IsSpace(s[|s| - 1]) then TrimEnd(s[..|s| - 1]) else s
  }

  /** Trimming removes exactly the white space at both ends and keeps the middle. */
  lemma TrimSpec(s: string)
    ensures var r := Trim(s);
      && (r == [] || (!IsSpace(r[0]) && !IsSpace(r[|r| - 1])))
      && exists i: nat :: OccursAt(s, r, i)
                          && (forall k :: 0 <= k < i ==> IsSpace(s[k]))
                          && (forall k :: i + |r| <= k < |s| ==> IsSpace(s[k]))
  {
    var i := TrimStartSpec(s);
    var t := s[i..];
    var j := TrimEndSpec(t);
    assert Trim(s) == s[i..i + j];
    assert forall k :: i + j <= k < |s| ==> s[k] == t[k - i];
    assert OccursAt(s, Trim(s), i);
  }

  lemma {:induction false} TrimStartSpec(s: string) returns (i: nat)
    ensures i <= |s| && TrimStart(s) == s[i..]
    ensures forall k :: 0 <= k < i ==> IsSpace(s[k])
    ensures i == |s| || !IsSpace(s[i])
    decreases |s|
  {
    if s != [] && IsSpace(s[0]) {
      var i' := TrimStartSpec(s[1..]);
      i := i' + 1;
      assert s[1..][i'..] == s[i..];
    } else {
      i := 0;
    }
  }

  lemma {:induction false} TrimEndSpec(s: string) returns (j: nat)
    ensures j <= |s| && TrimEnd(s) == s[..j]
    ensures forall k :: j <= k < |s| ==> IsSpace(s[k])
    ensures j == 0 || !IsSpace(s[j - 1])
    decreases |s|
  {
    if s != [] && IsSpace(s[|s| - 1]) {
      j := TrimEndSpec(s[..|s| - 1]);
      assert s[..|s| - 1][..j] == s[..j];
    } else {
      j := |s|;
    }
  }

  /** Trimmed output is left unchanged by a second trim. */
  lemma TrimIdempotent(s: string)
    ensures Trim(Trim(s)) == Trim(s)
  {
    TrimSpec(s);
  }

  // ------------------------------------------------------------ decimal numbers

  function DigitChar(d: nat): (c: char)
    requires d < 10
    ensures IsDigit(c)
  {
    ('0' as int + d) as char
  }

  /** `${n}` for a non-negative integer: decimal digits without leading zeros. */
  function NatToString(n: nat): (s: string)
    ensures |s| > 0
    ensures forall k :: 0 <= k < |s| ==> IsDigit(s[k])
    ensures |s| > 1 ==> s[0] != '0'
    decreases n
  {
    if n < 10 then [DigitChar(n)] else NatToString(n / 10) + [DigitChar(n % 10)]
  }

  /** The value of a string of decimal digits. */
  function DecimalValue(s: string): nat
    requires forall k :: 0 <= k < |s| ==> IsDigit(s[k])
  {
    if s == [] then 0
    else
      assert IsDigit(s[|s| - 1]);
      DecimalValue(s[..|s| - 1]) * 10 + (s[|s| - 1] as int - '0' as int)
  }

  /** Rendering a number in decimal loses nothing. */
  lemma {:induction false} NatToStringRoundTrip(n: nat)
    ensures DecimalValue(NatToString(n)) == n
    decreases n
  {
    if n >= 10 {
      NatToStringRoundTrip(n / 10);
      var s := NatToString(n);
      assert s[..|s| - 1] == NatToString(n / 10);
    }
  }
}
