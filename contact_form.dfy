/**
 * Submission check of the contact form: name and message must not be
 * blank after trimming, and the trimmed email must match the pattern
 * ^[^\s@]+@[^\s@]+\.[^\s@]+$ .
 */
module ContactForm {

  /**
   * ECMAScript white space and line terminators: the characters `trim`
   * strips and the regular-expression class `\s` matches.
   */
  const Whitespace: set<char> := {
    '\U{0009}', '\U{000A}', '\U{000B}', '\U{000C}', '\U{000D}', '\U{0020}', '\U{00A0}', '\U{1680}',
    '\U{2000}', '\U{2001}', '\U{2002}', '\U{2003}', '\U{2004}', '\U{2005}', '\U{2006}', '\U{2007}',
    '\U{2008}', '\U{2009}', '\U{200A}', '\U{2028}', '\U{2029}', '\U{202F}', '\U{205F}', '\U{3000}',
    '\U{FEFF}'
  }

  predicate IsWhitespace(c: char)
  {
    c in Whitespace
  }

  predicate AllWhitespace(s: string)
  {
    forall i :: 0 <= i < |s| ==> IsWhitespace(s[i])
  }

  /** How many white-space characters `s` starts with. */
  function LeadingSpace(s: string): (n: nat)
    ensures n <= |s|
    ensures forall k :: 0 <= k < n ==> IsWhitespace(s[k])
    ensures n < |s| ==> !IsWhitespace(s[n])
  {
    if s != [] && IsWhitespace(s[0]) then
      var n := 1 + LeadingSpace(s[1..]);
      assert forall k :: 1 <= k < n ==> s[k] == s[1..][k - 1];
      n
    else 0
  }

  /** The position just past the last character of `s` that is not white space (0 if none). */
  function LastNonSpaceEnd(s: string): (m: nat)
    ensures m <= |s|
    ensures forall k :: m <= k < |s| ==> IsWhitespace(s[k])
    ensures m > 0 ==> !IsWhitespace(s[m - 1])
  {
    if s != [] && IsWhitespace(s[|s| - 1]) then LastNonSpaceEnd(s[..|s| - 1]) else |s|
  }

  /** String.prototype.trim */
  function Trim(s: string): (r: string)
    ensures r == [] <==> AllWhitespace(s)
    ensures r == [] || (!IsWhitespace(r[0]) && !IsWhitespace(r[|r| - 1]))
    ensures var a := LeadingSpace(s);
      && a + |r| <= |s| && r == s[a..a + |r|]
      && forall k :: 0 <= k < |s| && !(a <= k < a + |r|) ==> IsWhitespace(s[k])
  {
    var a, b := LeadingSpace(s), LastNonSpaceEnd(s);
    if a < b then s[a..b] else []
  }

  // ---------------------------------------------------------------------
  // The email pattern
  // ---------------------------------------------------------------------

  /** A run of `[^\s@]` characters. */
  predicate NoSpaceOrAt(s: string)
  {
    forall i :: 0 <= i < |s| ==> !IsWhitespace(s[i]) && s[i] != '@'
  }

  /**
   * `e` matches ^[^\s@]+@[^\s@]+\.[^\s@]+$ with the `@` at position `at`
   * and the literal `.` at position `dot`.
   */
  predicate MatchesAt(e: string, at: int, dot: int)
  {
    && 0 < at && at + 1 < dot && dot + 1 < |e|
    && e[at] == '@' && e[dot] == '.'
    && NoSpaceOrAt(e[..at]) && NoSpaceOrAt(e[at + 1..dot]) && NoSpaceOrAt(e[dot + 1..])
  }

  /** The regular expression's test: some way of matching it exists. */
  predicate MatchesEmailPattern(e: string)
  {
    exists at, dot | 0 <= at < |e| && 0 <= dot < |e| :: MatchesAt(e, at, dot)
  }

  /** How many times `c` occurs in `s`. */
  function Occurrences(s: string, c: char): (n: nat)
  {
    if s == [] then 0 else (if s[0] == c then 1 else 0) + Occurrences(s[1..], c)
  }

  lemma {:induction false} OccurrencesConcat(a: string, b: string, c: char)
    ensures Occurrences(a + b, c) == Occurrences(a, c) + Occurrences(b, c)
  {
    if a == [] {
      assert a + b == b;
    } else {
      assert (a + b)[0] == a[0];
      assert (a + b)[1..] == a[1..] + b;
      OccurrencesConcat(a[1..], b, c);
    }
  }

  lemma {:induction false} OccurrencesNone(s: string, c: char)
    ensures Occurrences(s, c) == 0 <==> forall i :: 0 <= i < |s| ==> s[i] != c
  {
    if s != [] {
      OccurrencesNone(s[1..], c);
      if Occurrences(s, c) == 0 {
        forall i | 0 <= i < |s| ensures s[i] != c {
          if i > 0 { assert s[i] == s[1..][i - 1]; }
        }
      } else if s[0] != c {
        var k :| 0 <= k < |s[1..]| && s[1..][k] == c;
        assert s[k + 1] == c;
      }
    }
  }

  /** `c` occurs exactly once in `s`, at position k. */
  lemma {:induction false} OccursOnlyAt(s: string, c: char, k: nat)
    requires k < |s|
    ensures (Occurrences(s, c) == 1 && s[k] == c) <==>
      (s[k] == c && forall i :: 0 <= i < |s| && i != k ==> s[i] != c)
  {
    assert s == s[..k] + [s[k]] + s[k + 1..];
    OccurrencesConcat(s[..k] + [s[k]], s[k + 1..], c);
    OccurrencesConcat(s[..k], [s[k]], c);
    OccurrencesNone(s[..k], c);
    OccurrencesNone(s[k + 1..], c);
    if s[k] == c && forall i :: 0 <= i < |s| && i != k ==> s[i] != c {
      forall i | 0 <= i < |s[..k]| ensures s[..k][i] != c {
        assert s[..k][i] == s[i];
      }
      var after := s[k + 1..];
      forall i | 0 <= i < |after| ensures after[i] != c {
        assert after[i] == s[k + 1 + i];
      }
    }
  }

  /** The domain part contains a `.` that is neither its first nor its last character. */
  predicate HasInnerDot(d: string)
  {
    exists p :: 0 < p < |d| - 1 && d[p] == '.'
  }

  /**
   * The pattern read as four conditions: exactly one `@`, no white space,
   * a non-empty local part, and an inner dot in the domain.
   */
  predicate LooksLikeEmail(e: string)
  {
    && Occurrences(e, '@') == 1
    && (forall i :: 0 <= i < |e| ==> !IsWhitespace(e[i]))
    && exists at :: 0 < at < |e| && e[at] == '@' && HasInnerDot(e[at + 1..])
  }

  /** The regular expression accepts exactly the strings of the four-condition reading. */
  lemma {:induction false} EmailPatternReading(e: string)
    ensures MatchesEmailPattern(e) <==> LooksLikeEmail(e)
  {
    if MatchesEmailPattern(e) {
      var at, dot :| 0 <= at < |e| && 0 <= dot < |e| && MatchesAt(e, at, dot);
      forall i | 0 <= i < |e| ensures !IsWhitespace(e[i]) && (i != at ==> e[i] != '@') {
        if i < at {
          assert e[i] == e[..at][i];
        } else if at < i < dot {
          assert e[i] == e[at + 1..dot][i - at - 1];
        } else if dot < i {
          assert e[i] == e[dot + 1..][i - dot - 1];
        }
      }
      OccursOnlyAt(e, '@', at);
      assert e[at + 1..][dot - at - 1] == '.';
    }
    if LooksLikeEmail(e) {
      var at :| 0 < at < |e| && e[at] == '@' && HasInnerDot(e[at + 1..]);
      var p :| 0 < p < |e[at + 1..]| - 1 && e[at + 1..][p] == '.';
      var dot := at + 1 + p;
      OccursOnlyAt(e, '@', at);
      assert MatchesAt(e, at, dot);
    }
  }

  // ---------------------------------------------------------------------
  // The submit handler
  // ---------------------------------------------------------------------

  /** What the submit handler does: block with one of two alerts, or let the form through. */
  datatype Verdict = Incomplete | InvalidEmail | Accepted

  /** The checks of the submit handler, in their order. */
  function CheckSubmission(name: string, email: string, message: string): (v: Verdict)
    ensures v == Incomplete <==> AllWhitespace(name) || AllWhitespace(message)
    ensures v == Accepted <==>
      !AllWhitespace(name) && !AllWhitespace(message) && LooksLikeEmail(Trim(email))
  {
    EmailPatternReading(Trim(email));
    if Trim(name) == [] || Trim(message) == [] then Incomplete
    else if MatchesEmailPattern(Trim(email)) then Accepted
    else InvalidEmail
  }

  /** A blank name or message is reported before the email is looked at. */
  lemma {:induction false} BlankBeforeEmail(name: string, email1: string, email2: string, message: string)
    requires AllWhitespace(name) || AllWhitespace(message)
    ensures CheckSubmission(name, email1, message) == CheckSubmission(name, email2, message) == Incomplete
  {
  }
}
