/** The address check `/^[^\s@]+@[^\s@]+\.[^\s@]+$/` that the contact form
    and its endpoint both apply to the raw, untrimmed email string. It is a
    deliberately loose shape test, not the addr-spec grammar of section
    3.4.1 of RFC 5322. */
module EmailPattern {
  import opened Text

  /** The class `[^\s@]`. */
  predicate PartChar(c: char) {
    !IsSpace(c) && c != '@'
  }

  /** The repetition `[^\s@]+`. */
  predicate IsPart(s: string) {
    s != [] && forall k | 0 <= k < |s| :: PartChar(s[k])
  }

  /** The anchored pattern matches `s` with its `@` at index `at` and the
      literal `.` at index `dot`. */
  predicate MatchesAt(s: string, at: int, dot: int) {
    0 <= at < dot < |s| && s[at] == '@' && s[dot] == '.'
    && IsPart(s[..at]) && IsPart(s[at + 1..dot]) && IsPart(s[dot + 1..])
  }

  /** `RegExp.prototype.test` for the pattern: some way of splitting `s`
      into the three runs succeeds (the engine backtracks over the choice
      of `.`). */
  predicate Matches(s: string) {
    exists at, dot | 0 <= at < |s| && 0 <= dot < |s| :: MatchesAt(s, at, dot)
  }

  /** Number of occurrences of `c` in `s`. */
  function Count(s: string, c: char): nat {
    if s == [] then 0 else (if s[0] == c then 1 else 0) + Count(s[1..], c)
  }

  /** Index of the first `c` in `s`, or `|s|` when there is none. */
  function IndexOf(s: string, c: char): (i: nat)
    ensures i <= |s|
    ensures i < |s| ==> s[i] == c
    ensures forall k | 0 <= k < i :: s[k] != c
  {
    if s == [] then 0 else if s[0] == c then 0 else 1 + IndexOf(s[1..], c)
  }

  /** The part after the `@` has a `.` that is neither its first nor its
      last character. */
  predicate HasInnerDot(domain: string) {
    exists k | 0 < k < |domain| - 1 :: domain[k] == '.'
  }

  /** What the pattern accepts, stated field by field: no whitespace at all,
      exactly one `@`, something before it, and an inner `.` after it. */
  predicate ShapedAsAddress(s: string) {
    (forall k | 0 <= k < |s| :: !IsSpace(s[k]))
    && Count(s, '@') == 1
    && var at := IndexOf(s, '@');
       0 < at < |s| && HasInnerDot(s[at + 1..])
  }

  lemma {:induction false} CountAppend(a: string, b: string, c: char)
    ensures Count(a + b, c) == Count(a, c) + Count(b, c)
  {
    if a != [] {
      assert (a + b)[1..] == a[1..] + b;
      CountAppend(a[1..], b, c);
    } else {
      assert a + b == b;
    }
  }

  lemma {:induction false} CountZero(s: string, c: char)
    ensures Count(s, c) == 0 <==> forall k | 0 <= k < |s| :: s[k] != c
  {
    if s != [] {
      CountZero(s[1..], c);
      assert forall k | 1 <= k < |s| :: s[k] == s[1..][k - 1];
    }
  }

  /** The pattern and the field-by-field description accept the same
      strings. */
  lemma MatchesIffShaped(s: string)
    ensures Matches(s) <==> ShapedAsAddress(s)
  {
    if Matches(s) {
      var at, dot :| 0 <= at < |s| && 0 <= dot < |s| && MatchesAt(s, at, dot);
      MatchedShape(s, at, dot);
    }
    if ShapedAsAddress(s) {
      ShapeMatches(s);
    }
  }

  lemma MatchedShape(s: string, at: int, dot: int)
    requires MatchesAt(s, at, dot)
    ensures ShapedAsAddress(s)
  {
    var local, domain := s[..at], s[at + 1..];
    forall k | 0 <= k < |s| ensures !IsSpace(s[k]) && (k != at ==> s[k] != '@') {
      if k < at {
        assert s[k] == s[..at][k];
      } else if at < k < dot {
        assert s[k] == s[at + 1..dot][k - at - 1];
      } else if dot < k {
        assert s[k] == s[dot + 1..][k - dot - 1];
      }
    }
    assert s == local + [s[at]] + domain;
    CountAppend(local + [s[at]], domain, '@');
    CountAppend(local, [s[at]], '@');
    CountZero(local, '@');
    CountZero(domain, '@');
    assert IndexOf(s, '@') == at;
    assert domain[dot - at - 1] == '.';
  }

  lemma ShapeMatches(s: string)
    requires ShapedAsAddress(s)
    ensures Matches(s)
  {
    var at := IndexOf(s, '@');
    var domain := s[at + 1..];
    var k :| 0 < k < |domain| - 1 && domain[k] == '.';
    var dot := at + 1 + k;
    assert s == s[..at] + [s[at]] + domain;
    CountAppend(s[..at] + [s[at]], domain, '@');
    CountAppend(s[..at], [s[at]], '@');
    CountZero(domain, '@');
    assert forall j | at < j < |s| :: s[j] == domain[j - at - 1];
    assert IsPart(s[..at]);
    assert IsPart(s[at + 1..dot]);
    assert IsPart(s[dot + 1..]);
    assert MatchesAt(s, at, dot);
  }
}
