/** The e-mail check shared by the sign-up and log-in forms (pages/Signup.jsx and
    pages/Login.jsx both define `validateEmail` with the same regular expression):
    one or more characters that are neither white space nor `@`, an `@`, one or more
    such characters, a `.`, and one or more such characters, spanning the whole input.

    `MatchesPattern` states the pattern as a split of the input; `ValidEmail` is the
    executable check, and `ValidEmailIffPattern` proves that the two agree. */
module EmailFormat {
  import opened Common
  import opened Text

  /** A character of the class `[^\s@]`. */
  predicate Plain(c: char)
  {
    !IsSpace(c) && c != '@'
  }

  predicate AllPlain(s: string)
  {
    forall i :: 0 <= i < |s| ==> Plain(s[i])
  }

  /** `s` is `A + "@" + B + "." + C` with `A`, `B`, `C` non-empty runs of `[^\s@]`;
      `a` is the position of the `@` and `d` that of the `.`. */
  predicate SplitsAt(s: string, a: int, d: int)
  {
    0 < a && a + 1 < d < |s| - 1 && s[a] == '@' && s[d] == '.' &&
    AllPlain(s[..a]) && AllPlain(s[a + 1..d]) && AllPlain(s[d + 1..])
  }

  /** `/^[^\s@]+@[^\s@]+\.[^\s@]+$/.test(s)`. */
  ghost predicate MatchesPattern(s: string)
  {
    exists a, d :: SplitsAt(s, a, d)
  }

  /** A `.` that is neither the first nor the last character. */
  predicate HasInnerDot(t: string)
  {
    exists d :: 0 < d < |t| - 1 && t[d] == '.'
  }

  /** `validateEmail(s)`: split at the first `@`, which must not be the first
      character; everything after it must be free of white space and `@` and contain
      an inner `.`. */
  predicate ValidEmail(s: string)
    ensures ValidEmail(s) ==> 5 <= |s| && s[0] != '@'
  {
    match IndexOf(s, '@')
    case None => false
    case Some(a) =>
      a > 0 && AllPlain(s[..a]) && AllPlain(s[a + 1..]) && HasInnerDot(s[a + 1..])
  }

  /** The executable check accepts exactly the inputs the pattern matches. */
  lemma ValidEmailIffPattern(s: string)
    ensures ValidEmail(s) <==> MatchesPattern(s)
  {
    if ValidEmail(s) {
      var a := IndexOf(s, '@').value;
      var t := s[a + 1..];
      var k :| 0 < k < |t| - 1 && t[k] == '.';
      var d := a + 1 + k;
      assert s[a + 1..d] == t[..k];
      assert s[d + 1..] == t[k + 1..];
      assert SplitsAt(s, a, d);
    }
    if MatchesPattern(s) {
      var a, d :| SplitsAt(s, a, d);
      assert forall i :: 0 <= i < a ==> s[i] == s[..a][i];
      assert IndexOf(s, '@') == Some(a);
      var t := s[a + 1..];
      assert t[d - a - 1] == '.';
      forall i | 0 <= i < |t|
        ensures Plain(t[i])
      {
        if i < d - a - 1 {
          assert t[i] == s[a + 1..d][i];
        } else if i > d - a - 1 {
          assert t[i] == s[d + 1..][i - (d - a)];
        }
      }
    }
  }

  /** In a split, every character other than the `@` at `a` is plain. */
  lemma PlainOutsideAt(s: string, a: int, d: int)
    ensures SplitsAt(s, a, d) ==> forall k :: 0 <= k < |s| && k != a ==> Plain(s[k])
  {
    if SplitsAt(s, a, d) {
      forall k | 0 <= k < |s| && k != a
        ensures Plain(s[k])
      {
        if k < a {
          assert s[k] == s[..a][k];
        } else if a < k < d {
          assert s[k] == s[a + 1..d][k - a - 1];
        } else if d < k {
          assert s[k] == s[d + 1..][k - d - 1];
        }
      }
    }
  }

  /** An address with white space, or with a second `@`, is refused. */
  lemma RejectsSpaceAndSecondAt(s: string, i: nat, j: nat)
    requires i < |s| && j < |s|
    requires IsSpace(s[i]) || (i != j && s[i] == '@' && s[j] == '@')
    ensures !ValidEmail(s)
  {
    forall a, d
      ensures !SplitsAt(s, a, d)
    {
      PlainOutsideAt(s, a, d);
    }
    ValidEmailIffPattern(s);
  }

  /** Any address built as user `@` domain `.` suffix from non-empty runs without
      white space or `@` is accepted (the domain may itself contain dots). */
  lemma ComposedAccepted(user: string, domain: string, suffix: string)
    requires user != [] && domain != [] && suffix != []
    requires AllPlain(user) && AllPlain(domain) && AllPlain(suffix)
    ensures ValidEmail(user + "@" + domain + "." + suffix)
  {
    var s := user + "@" + domain + "." + suffix;
    var a, d := |user|, |user| + 1 + |domain|;
    assert s[..a] == user;
    assert s[a + 1..d] == domain;
    assert s[d + 1..] == suffix;
    assert SplitsAt(s, a, d);
    ValidEmailIffPattern(s);
  }
}
