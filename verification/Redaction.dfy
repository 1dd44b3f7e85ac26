/** Error texts are redacted before they reach a result (internal/runner/runner.go). */
module Redaction {
  import opened Base
  import opened Text

  const SECRET_VALUE := "holdout-synthetic-secret"
  const SECRET_NAME := "HOLDOUT_TEST_SECRET"
  const REDACTED := "[redacted]"
  const SECRETS: seq<string> := [SECRET_VALUE, SECRET_NAME]

  function Redacted(value: string, secrets: seq<string>): string
    requires forall i :: 0 <= i < |secrets| ==> secrets[i] != ""
  {
    if secrets == [] then value
    else ReplaceAll(Redacted(value, secrets[..|secrets| - 1]), secrets[|secrets| - 1], REDACTED)
  }

  function Sanitized(value: string): string {
    ReplaceAll(ReplaceAll(value, SECRET_VALUE, REDACTED), SECRET_NAME, REDACTED)
  }

  /** `sanitizeError`: one replacement pass per secret over the text so far. */
  method SanitizeError(text: string) returns (value: string)
    ensures value == Sanitized(text)
  {
    value := text;
    for k := 0 to |SECRETS|
      invariant value == Redacted(text, SECRETS[..k])
    {
      assert SECRETS[..k + 1][..k] == SECRETS[..k];
      value := ReplaceAll(value, SECRETS[k], REDACTED);
    }
    assert SECRETS[..2][..1][..0] == [];
    assert SECRETS[..2][..1] == [SECRET_VALUE];
  }

  // ----- no occurrence survives, straddles or reappears -----

  /** A pattern that cannot overlap the marker: it has neither bracket and is longer than the marker. */
  ghost predicate AvoidsMarker(p: string) {
    |p| > |REDACTED| && '[' !in p && ']' !in p
  }

  lemma SecretsAvoidMarker()
    ensures AvoidsMarker(SECRET_VALUE) && AvoidsMarker(SECRET_NAME)
  {
  }

  /** As far as the output shows no opening bracket, it is the input. */
  lemma {:induction false} OutputBeforeMarker(s: string, p: string, k: nat)
    requires p != "" && k <= |ReplaceAll(s, p, REDACTED)|
    requires '[' !in ReplaceAll(s, p, REDACTED)[..k]
    ensures k <= |s| && ReplaceAll(s, p, REDACTED)[..k] == s[..k]
  {
    if s != "" && k > 0 {
      var out := ReplaceAll(s, p, REDACTED);
      assert out[0] in out[..k];
      assert !(p <= s);
      var rest := ReplaceAll(s[1..], p, REDACTED);
      assert out[..k] == [s[0]] + rest[..k - 1];
      OutputBeforeMarker(s[1..], p, k - 1);
      assert s[..k] == [s[0]] + s[1..][..k - 1];
    }
  }

  /** Replacing `p` neither leaves an occurrence of `p` nor creates one of another pattern `q`. */
  lemma {:induction false} ReplacementLacks(s: string, p: string, q: string)
    requires p != "" && AvoidsMarker(q)
    requires q == p || !Contains(s, q)
    ensures !Contains(ReplaceAll(s, p, REDACTED), q)
  {
    if s != "" {
      var step := if p <= s then |p| else 1;
      if q != p {
        TailLacks(s, q, step);
      }
      ReplacementLacks(s[step..], p, q);
      forall i
        ensures !OccursAt(ReplaceAll(s, p, REDACTED), q, i)
      {
        if p <= s {
          NotInMarker(ReplaceAll(s[step..], p, REDACTED), q, i);
        } else {
          NotAtKeptCharacter(s, p, q, i);
        }
      }
    }
  }

  /** No occurrence of such a pattern starts inside the marker. */
  lemma NotInMarker(rest: string, q: string, i: int)
    requires AvoidsMarker(q) && !Contains(rest, q)
    ensures !OccursAt(REDACTED + rest, q, i)
  {
    var out := REDACTED + rest;
    var n := |REDACTED|;
    if 0 <= i && i + |q| <= |out| {
      if i == 0 {
        assert out[i..i + |q|][0] == '[';
      } else if i < n {
        assert out[i..i + |q|][n - 1 - i] == ']';
      } else {
        OccurrenceShifts(out, q, n, i - n);
        assert out[n..] == rest;
      }
    }
  }

  /** None starts at a character that was kept, or behind it. */
  lemma NotAtKeptCharacter(s: string, p: string, q: string, i: int)
    requires s != "" && p != "" && !(p <= s) && AvoidsMarker(q)
    requires q == p || !Contains(s, q)
    requires !Contains(ReplaceAll(s[1..], p, REDACTED), q)
    ensures !OccursAt(ReplaceAll(s, p, REDACTED), q, i)
  {
    var out := ReplaceAll(s, p, REDACTED);
    PrefixIsOccurrence(s, q);
    assert !(q <= s);
    if i > 0 && i <= |out| {
      assert out[1..] == ReplaceAll(s[1..], p, REDACTED);
      OccurrenceShifts(out, q, 1, i - 1);
    } else if i == 0 && |q| <= |out| && '[' !in out[..|q|] {
      assert out[0..0 + |q|] == out[..|q|];
      OutputBeforeMarker(s, p, |q|);
    }
  }

  ghost predicate SecretFree(s: string) {
    !Contains(s, SECRET_VALUE) && !Contains(s, SECRET_NAME)
  }

  /** Redaction is complete, for every text. */
  lemma SanitizedIsSecretFree(s: string)
    ensures SecretFree(Sanitized(s))
    ensures !Contains(Sanitized(s), "holdout-synthetic-secret") && !Contains(Sanitized(s), "HOLDOUT_TEST_SECRET")
  {
    SecretsAvoidMarker();
    var once := ReplaceAll(s, SECRET_VALUE, REDACTED);
    ReplacementLacks(s, SECRET_VALUE, SECRET_VALUE);
    ReplacementLacks(once, SECRET_NAME, SECRET_VALUE);
    ReplacementLacks(once, SECRET_NAME, SECRET_NAME);
  }

  /** A text changes exactly when it holds a secret. */
  lemma SanitizedUnchangedIff(s: string)
    ensures Sanitized(s) == s <==> SecretFree(s)
  {
    if SecretFree(s) {
      ReplaceAbsent(s, SECRET_VALUE, REDACTED);
      ReplaceAbsent(s, SECRET_NAME, REDACTED);
    } else {
      SanitizedIsSecretFree(s);
    }
  }

  lemma SanitizedIdempotent(s: string)
    ensures Sanitized(Sanitized(s)) == Sanitized(s)
  {
    SanitizedIsSecretFree(s);
    SanitizedUnchangedIff(Sanitized(s));
  }

  /** An error never becomes silent. */
  lemma SanitizedNonEmpty(s: string)
    ensures Sanitized(s) == "" <==> s == ""
  {
    var once := ReplaceAll(s, SECRET_VALUE, REDACTED);
    assert s != "" ==> once != "";
  }

  // ----- and nothing else changes -----

  lemma Front(a: string, m: string, b: string, p: string, k: nat)
    ensures |p| <= |a| ==> (p <= a + m + b <==> p <= a)
    ensures k <= |a| ==> (a + m + b)[k..] == a[k..] + m + b
  {
    if |p| <= |a| {
      assert (a + m + b)[..|p|] == a[..|p|];
    }
  }

  /** What no occurrence of the pattern touches is kept, and both sides are treated on their own. */
  lemma {:induction false} ReplaceAround(a: string, kept: string, b: string, p: string)
    requires p != "" && forall i :: OccursAt(a + kept + b, p, i) ==> i + |p| <= |a| || i >= |a| + |kept|
    ensures ReplaceAll(a + kept + b, p, REDACTED) == ReplaceAll(a, p, REDACTED) + kept + ReplaceAll(b, p, REDACTED)
  {
    var s := a + kept + b;
    if a == "" {
      ReplaceSkips(s, p, REDACTED, |kept|);
      assert s[..|kept|] == kept && s[|kept|..] == b;
    } else {
      PrefixIsOccurrence(s, p);
      var step := if p <= s then |p| else 1;
      Front(a, kept, b, p, step);
      forall i | OccursAt(s[step..], p, i)
        ensures i + |p| <= |a[step..]| || i >= |a[step..]| + |kept|
      {
        OccurrenceShifts(s, p, step, i);
      }
      ReplaceAround(a[step..], kept, b, p);
    }
  }

  /** A pattern no proper prefix of which is also a suffix: two occurrences never overlap. */
  ghost predicate Borderless(p: string) {
    p != "" && forall k :: 0 < k < |p| ==> p[k..] != p[..|p| - k]
  }

  lemma OverlapIsBorder(a: string, p: string, b: string)
    requires |a| <= |p| && p <= a + p + b
    ensures p[|a|..] == p[..|p| - |a|]
  {
    var s := a + p + b;
    assert s[|a|..|p|] == p[..|p| - |a|];
    assert s[|a|..|p|] == s[..|p|][|a|..];
  }

  lemma NoOverlap(a: string, p: string, b: string)
    requires Borderless(p) && a != "" && p <= a + p + b
    ensures |p| <= |a|
  {
    if |a| < |p| {
      OverlapIsBorder(a, p, b);
    }
  }

  lemma {:induction false} ReplaceOwn(a: string, p: string, b: string)
    requires Borderless(p)
    ensures ReplaceAll(a + p + b, p, REDACTED) == ReplaceAll(a, p, REDACTED) + REDACTED + ReplaceAll(b, p, REDACTED)
  {
    var s := a + p + b;
    if a == "" {
      assert s == p + b && s[|p|..] == b;
    } else {
      if p <= s {
        NoOverlap(a, p, b);
      }
      hide Borderless;
      var step := if p <= s then |p| else 1;
      Front(a, p, b, p, step);
      ReplaceOwn(a[step..], p, b);
    }
  }

  /** A first character that occurs nowhere else, or only in front of another second one, rules out borders. */
  lemma NoBorder(p: string, again: nat)
    requires |p| > 2 && 0 < again < |p| - 1 && p[again + 1] != p[1]
    requires forall k :: 0 < k < |p| && k != again ==> p[k] != p[0]
    ensures Borderless(p)
  {
    forall k | 0 < k < |p|
      ensures p[k..] != p[..|p| - k]
    {
      assert p[k..][0] == p[k] && p[..|p| - k][0] == p[0];
      if k == again {
        assert p[k..][1] == p[again + 1] && p[..|p| - k][1] == p[1];
      }
    }
  }

  lemma ValueBorderless()
    ensures Borderless(SECRET_VALUE)
  {
    NoBorder(SECRET_VALUE, 12);
  }

  lemma NameBorderless()
    ensures Borderless(SECRET_NAME)
  {
    NoBorder(SECRET_NAME, 1);
  }

  lemma SecretsBorderless()
    ensures Borderless(SECRET_VALUE) && Borderless(SECRET_NAME)
  {
    hide Borderless;
    ValueBorderless();
    NameBorderless();
  }

  lemma InPattern(s: string, p: string, i: int, j: int)
    requires OccursAt(s, p, i) && i <= j < i + |p|
    ensures s[j] in p
  {
    assert s[j] == s[i..i + |p|][j - i];
  }

  /** A pattern cannot touch a shorter text whose first and last character it lacks. */
  lemma NoneTouches(a: string, kept: string, b: string, p: string, i: int)
    requires |kept| >= 1 && |p| > |kept| && kept[0] !in p && kept[|kept| - 1] !in p
    requires OccursAt(a + kept + b, p, i)
    ensures i + |p| <= |a| || i >= |a| + |kept|
  {
    var s := a + kept + b;
    var first, last := |a|, |a| + |kept| - 1;
    assert s[first] == kept[0] && s[last] == kept[|kept| - 1];
    if i <= first < i + |p| {
      InPattern(s, p, i, first);
    } else if i <= last < i + |p| {
      InPattern(s, p, i, last);
    }
  }

  /** A secret anywhere in a text becomes one marker; the text before and behind it is redacted on its own. */
  lemma SanitizedSplits(before: string, k: nat, after: string)
    requires k < 2
    ensures var secret := if k == 0 then "holdout-synthetic-secret" else "HOLDOUT_TEST_SECRET";
      Sanitized(before + secret + after) == Sanitized(before) + "[redacted]" + Sanitized(after)
  {
    SecretsBorderless();
    SecretsAvoidMarker();
    var left, right := ReplaceAll(before, SECRET_VALUE, REDACTED), ReplaceAll(after, SECRET_VALUE, REDACTED);
    if k == 0 {
      ReplaceOwn(before, SECRET_VALUE, after);
      forall i | OccursAt(left + REDACTED + right, SECRET_NAME, i)
        ensures i + |SECRET_NAME| <= |left| || i >= |left| + |REDACTED|
      {
        NoneTouches(left, REDACTED, right, SECRET_NAME, i);
      }
      ReplaceAround(left, REDACTED, right, SECRET_NAME);
    } else {
      NameAndValueApart();
      forall i | OccursAt(before + SECRET_NAME + after, SECRET_VALUE, i)
        ensures i + |SECRET_VALUE| <= |before| || i >= |before| + |SECRET_NAME|
      {
        NoneTouches(before, SECRET_NAME, after, SECRET_VALUE, i);
      }
      ReplaceAround(before, SECRET_NAME, after, SECRET_VALUE);
      ReplaceOwn(left, SECRET_NAME, right);
    }
  }

  lemma NameAndValueApart()
    ensures SECRET_NAME[0] !in SECRET_VALUE && SECRET_NAME[|SECRET_NAME| - 1] !in SECRET_VALUE
  {
  }
}
