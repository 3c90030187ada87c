/** C strings as sequences of characters: isdigit, isspace and strcmp. */
module Strings {

  predicate IsDigit(c: char) {
    '0' <= c <= '9'
  }

  /** The isspace set: blank, and tab to carriage return. */
  predicate IsSpace(c: char) {
    c == ' ' || '\t' <= c <= '\r'
  }

  /** Negative, zero or positive as `s` sorts before, equals or sorts after `t`. */
  function StrCmp(s: string, t: string): int {
    if s == [] then (if t == [] then 0 else -1)
    else if t == [] then 1
    else if s[0] < t[0] then -1
    else if s[0] > t[0] then 1
    else StrCmp(s[1..], t[1..])
  }

  lemma {:induction false} StrCmpZero(s: string, t: string)
    ensures StrCmp(s, t) == 0 <==> s == t
  {
    if s != [] && t != [] && s[0] == t[0] {
      StrCmpZero(s[1..], t[1..]);
      assert s == [s[0]] + s[1..] && t == [t[0]] + t[1..];
    }
  }

  lemma {:induction false} StrCmpAntisymmetric(s: string, t: string)
    ensures StrCmp(s, t) < 0 <==> StrCmp(t, s) > 0
  {
    if s != [] && t != [] && s[0] == t[0] {
      StrCmpAntisymmetric(s[1..], t[1..]);
    }
  }

  lemma {:induction false} StrCmpTransitive(s: string, t: string, u: string)
    requires StrCmp(s, t) <= 0 && StrCmp(t, u) <= 0
    ensures StrCmp(s, u) <= 0
    ensures StrCmp(s, t) < 0 || StrCmp(t, u) < 0 ==> StrCmp(s, u) < 0
  {
    if s != [] && t != [] && u != [] && s[0] == t[0] == u[0] {
      StrCmpTransitive(s[1..], t[1..], u[1..]);
    }
  }

  /** At the first place where they differ `s` has the smaller character, or it
      ends there. */
  ghost predicate Before(s: string, t: string) {
    exists k: nat :: BeforeAt(s, t, k)
  }

  ghost predicate BeforeAt(s: string, t: string, k: nat) {
    && k <= |s| && k < |t| && s[..k] == t[..k]
    && (k == |s| || s[k] < t[k])
  }

  /** strcmp orders by the first character that differs. */
  lemma {:induction false} StrCmpOrders(s: string, t: string)
    ensures StrCmp(s, t) < 0 <==> Before(s, t)
  {
    if s == [] {
      assert t != [] ==> BeforeAt(s, t, 0);
    } else if t != [] {
      if s[0] < t[0] {
        assert BeforeAt(s, t, 0);
      } else if s[0] == t[0] {
        StrCmpOrders(s[1..], t[1..]);
        forall k: nat
          ensures BeforeAt(s[1..], t[1..], k) <==> BeforeAt(s, t, k + 1)
        {
          BeforeInTails(s, t, k);
        }
        assert !BeforeAt(s, t, 0);
        assert forall k: nat :: k > 0 && BeforeAt(s, t, k) ==> BeforeAt(s[1..], t[1..], k - 1);
        assert Before(s[1..], t[1..]) <==> Before(s, t);
      } else {
        DifferentFirst(s, t);
      }
    }
  }

  lemma BeforeInTails(s: string, t: string, k: nat)
    requires s != [] && t != [] && s[0] == t[0]
    ensures BeforeAt(s[1..], t[1..], k) <==> BeforeAt(s, t, k + 1)
  {
    if k < |s| && k + 1 < |t| {
      assert s[..k + 1] == [s[0]] + s[1..][..k] && t[..k + 1] == [t[0]] + t[1..][..k];
      assert s[1..][..k] == s[..k + 1][1..] && t[1..][..k] == t[..k + 1][1..];
    }
  }

  lemma DifferentFirst(s: string, t: string)
    requires s != [] && t != [] && s[0] > t[0]
    ensures !Before(s, t)
  {
    forall k: nat
      ensures !BeforeAt(s, t, k)
    {
      if 0 < k <= |s| && k < |t| {
        assert s[..k][0] != t[..k][0];
      }
    }
  }
}
