/**
 * Policy names and the OpenBao identities derived from them
 * (internal/policy/policy.go).
 *
 * A policy is published in OpenBao under an identity spelled from its name and
 * its generation. Everything the controller says about "the same identity"
 * rests on that spelling being injective on valid names.
 */
module Naming {

  const MAXIMUM_NAME_BYTES := 64
  const OPENBAO_POLICY_PREFIX := "wyrwood-"

  /** Where a left-to-right reading of `^[a-z][a-z0-9]*(-[a-z0-9]+)*$` stands. */
  datatype NameState = Start | Body | Dash | Refused

  predicate Lower(c: char) { 'a' <= c <= 'z' }

  predicate LowerOrDigit(c: char) { Lower(c) || '0' <= c <= '9' }

  function Read(q: NameState, c: char): NameState {
    match q
    case Start => if Lower(c) then Body else Refused
    case Body => if LowerOrDigit(c) then Body else if c == '-' then Dash else Refused
    case Dash => if LowerOrDigit(c) then Body else Refused
    case Refused => Refused
  }

  function ReadAll(s: string): NameState {
    if s == "" then Start else Read(ReadAll(s[..|s| - 1]), s[|s| - 1])
  }

  /** The reader accepts the whole name, and it is not too long. */
  predicate ValidName(name: string) {
    |name| <= MAXIMUM_NAME_BYTES && ReadAll(name) == Body
  }

  /** A prefix of a readable name is readable, and a dash leaves the reader in `Dash`. */
  lemma {:induction false} ReadPrefix(s: string, k: nat)
    requires k <= |s| && ReadAll(s) != Refused
    ensures ReadAll(s[..k]) != Refused
    ensures k > 0 && s[k - 1] == '-' ==> ReadAll(s[..k]) == Dash
    decreases |s| - k
  {
    if k == |s| {
      assert s[..k] == s;
    } else {
      ReadPrefix(s, k + 1);
      assert s[..k + 1][..k] == s[..k];
    }
    if k > 0 {
      assert s[..k][..k - 1] == s[..k - 1];
    }
  }

  /** A valid name neither contains "--" nor ends with a dash. */
  lemma ValidNameHasNoDoubleDash(s: string, k: nat)
    requires ReadAll(s) == Body && k < |s| && s[k] == '-'
    ensures k + 1 < |s| && s[k + 1] != '-'
  {
    ReadPrefix(s, k + 1);
    assert s[..|s|] == s;
    if k + 1 < |s| {
      ReadPrefix(s, k + 2);
      assert s[..k + 2][..k + 1] == s[..k + 1];
    }
  }

  /** Decimal digits, as strconv.Itoa writes a non-negative number. */
  function Itoa(n: nat): (s: string)
    ensures |s| > 0
  {
    if n < 10 then [('0' as int + n) as char] else Itoa(n / 10) + Itoa(n % 10)
  }

  function Atoi(s: string): int {
    if s == "" then 0 else 10 * Atoi(s[..|s| - 1]) + (s[|s| - 1] as int - '0' as int)
  }

  lemma {:induction false} AtoiItoa(n: nat)
    ensures Atoi(Itoa(n)) == n
  {
    if n < 10 {
      assert Itoa(n)[..0] == "";
    } else {
      AtoiItoa(n / 10);
      var last := Itoa(n % 10);
      assert |last| == 1;
      assert Itoa(n)[..|Itoa(n)| - 1] == Itoa(n / 10);
    }
  }

  /** The identity a policy's HCL is written under: openBaoPolicyName. */
  function OpenBaoPolicyName(name: string, generation: int): string {
    if generation <= 1 then OPENBAO_POLICY_PREFIX + name
    else OPENBAO_POLICY_PREFIX + name + "--" + Itoa(generation)
  }

  /** The use of its name that a generation stands for. */
  function FirstUse(generation: int): int { if generation <= 1 then 1 else generation }

  lemma SuffixNotSplitting(m: string, n: string, d: string, e: string)
    requires ReadAll(m) == Body && ReadAll(n) == Body
    requires m + "--" + d == n + "--" + e
    ensures |m| >= |n|
  {
    if |m| < |n| {
      var whole := n + "--" + e;
      assert whole[|m|] == '-' && whole[|m| + 1] == '-';
      assert n[|m|] == '-';
      ValidNameHasNoDoubleDash(n, |m|);
    }
  }

  lemma PlainIsNotGenerated(m: string, n: string, e: string)
    requires ReadAll(m) == Body
    ensures m != n + "--" + e
  {
    if m == n + "--" + e {
      assert m[|n|] == '-' && m[|n| + 1] == '-';
      ValidNameHasNoDoubleDash(m, |n|);
    }
  }

  /** No generation of one valid name can spell the identity of another. */
  lemma IdentityInjective(m: string, g: int, n: string, h: int)
    requires ValidName(m) && ValidName(n)
    ensures OpenBaoPolicyName(m, g) == OpenBaoPolicyName(n, h) <==> m == n && FirstUse(g) == FirstUse(h)
  {
    if OpenBaoPolicyName(m, g) == OpenBaoPolicyName(n, h) {
      var p := OPENBAO_POLICY_PREFIX;
      var s, t := OpenBaoPolicyName(m, g)[|p|..], OpenBaoPolicyName(n, h)[|p|..];
      assert s == if g <= 1 then m else m + "--" + Itoa(g);
      assert t == if h <= 1 then n else n + "--" + Itoa(h);
      if g <= 1 && h > 1 {
        PlainIsNotGenerated(m, n, Itoa(h));
      } else if g > 1 && h <= 1 {
        PlainIsNotGenerated(n, m, Itoa(g));
      } else if g > 1 && h > 1 {
        SuffixNotSplitting(m, n, Itoa(g), Itoa(h));
        SuffixNotSplitting(n, m, Itoa(h), Itoa(g));
        assert s[..|m|] == m && t[..|n|] == n;
        assert s[|m| + 2..] == Itoa(g) && t[|n| + 2..] == Itoa(h);
        AtoiItoa(g);
        AtoiItoa(h);
      }
    }
  }
}
