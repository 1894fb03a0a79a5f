/** Shared value types and the byte-wise string order the source sorts names by. */
module Basics {

  datatype Option<+T> = None | Some(value: T)

  datatype Result<+T, +E> = Ok(value: T) | Err(error: E)

  /** Go's `<=` on strings: lexicographic on bytes. */
  predicate StrLe(a: string, b: string) {
    a == "" || (b != "" && if a[0] == b[0] then StrLe(a[1..], b[1..]) else a[0] < b[0])
  }

  lemma {:induction false} StrLeTotal(a: string, b: string)
    ensures StrLe(a, b) || StrLe(b, a)
  {
    if a != "" && b != "" && a[0] == b[0] {
      StrLeTotal(a[1..], b[1..]);
    }
  }

  lemma {:induction false} StrLeAntisymmetric(a: string, b: string)
    requires StrLe(a, b) && StrLe(b, a)
    ensures a == b
  {
    if a != "" && b != "" {
      StrLeAntisymmetric(a[1..], b[1..]);
    }
  }

  lemma {:induction false} StrLeTransitive(a: string, b: string, c: string)
    requires StrLe(a, b) && StrLe(b, c)
    ensures StrLe(a, c)
  {
    if a != "" && b != "" && c != "" && a[0] == b[0] == c[0] {
      StrLeTransitive(a[1..], b[1..], c[1..]);
    }
  }

  function InsertName(n: string, s: seq<string>): seq<string> {
    if s == [] then [n]
    else if StrLe(n, s[0]) then [n] + s
    else [s[0]] + InsertName(n, s[1..])
  }

  /** The names in ascending order, repeats kept. */
  function SortNames(s: seq<string>): seq<string> {
    if s == [] then [] else InsertName(s[0], SortNames(s[1..]))
  }

  lemma {:induction false} InsertNameElements(n: string, s: seq<string>)
    ensures multiset(InsertName(n, s)) == multiset{n} + multiset(s)
  {
    if s != [] && !StrLe(n, s[0]) {
      InsertNameElements(n, s[1..]);
      assert s == [s[0]] + s[1..];
    }
  }

  lemma {:induction false} SortNamesElements(s: seq<string>)
    ensures multiset(SortNames(s)) == multiset(s)
  {
    if s != [] {
      SortNamesElements(s[1..]);
      InsertNameElements(s[0], SortNames(s[1..]));
      assert s == [s[0]] + s[1..];
    }
  }

  // ----- Slices -----

  lemma TakeAppend<T>(a: seq<T>, b: seq<T>, k: nat)
    requires k <= |a| + |b|
    ensures k <= |a| ==> (a + b)[..k] == a[..k]
    ensures k >= |a| ==> (a + b)[..k] == a + b[..k - |a|]
  {
  }

  lemma DropAppend<T>(a: seq<T>, b: seq<T>)
    ensures (a + b)[|a|..] == b && (a + b)[..|a|] == a
  {
  }

  lemma AppendNothing<T>(a: seq<T>)
    ensures a + [] == a
  {
  }

  lemma AppendAssociative<T>(a: seq<T>, b: seq<T>, c: seq<T>)
    ensures a + b + c == a + (b + c)
  {
  }

  lemma TakeDrop<T>(s: seq<T>, i: nat, k: nat)
    requires i <= k <= |s|
    ensures s[..k][i..] == s[i..][..k - i]
  {
  }

  lemma TakeFirst<T>(s: seq<T>, j: nat)
    requires 0 < j <= |s|
    ensures [s[0]] + s[1..][..j - 1] == s[..j]
    ensures s[..j][0] == s[0] && s[..j][1..] == s[1..][..j - 1]
  {
  }

  lemma TakeNext<T>(s: seq<T>, i: nat)
    requires i < |s|
    ensures s[..i + 1] == s[..i] + [s[i]]
  {
  }

  lemma TakeAll<T>(s: seq<T>)
    ensures s[..|s|] == s
  {
  }
}
