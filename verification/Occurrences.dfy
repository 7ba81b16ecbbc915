/** How often a value occurs in a sequence. */
module Occurrences {
  function Times<T(==)>(s: seq<T>, x: T): nat {
    if s == [] then 0 else Times(s[..|s| - 1], x) + (if s[|s| - 1] == x then 1 else 0)
  }

  lemma {:induction false} TimesAppend<T>(a: seq<T>, b: seq<T>, x: T)
    ensures Times(a + b, x) == Times(a, x) + Times(b, x)
  {
    if b == [] {
      assert a + b == a;
    } else {
      TimesAppend(a, b[..|b| - 1], x);
      assert (a + b)[..|a + b| - 1] == a + b[..|b| - 1];
    }
  }

  lemma TimesOne<T>(y: T, x: T)
    ensures Times([y], x) == if y == x then 1 else 0
  {
    assert [y][..0] == [];
  }

  lemma TimesRemoved<T>(s: seq<T>, i: nat, x: T)
    requires i < |s|
    ensures Times(s[..i] + s[i + 1..], x) == Times(s, x) - (if s[i] == x then 1 else 0)
  {
    assert s == s[..i] + ([s[i]] + s[i + 1..]);
    TimesAppend(s[..i], [s[i]] + s[i + 1..], x);
    TimesAppend([s[i]], s[i + 1..], x);
    TimesAppend(s[..i], s[i + 1..], x);
    TimesOne(s[i], x);
  }

  lemma {:induction false} TimesPositive<T>(s: seq<T>, x: T)
    ensures Times(s, x) > 0 <==> x in s
  {
    if s != [] {
      TimesPositive(s[..|s| - 1], x);
    }
  }

  /** The first place of a value. */
  function IndexOf<T(==)>(s: seq<T>, x: T): (i: nat)
    requires x in s
    ensures i < |s| && s[i] == x && forall k :: 0 <= k < i ==> s[k] != x
  {
    if s[0] == x then 0 else 1 + IndexOf(s[1..], x)
  }

  lemma FirstIndexIs<T>(s: seq<T>, x: T, i: nat)
    requires i < |s| && s[i] == x && forall k :: 0 <= k < i ==> s[k] != x
    ensures IndexOf(s, x) == i
  {
  }
}
