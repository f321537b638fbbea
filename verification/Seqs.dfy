/** Equalities between slices of sequences. */
module Seqs {
  lemma TakeGrows<T>(prefix: seq<T>, s: seq<T>, i: nat)
    requires i < |s|
    ensures prefix + s[..i] + [s[i]] == prefix + s[..i + 1]
  {
  }

  lemma TakeNext<T>(s: seq<T>, i: nat)
    requires i < |s|
    ensures s[..i] + [s[i]] == s[..i + 1]
  {
  }

  lemma SliceNext<T>(s: seq<T>, low: nat, i: nat)
    requires low <= i < |s|
    ensures s[low..i] + [s[i]] == s[low..i + 1]
  {
  }

  lemma TakeTake<T>(s: seq<T>, i: nat)
    requires i < |s|
    ensures s[..i + 1][..i] == s[..i] && s[..i + 1][i] == s[i]
  {
  }

  lemma SliceGrows<T>(prefix: seq<T>, s: seq<T>, low: nat, i: nat)
    requires low <= i < |s|
    ensures prefix + s[low..i] + [s[i]] == prefix + s[low..i + 1]
  {
  }

  lemma TakeAndRest<T>(prefix: seq<T>, s: seq<T>, i: nat)
    requires i <= |s|
    ensures prefix + s[..i] + s[i..] == prefix + s
  {
  }

  lemma InitAndLast<T>(prefix: seq<T>, s: seq<T>)
    requires s != []
    ensures prefix + s[..|s| - 1] + [s[|s| - 1]] == prefix + s
  {
  }

  lemma Whole<T>(s: seq<T>)
    ensures s[..|s|] == s && (s != [] ==> s[..|s| - 1] + [s[|s| - 1]] == s)
  {
  }

  lemma FirstAndRest<T>(prefix: seq<T>, s: seq<T>)
    requires s != []
    ensures prefix + [s[0]] + s[1..] == prefix + s
  {
  }

  lemma TakeBack<T>(s: seq<T>, t: seq<T>)
    ensures (s + t)[..|s|] == s && (s + t)[|s|..] == t
  {
  }

  lemma Empty<T>(s: seq<T>)
    ensures s + [] == s && [] + s == s
  {
  }

  lemma Associates<T>(a: seq<T>, b: seq<T>, c: seq<T>)
    ensures a + b + c == a + (b + c)
  {
  }

  lemma TakeFromFirst<T>(s: seq<T>, n: nat)
    requires n < |s|
    ensures s[..n + 1] == [s[0]] + s[1..][..n]
    ensures forall x :: x in s[1..][..n] ==> x in s[1..]
    ensures forall x :: x in [s[0]] + s[1..][..n] ==> x in s
  {
  }
}
