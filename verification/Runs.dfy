/** The words of a text: its maximal runs of elements that are not spaces, in order. */
module Runs {
  type Span = (nat, nat)

  /** A maximal run: no spaces inside, nothing but spaces or the ends of the text around it. */
  predicate IsRun<T>(space: T -> bool, s: seq<T>, r: Span) {
    && r.0 < r.1 <= |s| && (forall k :: r.0 <= k < r.1 ==> !space(s[k]))
    && (r.0 > 0 ==> space(s[r.0 - 1])) && (r.1 < |s| ==> space(s[r.1]))
  }

  predicate InSome(runs: seq<Span>, k: nat) {
    exists i :: 0 <= i < |runs| && runs[i].0 <= k < runs[i].1
  }

  /** All the runs from position `low` on. */
  ghost predicate AllRuns<T>(space: T -> bool, s: seq<T>, low: nat, runs: seq<Span>) {
    && (forall i :: 0 <= i < |runs| ==> low <= runs[i].0 && IsRun(space, s, runs[i]))
    && (forall i, j :: 0 <= i < j < |runs| ==> runs[i].1 <= runs[j].0)
    && (forall k {:trigger InSome(runs, k)} :: low <= k < |s| && !space(s[k]) ==> InSome(runs, k))
  }

  ghost predicate AreWords<T>(space: T -> bool, s: seq<T>, words: seq<seq<T>>) {
    exists runs :: AllRuns(space, s, 0, runs) && SlicesAt(s, runs, words)
  }

  predicate SlicesAt<T(==)>(s: seq<T>, runs: seq<Span>, words: seq<seq<T>>) {
    |words| == |runs| && forall i :: 0 <= i < |runs| ==> runs[i].0 <= runs[i].1 <= |s| && words[i] == s[runs[i].0..runs[i].1]
  }

  /** The first run starts at the first element that is no space and ends before the next space. */
  lemma FirstRun<T>(space: T -> bool, s: seq<T>, low: nat, runs: seq<Span>)
    requires AllRuns(space, s, low, runs) && runs != []
    ensures forall k :: low <= k < runs[0].0 ==> space(s[k])
    ensures AllRuns(space, s, runs[0].1, runs[1..])
  {
    assert IsRun(space, s, runs[0]);
    assert forall i :: 0 < i < |runs| ==> runs[0].1 <= runs[i].0;
    forall k: nat | low <= k < runs[0].0 ensures space(s[k]) {
      assert !InSome(runs, k);
    }
    var rest := runs[1..];
    forall k | runs[0].1 <= k < |s| && !space(s[k])
      ensures InSome(rest, k)
    {
      assert InSome(runs, k);
      var i :| 0 <= i < |runs| && runs[i].0 <= k < runs[i].1;
      assert rest[i - 1] == runs[i];
    }
  }

  lemma NoRuns<T>(space: T -> bool, s: seq<T>, low: nat, runs: seq<Span>)
    requires AllRuns(space, s, low, runs)
    ensures runs == [] <==> forall k :: low <= k < |s| ==> space(s[k])
  {
    assert forall k :: low <= k < |s| && !space(s[k]) ==> InSome(runs, k);
    if runs != [] {
      assert IsRun(space, s, runs[0]) && !space(s[runs[0].0]);
    }
  }

  /** Two runs that start a text, with only spaces before them, are the same. */
  lemma SameRun<T>(space: T -> bool, s: seq<T>, low: nat, a: Span, b: Span)
    requires low <= a.0 && low <= b.0 && IsRun(space, s, a) && IsRun(space, s, b)
    requires (forall k :: low <= k < a.0 ==> space(s[k])) && (forall k :: low <= k < b.0 ==> space(s[k]))
    ensures a == b
  {
    assert !space(s[a.0]) && !space(s[b.0]);
  }

  /** A text has only one list of runs. */
  lemma {:induction false} RunsAreUnique<T>(space: T -> bool, s: seq<T>, low: nat, a: seq<Span>, b: seq<Span>)
    requires AllRuns(space, s, low, a) && AllRuns(space, s, low, b)
    ensures a == b
    decreases |a|
  {
    NoRuns(space, s, low, a);
    NoRuns(space, s, low, b);
    if a != [] {
      FirstRun(space, s, low, a);
      FirstRun(space, s, low, b);
      SameRun(space, s, low, a[0], b[0]);
      RunsAreUnique(space, s, a[0].1, a[1..], b[1..]);
      assert a == [a[0]] + a[1..] && b == [b[0]] + b[1..];
    }
  }

  /** So it has only one list of words. */
  lemma WordsAreUnique<T>(space: T -> bool, s: seq<T>, a: seq<seq<T>>, b: seq<seq<T>>)
    requires AreWords(space, s, a) && AreWords(space, s, b)
    ensures a == b
  {
    var runs :| AllRuns(space, s, 0, runs) && SlicesAt(s, runs, a);
    var runs' :| AllRuns(space, s, 0, runs') && SlicesAt(s, runs', b);
    RunsAreUnique(space, s, 0, runs, runs');
  }

  /** One more space at the end of a text adds no word. */
  lemma RunsThenSpace<T>(space: T -> bool, s: seq<T>, c: T, runs: seq<Span>)
    requires AllRuns(space, s, 0, runs) && space(c)
    ensures AllRuns(space, s + [c], 0, runs)
  {
    forall i | 0 <= i < |runs| ensures IsRun(space, s + [c], runs[i]) {
      assert IsRun(space, s, runs[i]);
    }
  }

  /** Any other element after a space starts a new word. */
  lemma RunStarts<T>(space: T -> bool, s: seq<T>, c: T, runs: seq<Span>)
    requires AllRuns(space, s, 0, runs) && !space(c) && (s == [] || space(s[|s| - 1]))
    ensures AllRuns(space, s + [c], 0, runs + [(|s|, |s| + 1)])
  {
    var t, runs' := s + [c], runs + [(|s|, |s| + 1)];
    forall i | 0 <= i < |runs'| ensures IsRun(space, t, runs'[i]) {
      assert i < |runs| ==> runs'[i] == runs[i] && IsRun(space, s, runs[i]);
    }
    forall k | 0 <= k < |t| && !space(t[k])
      ensures InSome(runs', k)
    {
      if k == |s| {
        assert runs'[|runs|].0 <= k < runs'[|runs|].1;
      } else {
        assert InSome(runs, k);
        var i :| 0 <= i < |runs| && runs[i].0 <= k < runs[i].1;
        assert runs'[i] == runs[i];
      }
    }
  }

  /** A text that does not end in a space ends in its last word. */
  lemma LastRunEnds<T>(space: T -> bool, s: seq<T>, runs: seq<Span>)
    requires AllRuns(space, s, 0, runs) && s != [] && !space(s[|s| - 1])
    ensures runs != [] && runs[|runs| - 1].1 == |s|
    ensures forall i :: 0 <= i < |runs| - 1 ==> runs[i].1 < |s|
  {
    assert InSome(runs, |s| - 1);
    var last := |runs| - 1;
    assert IsRun(space, s, runs[last]);
    assert forall j :: 0 <= j < last ==> runs[j].1 <= runs[last].0;
  }

  /** Any other element after a word lengthens it. */
  lemma RunLengthens<T>(space: T -> bool, s: seq<T>, c: T, runs: seq<Span>) returns (runs': seq<Span>)
    requires AllRuns(space, s, 0, runs) && !space(c) && s != [] && !space(s[|s| - 1])
    ensures runs != [] && runs[|runs| - 1].1 == |s|
    ensures runs' == runs[..|runs| - 1] + [(runs[|runs| - 1].0, |s| + 1)] && AllRuns(space, s + [c], 0, runs')
  {
    LastRunEnds(space, s, runs);
    var t, last := s + [c], |runs| - 1;
    runs' := runs[..last] + [(runs[last].0, |s| + 1)];
    forall i | 0 <= i < |runs'| ensures IsRun(space, t, runs'[i]) {
      assert IsRun(space, s, runs[i]);
    }
    forall k | 0 <= k < |t| && !space(t[k])
      ensures InSome(runs', k)
    {
      if k == |s| {
        assert runs'[last].0 <= k < runs'[last].1;
      } else {
        assert InSome(runs, k);
        var i :| 0 <= i < |runs| && runs[i].0 <= k < runs[i].1;
        assert runs'[i].0 == runs[i].0 && runs'[i].1 >= runs[i].1;
      }
    }
  }
}
