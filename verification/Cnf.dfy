/**
 The meaning of formulas and cubes.  A literal is a non-zero integer whose sign is its
 polarity; an assignment is the (possibly infinite) set of variables that are true.
 */
module Cnf {
  type Literal = int
  type Clause = seq<Literal>
  type Formula = seq<Clause>
  type Cube = seq<Literal>
  type Assignment = iset<int>

  function Abs(x: int): nat {
    if x < 0 then -x else x
  }

  ghost predicate LiteralHolds(a: Assignment, l: Literal) {
    if l > 0 then l in a else -l !in a
  }

  ghost predicate ClauseHolds(a: Assignment, c: Clause) {
    exists l :: l in c && LiteralHolds(a, l)
  }

  ghost predicate FormulaHolds(a: Assignment, f: Formula) {
    forall c :: c in f ==> ClauseHolds(a, c)
  }

  ghost predicate CubeHolds(a: Assignment, cube: Cube) {
    forall l :: l in cube ==> LiteralHolds(a, l)
  }

  ghost predicate Model(a: Assignment, f: Formula, cube: Cube) {
    FormulaHolds(a, f) && CubeHolds(a, cube)
  }

  /** Some assignment satisfies the formula inside the cube. */
  ghost predicate SatisfiableIn(f: Formula, cube: Cube) {
    exists a: Assignment :: Model(a, f, cube)
  }

  ghost predicate Satisfiable(f: Formula) {
    SatisfiableIn(f, [])
  }

  /** The formula with every cube literal added as a unit clause. */
  function WithUnits(f: Formula, cube: Cube): Formula {
    f + seq(|cube|, i requires 0 <= i < |cube| => [cube[i]])
  }

  lemma CubeHoldsAppend(a: Assignment, cube: Cube, l: Literal)
    ensures CubeHolds(a, cube + [l]) <==> CubeHolds(a, cube) && LiteralHolds(a, l)
  {
    assert l in cube + [l];
    assert forall k :: k in cube ==> k in cube + [l];
  }

  /** A literal and its negation split every assignment: one of the two holds, never both. */
  lemma ComplementsPartition(a: Assignment, l: Literal)
    requires l != 0
    ensures LiteralHolds(a, l) <==> !LiteralHolds(a, -l)
  {
  }

  lemma HalfIsInside(f: Formula, cube: Cube, l: Literal)
    ensures SatisfiableIn(f, cube + [l]) ==> SatisfiableIn(f, cube)
  {
    if SatisfiableIn(f, cube + [l]) {
      var a: Assignment :| Model(a, f, cube + [l]);
      CubeHoldsAppend(a, cube, l);
      assert Model(a, f, cube);
    }
  }

  /** Unsatisfiability of both halves of a split gives unsatisfiability of the whole cube. */
  lemma SplitRefutes(f: Formula, cube: Cube, l: Literal)
    requires l != 0
    ensures SatisfiableIn(f, cube) <==> SatisfiableIn(f, cube + [l]) || SatisfiableIn(f, cube + [-l])
  {
    if SatisfiableIn(f, cube) {
      var a: Assignment :| Model(a, f, cube);
      CubeHoldsAppend(a, cube, l);
      CubeHoldsAppend(a, cube, -l);
      assert Model(a, f, cube + [l]) || Model(a, f, cube + [-l]);
    }
    HalfIsInside(f, cube, l);
    HalfIsInside(f, cube, -l);
  }

  /** A refutation of the unit-extended formula is a refutation inside the cube, and conversely. */
  lemma UnitsMeanCube(a: Assignment, f: Formula, cube: Cube)
    ensures FormulaHolds(a, WithUnits(f, cube)) <==> Model(a, f, cube)
  {
    var g := WithUnits(f, cube);
    assert forall c :: c in f ==> c in g;
    forall l | l in cube
      ensures [l] in g
    {
      var i :| 0 <= i < |cube| && cube[i] == l;
      assert g[|f| + i] == [l];
    }
    if FormulaHolds(a, g) {
      forall l | l in cube ensures LiteralHolds(a, l) {
        assert ClauseHolds(a, [l]);
      }
    }
    if Model(a, f, cube) {
      forall c | c in g ensures ClauseHolds(a, c) {
        if c !in f {
          var i :| 0 <= i < |g| && g[i] == c;
          var l := cube[i - |f|];
          assert l in cube && c == [l];
          assert l in c;
        }
      }
    }
  }
}
