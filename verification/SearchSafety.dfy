/**
 What the task tree means: certified cubes are refuted, split cubes are covered by their
 children, certification has always been carried as far up as it can go.  Every atomic
 block of the coordinator keeps this, whatever the browsers send.
 */
module SearchSafety {
  import opened Wrappers
  import opened Cnf
  import opened Rows
  import opened CoordinatorTables

  // ----- the invariant -----

  /** `trustOwner` is true in runs whose owner confirms only proofs that are really valid. */
  ghost predicate TaskTrue(f: Formula, trustOwner: bool, task: Task) {
    && (task.state.UNSAT_CERTIFIED? ==> !SatisfiableIn(f, task.cube))
    && (task.state.UNSAT_OWNER_VERIFIED? && trustOwner ==> !SatisfiableIn(f, task.cube))
    && (task.state.SAT_VERIFIED? ==> Satisfiable(f))
  }

  ghost predicate JobTrue(f: Formula, trustOwner: bool, job: Job) {
    && (job.state.UNSAT_CERTIFIED? ==> !Satisfiable(f))
    && (job.state.UNSAT_OWNER_VERIFIED? && trustOwner ==> !Satisfiable(f))
    && (job.state.SAT_VERIFIED? ==> Satisfiable(f))
  }

  ghost predicate TerminalTrue(f: Formula, trustOwner: bool, v: Option<Terminal>) {
    v.Some? && (v.value.CERTIFIED? || trustOwner) ==> !Satisfiable(f)
  }

  ghost predicate Truthful(f: Formula, trustOwner: bool, db: Db) {
    JobTrue(f, trustOwner, db.job) && forall t :: t in db.tasks ==> TaskTrue(f, trustOwner, db.tasks[t])
  }

  /** Two children that split the parent's cube on one literal. */
  ghost predicate ChildPair(tasks: map<Id, Task>, p: Id, a: Id, b: Id)
    requires p in tasks
  {
    a in tasks && b in tasks && a != b && tasks[a].parent == Some(p) && tasks[b].parent == Some(p) &&
    Complementary(tasks[p].cube, tasks[a].cube, tasks[b].cube) && tasks[a].cube[|tasks[p].cube|] != 0
  }

  ghost predicate SplitsPaired(tasks: map<Id, Task>) {
    forall p :: p in tasks && tasks[p].state.SPLIT? ==> exists a, b :: ChildPair(tasks, p, a, b)
  }

  /** Before the job is closed no task is abandoned. */
  ghost predicate NothingAbandoned(db: Db) {
    db.job.state.UPLOADING? || Live(db.job) ==>
      forall t :: t in db.tasks ==> db.tasks[t].Open() || db.tasks[t].state.SPLIT? || db.tasks[t].Certified()
  }

  /** Nothing above `pending` waits for propagation; `None` stands for the root itself. */
  ghost predicate EagerExcept(db: Db, pending: Option<Id>) {
    db.job.state.UPLOADING? || Live(db.job) ==>
      && (ROOT in db.tasks && db.tasks[ROOT].Certified() ==> pending.None?)
      && forall p :: Covered(db, p) ==> pending == Some(p)
  }

  ghost predicate Eager(db: Db) {
    db.job.state.UPLOADING? || Live(db.job) ==>
      && ROOT in db.tasks && !db.tasks[ROOT].Certified()
      && forall p :: !Covered(db, p)
  }

  ghost predicate TreeOk(f: Formula, trustOwner: bool, db: Db) {
    TreeShaped(db.tasks) && SplitsPaired(db.tasks) && Truthful(f, trustOwner, db) && NothingAbandoned(db)
  }

  ghost predicate SearchInv(f: Formula, trustOwner: bool, db: Db) {
    TreeOk(f, trustOwner, db) && Eager(db)
  }

  // ----- blocks that only reopen work -----

  ghost predicate JobAdvances(job: Job, job': Job) {
    job'.variableCount == job.variableCount && job'.formulaHash == job.formulaHash && job'.expiresAt == job.expiresAt &&
    (job'.state == job.state || (job.state.QUEUED? && job'.state.RUNNING?) || (job.state.UPLOADING? && job'.state.QUEUED?))
  }

  /** Same tree; each task keeps its state or becomes open work again. */
  ghost predicate Reopens(db: Db, db': Db) {
    JobAdvances(db.job, db'.job) && SameShape(db.tasks, db'.tasks) &&
    forall t :: t in db.tasks ==> db'.tasks[t].state == db.tasks[t].state || db'.tasks[t].Open()
  }

  lemma PairsSurvive(tasks: map<Id, Task>, tasks': map<Id, Task>)
    requires SplitsPaired(tasks) && SameShape(tasks, tasks')
    requires forall t :: t in tasks && tasks'[t].state.SPLIT? ==> tasks[t].state.SPLIT?
    ensures SplitsPaired(tasks')
  {
    forall p | p in tasks' && tasks'[p].state.SPLIT?
      ensures exists a, b :: ChildPair(tasks', p, a, b)
    {
      var a, b :| ChildPair(tasks, p, a, b);
      assert ChildPair(tasks', p, a, b);
    }
  }

  lemma ReopensKeepsTruth(f: Formula, trustOwner: bool, db: Db, db': Db)
    requires Truthful(f, trustOwner, db) && NothingAbandoned(db) && Reopens(db, db')
    ensures Truthful(f, trustOwner, db') && NothingAbandoned(db')
  {
    forall t | t in db'.tasks ensures TaskTrue(f, trustOwner, db'.tasks[t]) {
      assert TaskTrue(f, trustOwner, db.tasks[t]);
    }
  }

  lemma ReopensKeepsEager(db: Db, db': Db)
    requires Eager(db) && Reopens(db, db')
    ensures Eager(db')
  {
    forall p | Covered(db', p)
      ensures Covered(db, p)
    {
      assert Children(db', p) == Children(db, p);
      forall c | c in Children(db, p) ensures db.tasks[c].Certified() {
        assert db'.tasks[c].Certified();
      }
    }
  }

  lemma ReopensKeeps(f: Formula, trustOwner: bool, db: Db, db': Db)
    requires SearchInv(f, trustOwner, db) && Reopens(db, db')
    ensures SearchInv(f, trustOwner, db')
  {
    ShapeKeepsTree(db.tasks, db'.tasks);
    PairsSurvive(db.tasks, db'.tasks);
    ReopensKeepsTruth(f, trustOwner, db, db');
    ReopensKeepsEager(db, db');
  }

  lemma ReopensTransitive(a: Db, b: Db, c: Db)
    requires Reopens(a, b) && Reopens(b, c)
    requires a.job == b.job || b.job == c.job
    ensures Reopens(a, c)
  {
  }

  // ----- certification and its propagation -----

  /** Only a `SPLIT` pair counted as exactly two children can be covered, and then it is the genuine pair. */
  lemma ExactPair(db: Db, p: Id)
    requires SplitsPaired(db.tasks) && p in db.tasks && db.tasks[p].state.SPLIT? && |Children(db, p)| == 2
    ensures exists a, b :: ChildPair(db.tasks, p, a, b) && Children(db, p) == {a, b}
  {
    var a, b :| ChildPair(db.tasks, p, a, b);
    var rest := Children(db, p) - {a, b};
    assert |Children(db, p)| == |{a, b}| + |rest| by {
      assert Children(db, p) == {a, b} + rest;
    }
  }

  /** The check of the children's cubes never turns a genuine pair away. */
  lemma GenuinePairCovers(db: Db, p: Id)
    requires SplitsPaired(db.tasks) && p in db.tasks && db.tasks[p].state.SPLIT? && |Children(db, p)| == 2
    requires forall c :: c in Children(db, p) ==> db.tasks[c].Certified()
    ensures Covered(db, p)
  {
    ExactPair(db, p);
  }

  /** Two refuted halves refute the parent; an owner-checked half makes the result owner-checked. */
  lemma CoverageIsTrue(f: Formula, trustOwner: bool, db: Db, p: Id)
    requires Truthful(f, trustOwner, db) && SplitsPaired(db.tasks) && Covered(db, p)
    ensures CoverageOf(db, p).CERTIFIED? || trustOwner ==> !SatisfiableIn(f, db.tasks[p].cube)
  {
    ExactPair(db, p);
    var a, b :| ChildPair(db.tasks, p, a, b) && Children(db, p) == {a, b};
    var cube, l := db.tasks[p].cube, db.tasks[a].cube[|db.tasks[p].cube|];
    assert a in Children(db, p) && b in Children(db, p);
    if CoverageOf(db, p).CERTIFIED? || trustOwner {
      assert TaskTrue(f, trustOwner, db.tasks[a]) && TaskTrue(f, trustOwner, db.tasks[b]);
      assert db.tasks[a].cube == cube + [l] && db.tasks[b].cube == cube + [-l];
      SplitRefutes(f, cube, l);
    }
  }

  /** Certifying one task leaves only its parent waiting. */
  lemma CertifyKeeps(f: Formula, trustOwner: bool, db: Db, t: Id, v: Terminal, pending: Option<Id>)
    requires TreeOk(f, trustOwner, db) && t in db.tasks
    requires if pending.Some? then pending.value == t && EagerExcept(db, pending) else Eager(db)
    requires v.CERTIFIED? || trustOwner ==> !SatisfiableIn(f, db.tasks[t].cube)
    ensures var db' := SetTask(db, t, db.tasks[t].(state := TaskStateOf(v)));
      TreeOk(f, trustOwner, db') && EagerExcept(db', db.tasks[t].parent)
  {
    var db' := SetTask(db, t, db.tasks[t].(state := TaskStateOf(v)));
    ShapeKeepsTree(db.tasks, db'.tasks);
    PairsSurvive(db.tasks, db'.tasks);
    forall x | x in db'.tasks ensures TaskTrue(f, trustOwner, db'.tasks[x]) {
      assert TaskTrue(f, trustOwner, db.tasks[x]);
    }
    CertifyKeepsEager(db, t, v, pending);
  }

  lemma CertifyKeepsEager(db: Db, t: Id, v: Terminal, pending: Option<Id>)
    requires TreeShaped(db.tasks) && t in db.tasks
    requires if pending.Some? then pending.value == t && EagerExcept(db, pending) else Eager(db)
    ensures EagerExcept(SetTask(db, t, db.tasks[t].(state := TaskStateOf(v))), db.tasks[t].parent)
  {
    var db' := SetTask(db, t, db.tasks[t].(state := TaskStateOf(v)));
    forall p | Covered(db', p) && db.tasks[t].parent != Some(p)
      ensures Covered(db, p)
    {
      assert p != t;
      assert Children(db', p) == Children(db, p);
      forall c | c in Children(db, p) ensures db.tasks[c].Certified() {
        assert c != t && db'.tasks[c].Certified();
      }
    }
  }

  lemma CloseUnsatKeeps(f: Formula, trustOwner: bool, db: Db, v: Terminal)
    requires TreeOk(f, trustOwner, db)
    requires v.CERTIFIED? || trustOwner ==> !Satisfiable(f)
    ensures SearchInv(f, trustOwner, CloseUnsat(db, v))
  {
    var db' := CloseUnsat(db, v);
    ShapeKeepsTree(db.tasks, db'.tasks);
    PairsSurvive(db.tasks, db'.tasks);
    forall x | x in db'.tasks ensures TaskTrue(f, trustOwner, db'.tasks[x]) {
      assert TaskTrue(f, trustOwner, db.tasks[x]);
    }
  }

  /** The walk up the tree restores eagerness and closes the job only with a true verdict. */
  lemma {:induction false} PropagateKeeps(f: Formula, trustOwner: bool, db: Db, parent: Option<Id>)
    requires TreeOk(f, trustOwner, db) && EagerExcept(db, parent)
    requires parent.Some? ==> parent.value in db.tasks
    ensures SearchInv(f, trustOwner, Propagate(db, parent).0)
    ensures TerminalTrue(f, trustOwner, Propagate(db, parent).1)
    ensures Propagate(db, parent).1.Some? ==> Propagate(db, parent).0.job.state == JobStateOf(Propagate(db, parent).1.value)
    decreases if parent.Some? then 1 + db.tasks[parent.value].depth else 0
  {
    if parent.None? {
      var root := db.tasks[ROOT];
      assert TaskTrue(f, trustOwner, root) && root.cube == [];
      if root.state.UNSAT_CERTIFIED? {
        CloseUnsatKeeps(f, trustOwner, db, CERTIFIED);
      } else if root.state.UNSAT_OWNER_VERIFIED? {
        CloseUnsatKeeps(f, trustOwner, db, OWNER_CHECKED);
      }
    } else if Covered(db, parent.value) {
      var p := parent.value;
      var v := CoverageOf(db, p);
      var certified := SetTask(db, p, db.tasks[p].(state := TaskStateOf(v)));
      CoverageIsTrue(f, trustOwner, db, p);
      CertifyKeeps(f, trustOwner, db, p, v, parent);
      if p == ROOT {
        assert db.tasks[p].cube == [];
        CloseUnsatKeeps(f, trustOwner, certified, v);
      } else {
        assert Below(db.tasks, p);
        PropagateKeeps(f, trustOwner, certified, db.tasks[p].parent);
      }
    }
  }
}
