/** Dependency relations between commands: reachability, acyclicity, and what adding links does to both. */
module Reachability {

  type Vertex = nat

  /** `(a, b)` says that `a` takes an input that `b` produces. */
  type Relation = set<(Vertex, Vertex)>

  ghost predicate IsPath(e: Relation, p: seq<Vertex>) {
    |p| > 0 && forall i | 0 <= i < |p| - 1 :: (p[i], p[i + 1]) in e
  }

  ghost predicate PathBetween(e: Relation, p: seq<Vertex>, a: Vertex, b: Vertex) {
    IsPath(e, p) && p[0] == a && p[|p| - 1] == b
  }

  /** `b` is reached from `a` by zero or more links. */
  ghost predicate Reaches(e: Relation, a: Vertex, b: Vertex) {
    exists p :: PathBetween(e, p, a, b)
  }

  /** No link can be followed back to where it starts. */
  ghost predicate Acyclic(e: Relation) {
    forall a, b | (a, b) in e :: !Reaches(e, b, a)
  }

  lemma ReachesSelf(e: Relation, a: Vertex)
    ensures Reaches(e, a, a)
  {
    assert PathBetween(e, [a], a, a);
  }

  lemma ReachesStep(e: Relation, a: Vertex, b: Vertex, c: Vertex)
    requires (a, b) in e && Reaches(e, b, c)
    ensures Reaches(e, a, c)
  {
    var p :| PathBetween(e, p, b, c);
    assert PathBetween(e, [a] + p, a, c);
  }

  lemma ReachesTransitive(e: Relation, a: Vertex, b: Vertex, c: Vertex)
    requires Reaches(e, a, b) && Reaches(e, b, c)
    ensures Reaches(e, a, c)
  {
    var p :| PathBetween(e, p, a, b);
    var q :| PathBetween(e, q, b, c);
    var r := p + q[1..];
    forall i | 0 <= i < |r| - 1
      ensures (r[i], r[i + 1]) in e
    {
      if i >= |p| - 1 {
        assert r[i] == q[i - |p| + 1] && r[i + 1] == q[i - |p| + 2];
      }
    }
    assert PathBetween(e, r, a, c);
  }

  lemma ReachesMonotone(e: Relation, f: Relation, a: Vertex, b: Vertex)
    requires e <= f && Reaches(e, a, b)
    ensures Reaches(f, a, b)
  {
    var p :| PathBetween(e, p, a, b);
    assert PathBetween(f, p, a, b);
  }

  lemma AcyclicSubset(e: Relation, f: Relation)
    requires e <= f && Acyclic(f)
    ensures Acyclic(e)
  {
    forall a, b | (a, b) in e
      ensures !Reaches(e, b, a)
    {
      if Reaches(e, b, a) {
        ReachesMonotone(e, f, b, a);
      }
    }
  }

  /** All links of `n` share their producer, or all share their consumer. */
  ghost predicate Star(n: Relation) {
    || (forall x, y | x in n && y in n :: x.1 == y.1)
    || (forall x, y | x in n && y in n :: x.0 == y.0)
  }

  /** A walk that uses new links from a star can be shortened until it uses at most one of them. */
  lemma {:induction false} StarSplits(e: Relation, n: Relation, p: seq<Vertex>, a: Vertex, b: Vertex)
    requires Star(n) && PathBetween(e + n, p, a, b)
    ensures Reaches(e, a, b) || exists x | x in n :: Reaches(e, a, x.0) && Reaches(e, x.1, b)
    decreases |p|
  {
    ReachesSelf(e, a);
    if |p| > 1 {
      var next := p[1];
      assert (p[0], p[1]) in e + n;
      assert PathBetween(e + n, p[1..], next, b) by {
        forall i | 0 <= i < |p| - 2
          ensures (p[1..][i], p[1..][i + 1]) in e + n
        {
          assert (p[i + 1], p[i + 2]) in e + n;
        }
      }
      StarSplits(e, n, p[1..], next, b);
      if Reaches(e, next, b) {
        if (a, next) in e {
          ReachesStep(e, a, next, b);
        } else {
          var x := (a, next);
          assert x in n && Reaches(e, a, x.0) && Reaches(e, x.1, b);
        }
      } else {
        var x :| x in n && Reaches(e, next, x.0) && Reaches(e, x.1, b);
        if (a, next) in e {
          ReachesStep(e, a, next, x.0);
        } else {
          var y := (a, next);
          assert y in n;
          assert x.1 == y.1 || x.0 == y.0;
        }
      }
    }
  }

  /** Links added together keep the relation acyclic exactly when none of them closes a walk of the old relation. */
  lemma StarKeepsAcyclic(e: Relation, n: Relation)
    requires Star(n) && Acyclic(e)
    ensures Acyclic(e + n) <==> forall x | x in n :: !Reaches(e, x.1, x.0)
  {
    if Acyclic(e + n) {
      forall x | x in n
        ensures !Reaches(e, x.1, x.0)
      {
        assert (x.0, x.1) == x && x in e + n;
        if Reaches(e, x.1, x.0) {
          ReachesMonotone(e, e + n, x.1, x.0);
        }
      }
    }
    if !Acyclic(e + n) {
      var a, b :| (a, b) in e + n && Reaches(e + n, b, a);
      StarCycleUsesNewLink(e, n, a, b);
    }
  }

  /** A cycle made by adding a star runs through one of its links. */
  lemma StarCycleUsesNewLink(e: Relation, n: Relation, a: Vertex, b: Vertex)
    requires Star(n) && Acyclic(e)
    requires (a, b) in e + n && Reaches(e + n, b, a)
    ensures exists x | x in n :: Reaches(e, x.1, x.0)
  {
    var p :| PathBetween(e + n, p, b, a);
    StarSplits(e, n, p, b, a);
    var y := (a, b);
    if Reaches(e, b, a) {
      assert y in n && Reaches(e, y.1, y.0);
    } else {
      var x :| x in n && Reaches(e, b, x.0) && Reaches(e, x.1, a);
      if y in e {
        ReachesStep(e, a, b, x.0);
        ReachesTransitive(e, x.1, a, x.0);
      }
    }
  }
}
