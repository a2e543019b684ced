/** Commits and the ancestor relation. A commit names its parents by hash, so its
    whole history is part of its value. */
module History {
  datatype Commit = Commit(id: nat, parents: seq<Commit>)

  predicate Ancestor(a: Commit, b: Commit) {
    a == b || exists i | 0 <= i < |b.parents| :: Ancestor(a, b.parents[i])
  }

  lemma {:induction false} AncestorTransitive(a: Commit, b: Commit, c: Commit)
    requires Ancestor(a, b) && Ancestor(b, c)
    ensures Ancestor(a, c)
    decreases c
  {
    if b != c {
      var i :| 0 <= i < |c.parents| && Ancestor(b, c.parents[i]);
      AncestorTransitive(a, b, c.parents[i]);
    }
  }
}
