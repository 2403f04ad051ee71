/** Resolved absolute paths as sequences of parts, and the one containment question asked of them. */
module Paths {

  type Path = seq<string>

  /** A path is a root or lies under it: whole parts are compared, never text. */
  predicate Within(candidate: Path, root: Path) {
    root <= candidate
  }

  /** Two directories of one parent never contain the same path. */
  lemma SiblingsAreApart(candidate: Path, a: Path, b: Path)
    requires Within(candidate, a) && Within(candidate, b)
    requires |a| == |b|
    ensures a == b
  {
    assert a == candidate[..|a|] == b;
  }

  /** Containment is a matter of parts put behind the root, none of them being the root itself. */
  lemma WithinExactlyWhen(candidate: Path, root: Path)
    ensures Within(candidate, root) <==> exists rest: Path :: candidate == root + rest
  {
    if Within(candidate, root) { assert candidate == root + candidate[|root|..]; }
  }
}
