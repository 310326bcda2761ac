/**
 * Paths as host strings: `java.nio.file.Path.resolve` for a relative child, with the host
 * separator as a parameter.
 */
module Paths {
  /** `parent.resolve(child)` for a relative child: the parent itself for an empty child */
  function Resolve(parent: string, child: string, sep: char): (r: string)
    ensures child == [] ==> r == parent
    ensures child != [] ==> |r| == |parent| + 1 + |child| && r[..|parent|] == parent && r[|parent|] == sep && r[|parent| + 1..] == child
  {
    if child == [] then parent else parent + [sep] + child
  }

  /** Under one parent, different non-empty children resolve to different paths */
  lemma ResolveInjective(parent: string, a: string, b: string, sep: char)
    requires a != [] && b != []
    requires Resolve(parent, a, sep) == Resolve(parent, b, sep)
    ensures a == b
  {
    assert a == Resolve(parent, a, sep)[|parent| + 1..];
  }
}
