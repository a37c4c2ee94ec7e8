/**
 * Filesystem paths as sequences of components, so that `os.path.join`
 * and `os.path.dirname` are exact. The tool is Windows-only, so a path is
 * shown with `\` between components.
 */
module Paths {

  type Path = seq<string>

  const Separator: char := '\\'

  /** `os.path.join(p, name)`. */
  function Join(p: Path, name: string): (r: Path)
    ensures Dirname(r) == p && Basename(r) == name
    ensures |r| == |p| + 1
  {
    p + [name]
  }

  /** `os.path.dirname(p)`: everything but the last component. */
  function Dirname(p: Path): Path
  {
    if p == [] then [] else p[..|p| - 1]
  }

  /** `os.path.basename(p)`: the last component. */
  function Basename(p: Path): string
  {
    if p == [] then "" else p[|p| - 1]
  }

  /** The text of a path, components separated by `\`. */
  function Render(p: Path): string
    decreases |p|
  {
    if p == [] then ""
    else if |p| == 1 then p[0]
    else Render(Dirname(p)) + [Separator] + Basename(p)
  }

  /** Joining a name onto a non-empty path adds one separator and the name to its text. */
  lemma RenderJoin(p: Path, name: string)
    requires p != []
    ensures Render(Join(p, name)) == Render(p) + [Separator] + name
  {
  }
}
