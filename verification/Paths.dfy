/** File-system names shared by the file-watcher modules. */
module Paths {
  type Name = string

  /** An absolute path as its components; "%s/%s" appends one component. */
  type Path = seq<Name>

  /** The directory scan ignores the empty name and every name that starts with a dot. */
  predicate Skipped(name: Name) {
    name == "" || name[0] == '.'
  }

  function Parent(p: Path): Path
    requires p != []
  {
    p[..|p| - 1]
  }

  function Last(p: Path): Name
    requires p != []
  {
    p[|p| - 1]
  }

  /** Skipped are the empty name and the names with a leading dot, "." and ".." among them, and no others. */
  lemma SkippedIff(c: char, rest: string)
    ensures Skipped("") && Skipped(".") && Skipped("..")
    ensures Skipped([c] + rest) <==> c == '.'
  {
  }
}
