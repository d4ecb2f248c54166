/** Python's posixpath.join for one directory and one name (octoprint_printqueue/__init__.py:162, 174). */
module Paths {

  predicate IsAbsolute(name: string) {
    |name| > 0 && name[0] == '/'
  }

  /**
    An absolute name replaces the directory; otherwise the name is appended,
    with a '/' between unless the directory is empty or already ends in one.
  */
  function Join(dir: string, name: string): (p: string)
    ensures IsAbsolute(name) ==> p == name
    ensures !IsAbsolute(name) && (dir == [] || dir[|dir| - 1] == '/') ==> p == dir + name
    ensures !IsAbsolute(name) && dir != [] && dir[|dir| - 1] != '/' ==> p == dir + "/" + name
    ensures !IsAbsolute(name) ==> dir <= p && |name| <= |p| && p[|p| - |name|..] == name
  {
    if IsAbsolute(name) then name
    else if dir == [] || dir[|dir| - 1] == '/' then dir + name
    else dir + "/" + name
  }

  /**
    The name is used verbatim, whatever the folder: a relative name (".."
    segments included) is appended to the folder text unchanged, and an
    absolute one leaves the folder entirely. Nothing is normalised.
  */
  lemma NameEscapesFolder(dir: string, name: string)
    ensures IsAbsolute(name) ==> Join(dir, name) == name
    ensures !IsAbsolute(name) ==> Join(dir, name) == dir + name || Join(dir, name) == dir + "/" + name
  {
  }

  /** For instance, ".." is kept under the folder, and "/x" replaces it. */
  lemma NameEscapesFolderExample()
    ensures Join("/q", "../x") == "/q/../x"
    ensures Join("/q", "/x") == "/x"
  {
  }
}
