/** `os.path.join` and `os.path.basename` on POSIX paths. */
module Paths {
  import opened Text

  predicate IsAbsolute(p: string)
  {
    p != [] && p[0] == '/'
  }

  /**
   * `os.path.join(dir, name)`: an absolute `name` replaces `dir`; otherwise
   * one '/' separates the two unless `dir` is empty or already ends with one.
   */
  function Join(dir: string, name: string): (p: string)
    ensures EndsWith(p, name)
    ensures IsAbsolute(name) ==> p == name
    ensures !IsAbsolute(name) ==> InDirectory(p, dir, name)
    ensures !IsAbsolute(name) && dir != [] && dir[|dir| - 1] != '/' ==> p == dir + "/" + name
    ensures !IsAbsolute(name) && (dir == [] || dir[|dir| - 1] == '/') ==> p == dir + name
  {
    if IsAbsolute(name) then name else DirPrefix(dir) + name
  }

  /**
   * `p` is `name` inside `dir` as `os.path.join` places it: one '/' between
   * them unless `dir` is empty or already ends with one.
   */
  predicate InDirectory(p: string, dir: string, name: string)
  {
    if dir == [] || dir[|dir| - 1] == '/' then p == dir + name else p == dir + "/" + name
  }

  /** What `os.path.join` puts in front of a relative name. */
  function DirPrefix(dir: string): string
  {
    if dir == [] || dir[|dir| - 1] == '/' then dir else dir + "/"
  }

  /** `os.path.basename(p)`: what follows the last '/'. */
  function Basename(p: string): (b: string)
    ensures '/' !in b
    ensures EndsWith(p, b)
    ensures |b| < |p| ==> p[|p| - |b| - 1] == '/'
  {
    if p == [] || p[|p| - 1] == '/' then [] else Basename(p[..|p| - 1]) + [p[|p| - 1]]
  }

  /** Joining a directory and a relative name is injective in the name. */
  lemma JoinInjective(dir: string, a: string, b: string)
    requires !IsAbsolute(a) && !IsAbsolute(b)
    requires Join(dir, a) == Join(dir, b)
    ensures a == b
  {
    var d := DirPrefix(dir);
    assert a == (d + a)[|d|..];
    assert b == (d + b)[|d|..];
  }

  /** An absolute name escapes the directory: two different names can join to one path. */
  lemma AbsoluteNameEscapes()
    ensures Join("/c", "/c/a") == Join("/c", "a")
  {
    assert DirPrefix("/c") == "/c/";
    assert IsAbsolute("/c/a") && !IsAbsolute("a");
  }

  /** The file name a path ends in survives being moved into any directory. */
  lemma {:induction false} BasenameOfJoin(dir: string, name: string)
    requires '/' !in name
    ensures Basename(Join(dir, name)) == name
  {
    assert !IsAbsolute(name);
    BasenameAfterSlash(DirPrefix(dir), name);
  }

  lemma {:induction false} BasenameAfterSlash(d: string, name: string)
    requires d == [] || d[|d| - 1] == '/'
    requires '/' !in name
    ensures Basename(d + name) == name
  {
    if name != [] {
      var p := d + name;
      var init := name[..|name| - 1];
      assert p[|p| - 1] == name[|name| - 1];
      assert p[..|p| - 1] == d + init;
      BasenameAfterSlash(d, init);
      assert name == init + [name[|name| - 1]];
    } else {
      assert d + name == d;
    }
  }
}
