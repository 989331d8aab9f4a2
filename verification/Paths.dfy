/** `PurePosixPath`: splitting, containment and suffixes, lexically and without touching a file system. */
module Paths {

  /** `root` is "", "/" or "//"; empty and "." components disappear. */
  datatype PurePath = PurePath(root: string, parts: seq<string>)

  function RootOf(text: string): string {
    if |text| >= 2 && text[..2] == "//" && !(|text| >= 3 && text[2] == '/') then "//"
    else if |text| >= 1 && text[0] == '/' then "/"
    else ""
  }

  /** The components of a text, the first of which has already collected `current`. */
  function Split(text: string, current: string): seq<string> {
    if text == [] then Component(current)
    else if text[0] == '/' then Component(current) + Split(text[1..], "")
    else Split(text[1..], current + [text[0]])
  }

  function Component(name: string): seq<string> {
    if name == "" || name == "." then [] else [name]
  }

  function Parse(text: string): PurePath {
    PurePath(RootOf(text), Split(text, ""))
  }

  /** `path == root or root in path.parents`. */
  predicate Inside(path: PurePath, root: PurePath) {
    path.root == root.root && root.parts <= path.parts
  }

  /** The index of the last dot, or -1. */
  function LastDot(name: string): int {
    if name == [] then -1
    else if name[|name| - 1] == '.' then |name| - 1
    else LastDot(name[..|name| - 1])
  }

  function Name(path: PurePath): string {
    if path.parts == [] then "" else path.parts[|path.parts| - 1]
  }

  /** `path.suffix`. */
  function Suffix(path: PurePath): string {
    var name := Name(path);
    var i := LastDot(name);
    if 0 < i < |name| - 1 then name[i..] else ""
  }

  function Lower(text: string): string {
    seq(|text|, i requires 0 <= i < |text| =>
      if 'A' <= text[i] <= 'Z' then (text[i] as int + 32) as char else text[i])
  }

  /** `name.split(".", 1)[0]`. */
  function BeforeDot(name: string): string {
    if name == [] || name[0] == '.' then [] else [name[0]] + BeforeDot(name[1..])
  }

  /** The components of `path` end with those of `source`. */
  predicate EndsWith(path: PurePath, source: PurePath) {
    |source.parts| <= |path.parts| && path.parts[|path.parts| - |source.parts|..] == source.parts
  }
}
