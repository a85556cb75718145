/** Python's `PurePosixPath`: parsing, printing, joining and parents. */
module PosixPath {
  import opened Texts

  /** `root` is "", "/" or "//"; `parts` are the names, without empty ones and dots. */
  datatype Path = Path(root: string, parts: seq<string>)

  /** Names as parsing leaves them. */
  predicate Name(p: string) { p != "" && p != "." && '/' !in p }

  predicate Normal(p: Path) {
    p.root in {"", "/", "//"} && forall i :: 0 <= i < |p.parts| ==> Name(p.parts[i])
  }

  function Names(pieces: seq<string>): (names: seq<string>)
    ensures forall i :: 0 <= i < |names| ==> names[i] != "" && names[i] != "." && names[i] in pieces
  {
    if pieces == [] then []
    else (if pieces[0] == "" || pieces[0] == "." then [] else [pieces[0]]) + Names(pieces[1..])
  }

  function Root(s: string): string {
    if s == "" || s[0] != '/' then ""
    else if |s| >= 2 && s[1] == '/' && (|s| == 2 || s[2] != '/') then "//"
    else "/"
  }

  function Parse(s: string): (p: Path)
    ensures Normal(p)
  {
    Path(Root(s), Names(Split(s, '/')))
  }

  /** `str(p)` */
  function Print(p: Path): string {
    if p.root == "" && p.parts == [] then "." else p.root + Join(p.parts, '/')
  }

  /** `p / name` */
  function Over(p: Path, name: string): Path {
    var q := Parse(name);
    if q.root != "" then q else Path(p.root, p.parts + q.parts)
  }

  /** `(p, *p.parents)[k]` */
  function Ancestor(p: Path, k: nat): Path
    requires k <= |p.parts|
  {
    Path(p.root, p.parts[..|p.parts| - k])
  }

  /** `p.name` */
  function LastName(p: Path): string {
    if p.parts == [] then "" else p.parts[|p.parts| - 1]
  }

  lemma {:induction false} NamesKept(pieces: seq<string>)
    requires forall i :: 0 <= i < |pieces| ==> pieces[i] != "" && pieces[i] != "."
    ensures Names(pieces) == pieces
  {
    if pieces != [] {
      NamesKept(pieces[1..]);
      assert [pieces[0]] + pieces[1..] == pieces;
    }
  }

  lemma {:induction false} NamesConcat(a: seq<string>, b: seq<string>)
    ensures Names(a + b) == Names(a) + Names(b)
  {
    if a == [] {
      assert a + b == b;
    } else {
      assert (a + b)[1..] == a[1..] + b;
      NamesConcat(a[1..], b);
    }
  }

  /** A relative path that prints as itself is made of its names. */
  lemma PrintedNames(s: string)
    requires Root(s) == "" && Print(Parse(s)) == s && s != "."
    ensures Parse(s).parts != [] && Join(Parse(s).parts, '/') == s && Split(s, '/') == Parse(s).parts
  {
    SplitJoin(Parse(s).parts, '/');
  }
}
