/** The part of pathlib's POSIX flavour that the converter relies on (as in
    CPython 3.12): parsing a string into a path, printing it back, and the
    `name`, `suffix`, `stem` and `with_suffix` members. */
module PurePaths {
  import opened Wrappers

  /** A parsed path: its root ("", "/" or "//") and its components. */
  datatype Path = Path(root: string, parts: seq<string>)

  /** The ValueError that `with_suffix` and `with_name` raise. */
  datatype PathError =
    | InvalidSuffix(suffix: string)
    | EmptyName(path: string)
    | InvalidName(name: string)

  /** A component that survives parsing: not empty, not ".", no separator. */
  predicate ValidPart(c: string)
  {
    c != "" && c != "." && '/' !in c
  }

  predicate ValidParts(parts: seq<string>)
  {
    forall i :: 0 <= i < |parts| ==> ValidPart(parts[i])
  }

  /** The paths that parsing can produce. */
  predicate Normal(p: Path)
  {
    (p.root == "" || p.root == "/" || p.root == "//") && ValidParts(p.parts)
  }

  /** posixpath.splitroot: exactly two leading slashes are kept as the root
      "//"; one, three or more collapse to "/". */
  function Root(s: string): string
  {
    if |s| == 0 || s[0] != '/' then ""
    else if |s| >= 2 && s[1] == '/' && (|s| == 2 || s[2] != '/') then "//"
    else "/"
  }

  /** `s.rfind(c)`: the last index of `c` in `s`, or -1. */
  function LastIndexOf(s: string, c: char): (r: int)
    ensures -1 <= r < |s|
    ensures r == -1 ==> c !in s
    ensures r >= 0 ==> s[r] == c
    ensures forall j :: r < j < |s| ==> s[j] != c
  {
    if |s| == 0 then -1
    else if s[|s| - 1] == c then |s| - 1
    else LastIndexOf(s[..|s| - 1], c)
  }

  /** A piece between two slashes, dropped when it is empty or ".". */
  function Keep(piece: string): seq<string>
  {
    if piece == "" || piece == "." then [] else [piece]
  }

  /** The components of a path string: the pieces between slashes, without
      the empty ones and ".". (The root consists of slashes only, so splitting
      the whole string gives the same pieces as splitting what follows it.) */
  function Components(s: string): seq<string>
    decreases |s|
  {
    var i := LastIndexOf(s, '/');
    if i < 0 then Keep(s) else Components(s[..i]) + Keep(s[i + 1..])
  }

  lemma {:induction false} ComponentsValid(s: string)
    ensures ValidParts(Components(s))
    decreases |s|
  {
    var i := LastIndexOf(s, '/');
    if i >= 0 {
      ComponentsValid(s[..i]);
      var piece := s[i + 1..];
      assert '/' !in piece;
    }
  }

  /** `Path(s)`. */
  function Parse(s: string): (p: Path)
    ensures Normal(p)
  {
    ComponentsValid(s);
    Path(Root(s), Components(s))
  }

  /** `"/".join(parts)`. */
  function Join(parts: seq<string>): string
  {
    if |parts| == 0 then ""
    else if |parts| == 1 then parts[0]
    else Join(parts[..|parts| - 1]) + "/" + parts[|parts| - 1]
  }

  /** `str(p)`: "." for the empty relative path. The text of a parsed path
      is never empty and splits back to the same root. */
  function PathStr(p: Path): (r: string)
    ensures Normal(p) ==> r != "" && Root(r) == p.root
  {
    if p.root == "" && p.parts == [] then "."
    else
      assert Normal(p) && p.parts != [] ==> |Join(p.parts)| > 0 && Join(p.parts)[0] != '/' by {
        if Normal(p) && p.parts != [] {
          JoinStart(p.parts);
        }
      }
      p.root + Join(p.parts)
  }

  /** The final component, or "" when there is none. */
  function Name(p: Path): string
  {
    if p.parts == [] then "" else p.parts[|p.parts| - 1]
  }

  /** True when the last dot of `name` is neither its first nor its last
      character: only then does the name have a suffix. */
  predicate HasSuffix(name: string)
  {
    0 < LastIndexOf(name, '.') < |name| - 1
  }

  /** `PurePath.suffix` of a final component. */
  function Suffix(name: string): (r: string)
    ensures r == "" <==> !HasSuffix(name)
    ensures r != "" ==> |r| >= 2 && r[0] == '.' && '.' !in r[1..]
  {
    var i := LastIndexOf(name, '.');
    if 0 < i < |name| - 1 then name[i..] else ""
  }

  /** `PurePath.stem` of a final component: the name without its suffix. */
  function Stem(name: string): (r: string)
    ensures r + Suffix(name) == name
    ensures name != "" ==> r != ""
  {
    var i := LastIndexOf(name, '.');
    if 0 < i < |name| - 1 then name[..i] else name
  }

  /** A suffix as the converter uses them: a dot followed by at least one
      character and no further dot or separator. */
  predicate ValidExtension(ext: string)
  {
    |ext| >= 2 && ext[0] == '.' && forall i :: 1 <= i < |ext| ==> ext[i] != '.' && ext[i] != '/'
  }

  /** `PurePath.with_name`. */
  function WithName(p: Path, name: string): (r: Result<Path, PathError>)
    requires p.parts != []
  {
    if !ValidPart(name) then Err(InvalidName(name))
    else Ok(Path(p.root, p.parts[..|p.parts| - 1] + [name]))
  }

  /** `PurePath.with_suffix`: replaces the suffix of the final component, or
      appends one when it has none. */
  function WithSuffix(p: Path, suffix: string): (r: Result<Path, PathError>)
    ensures r.Ok? ==>
      && Name(p) != ""
      && r.value.root == p.root
      && |r.value.parts| == |p.parts|
      && r.value.parts[..|p.parts| - 1] == p.parts[..|p.parts| - 1]
    ensures r.Err? && r.error.EmptyName? ==> Name(p) == ""
  {
    if '/' in suffix then Err(InvalidSuffix(suffix))
    else if (suffix != "" && suffix[0] != '.') || suffix == "." then Err(InvalidSuffix(suffix))
    else if Name(p) == "" then Err(EmptyName(PathStr(p)))
    else
      var name := Name(p);
      var oldSuffix := Suffix(name);
      var newName := if oldSuffix == "" then name + suffix else name[..|name| - |oldSuffix|] + suffix;
      WithName(p, newName)
  }

  /** ASCII `str.lower()` of one character. */
  function LowerChar(c: char): char
  {
    if 'A' <= c <= 'Z' then (c as int - 'A' as int + 'a' as int) as char else c
  }

  /** `s.lower()`, restricted to ASCII letters. */
  function Lower(s: string): string
  {
    seq(|s|, i requires 0 <= i < |s| => LowerChar(s[i]))
  }

  /** No upper-case ASCII letter in `s`. */
  predicate IsLower(s: string)
  {
    forall i :: 0 <= i < |s| ==> !('A' <= s[i] <= 'Z')
  }

  lemma LowerIsLower(s: string)
    ensures IsLower(Lower(s))
    ensures IsLower(s) ==> Lower(s) == s
  {
  }

  /** Characters appended after the last occurrence of `x` do not move it,
      as long as they are not `x` themselves. */
  lemma {:induction false} LastIndexOfAppend(a: string, b: string, x: char)
    requires x !in b
    ensures LastIndexOf(a + b, x) == LastIndexOf(a, x)
    decreases |b|
  {
    if b == [] {
      assert a + b == a;
    } else {
      var k := |b| - 1;
      assert b[k] in b;
      assert (a + b)[..|a + b| - 1] == a + b[..k];
      assert forall y :: y in b[..k] ==> y in b;
      LastIndexOfAppend(a, b[..k], x);
    }
  }

  /** The last slash of `s + "/" + c`, for a `c` without slashes, is the one
      between `s` and `c`. */
  lemma LastSlashBefore(s: string, c: string)
    requires '/' !in c
    ensures LastIndexOf(s + "/" + c, '/') == |s|
  {
    LastIndexOfAppend(s + "/", c, '/');
  }

  /** What lies on either side of the slash in `s + "/" + c`. */
  lemma SlicesAround(s: string, c: string)
    ensures (s + "/" + c)[..|s|] == s && (s + "/" + c)[|s| + 1..] == c
  {
    var t := s + "/" + c;
    assert t == s + ("/" + c);
    assert t[..|s|] == s;
    assert ("/" + c)[1..] == c;
  }

  /** Components of `s + "/" + c` are those of `s` followed by `c`. */
  lemma ComponentsAppend(s: string, c: string)
    requires ValidPart(c)
    ensures Components(s + "/" + c) == Components(s) + [c]
  {
    LastSlashBefore(s, c);
    SlicesAround(s, c);
  }

  /** A trailing slash adds no component. */
  lemma ComponentsTrailingSlash(dir: string)
    ensures Components(dir + "/") == Components(dir)
  {
    var t := dir + "/";
    assert LastIndexOf(t, '/') == |dir|;
    assert t[..|dir|] == dir;
    assert t[|dir| + 1..] == "";
  }

  /** A valid component alone is its only component. */
  lemma ComponentsOfPart(c: string)
    requires ValidPart(c)
    ensures Components(c) == [c]
  {
    assert LastIndexOf(c, '/') == -1;
  }

  /** A valid component after a directory that contributes no component is
      the only component. */
  lemma ComponentAfterEmptyDir(dir: string, c: string)
    requires Components(dir) == [] && ValidPart(c)
    ensures Components(dir + "/" + c) == [c]
  {
    ComponentsAppend(dir, c);
  }

  /** A valid component written after a prefix that contributes no
      component and ends in a slash (a root) is the only component. */
  lemma ComponentAfterRoot(prefix: string, c: string)
    requires Components(prefix) == [] && (prefix == "" || prefix[|prefix| - 1] == '/')
    requires ValidPart(c)
    ensures Components(prefix + c) == [c]
  {
    if prefix == "" {
      assert prefix + c == c;
      ComponentsOfPart(c);
    } else {
      var dir := prefix[..|prefix| - 1];
      assert prefix == dir + "/";
      ComponentsTrailingSlash(dir);
      ComponentAfterEmptyDir(dir, c);
    }
  }

  /** `"/".join` of a list extended by one component. */
  lemma JoinSnoc(init: seq<string>, last: string)
    requires init != []
    ensures Join(init + [last]) == Join(init) + "/" + last
  {
    var parts := init + [last];
    assert parts[..|parts| - 1] == init;
  }

  /** Concatenation of sequences is associative. */
  lemma AppendAssoc<T>(a: seq<T>, b: seq<T>, c: seq<T>)
    ensures a + (b + c) == (a + b) + c
  {
  }

  lemma ComponentsAfterSlash(prefix: string, j: string, last: string)
    requires ValidPart(last)
    ensures Components(prefix + (j + "/" + last)) == Components(prefix + j) + [last]
  {
    var s := prefix + j;
    AppendAssoc(prefix, j + "/", last);
    AppendAssoc(prefix, j, "/");
    assert prefix + (j + "/" + last) == s + "/" + last;
    ComponentsAppend(s, last);
  }

  /** The components of a joined list of valid components, written after a
      prefix that contributes none and ends in a slash (a root), are that list. */
  lemma {:induction false} ComponentsOfJoin(prefix: string, parts: seq<string>)
    requires Components(prefix) == [] && (prefix == "" || prefix[|prefix| - 1] == '/')
    requires ValidParts(parts)
    ensures Components(prefix + Join(parts)) == parts
  {
    if |parts| == 0 {
      assert prefix + Join(parts) == prefix;
    } else if |parts| == 1 {
      ComponentAfterRoot(prefix, parts[0]);
    } else {
      var init := parts[..|parts| - 1];
      var last := parts[|parts| - 1];
      assert init + [last] == parts;
      ComponentsOfJoin(prefix, init);
      JoinSnoc(init, last);
      ComponentsAfterSlash(prefix, Join(init), last);
    }
  }

  /** The first character of a joined non-empty list of valid components is
      neither a slash nor missing. */
  lemma {:induction false} JoinStart(parts: seq<string>)
    requires ValidParts(parts) && parts != []
    ensures |Join(parts)| > 0 && Join(parts)[0] == parts[0][0] && Join(parts)[0] != '/'
  {
    assert '/' !in parts[0] && parts[0] != "";
    assert parts[0][0] in parts[0];
    if |parts| > 1 {
      var init := parts[..|parts| - 1];
      JoinStart(init);
      assert init[0] == parts[0];
    }
  }

  /** The possible roots contribute no component. */
  lemma RootsHaveNoComponents()
    ensures Components("") == [] && Components("/") == [] && Components("//") == []
  {
    assert LastIndexOf("", '/') == -1;
    assert LastIndexOf("/", '/') == 0;
    assert "/"[..0] == "" && "/"[1..] == "";
    assert LastIndexOf("//", '/') == 1;
    assert "//"[..1] == "/" && "//"[2..] == "";
  }

  /** Printing a parsed path and parsing it again gives the same path: this is
      what makes `Path(str(p)) == p` hold in the converter. */
  lemma ParseStr(p: Path)
    requires Normal(p)
    ensures Parse(PathStr(p)) == p
  {
    if p.root == "" && p.parts == [] {
      assert LastIndexOf(".", '/') == -1;
    } else {
      RootsHaveNoComponents();
      ComponentsOfJoin(p.root, p.parts);
    }
  }

  /** The name of a parsed path with a non-empty name is its last component,
      whatever the directories before it. */
  lemma NameOfAppend(dir: string, c: string)
    requires ValidPart(c)
    ensures Name(Parse(dir + "/" + c)) == c
    ensures Name(Parse(c)) == c
  {
    ComponentsAppend(dir, c);
    assert '/' !in c;
  }

  /** The name a suffix is appended to or replaced in: old stem plus the new
      suffix; its own suffix is the new one and its stem the old one. */
  lemma StemPlusExtension(stem: string, ext: string)
    requires stem != "" && ValidExtension(ext)
    ensures LastIndexOf(stem + ext, '.') == |stem|
    ensures Suffix(stem + ext) == ext && Stem(stem + ext) == stem
  {
    var s := stem + ext;
    var r := LastIndexOf(s, '.');
    assert s[|stem|] == '.';
    forall j | |stem| < j < |s|
      ensures s[j] != '.'
    {
      assert s[j] == ext[j - |stem|];
    }
    assert s[|stem|..] == ext && s[..|stem|] == stem;
  }

  /** `with_suffix` with a valid extension on a path with a name never fails:
      it keeps the root and the parent components and gives a final
      component whose stem is the old stem and whose suffix is the extension. */
  lemma WithValidSuffix(p: Path, ext: string)
    requires Normal(p) && ValidExtension(ext) && Name(p) != ""
    ensures WithSuffix(p, ext).Ok?
    ensures var q := WithSuffix(p, ext).value;
      && Normal(q)
      && q.root == p.root
      && |q.parts| == |p.parts|
      && q.parts[..|q.parts| - 1] == p.parts[..|p.parts| - 1]
      && Name(q) == Stem(Name(p)) + ext
      && Suffix(Name(q)) == ext
      && Stem(Name(q)) == Stem(Name(p))
  {
    var name := Name(p);
    assert '/' !in ext by {
      assert forall i :: 0 <= i < |ext| ==> ext[i] != '/';
    }
    var stem := Stem(name);
    var newName := stem + ext;
    assert name[..|name| - |Suffix(name)|] == stem;
    assert '/' !in stem by {
      assert stem == name[..|stem|];
      assert '/' !in name;
    }
    assert '/' !in newName;
    assert newName != "." && newName != "";
    StemPlusExtension(stem, ext);
    var q := Path(p.root, p.parts[..|p.parts| - 1] + [newName]);
    assert WithSuffix(p, ext) == Ok(q);
    assert q.parts[..|q.parts| - 1] == p.parts[..|p.parts| - 1];
  }

  /** `with_suffix` with the suffix a path already has gives the same path. */
  lemma WithOwnSuffix(p: Path, ext: string)
    requires Normal(p) && ValidExtension(ext) && Suffix(Name(p)) == ext
    ensures WithSuffix(p, ext) == Ok(p)
  {
    var name := Name(p);
    var last := |p.parts| - 1;
    assert p.parts != [] && name == p.parts[last];
    assert ValidPart(name) && '/' !in ext;
    var stem := Stem(name);
    assert stem + ext == name;
    assert name[..|name| - |ext|] == stem;
    assert p.parts[..last] + [name] == p.parts;
  }
}
