/** What the three revisions of the info-command store share: the store is a
    directory of text files, one per command, seen here as a map from each
    file's path to its text. This module holds the path arithmetic, the
    directory listing, the `.txt` name extraction, the sorted listing and the
    reply `list` sends, and the lower-casing applied to command names. */
module InfoFiles {
  import opened StringOrder

  /** The file system the store lives in: path to file contents. */
  type Files = map<string, string>

  // ---------------------------------------------------------------------
  // Lower-casing

  function LowerChar(c: char): char
  {
    if 'A' <= c <= 'Z' then (c as int + 32) as char else c
  }

  /** `str.lower()`, on the ASCII letters. */
  function Lower(s: string): (r: string)
    ensures |r| == |s|
    ensures forall i :: 0 <= i < |s| ==> r[i] == LowerChar(s[i])
    ensures forall i :: 0 <= i < |s| ==> !('A' <= r[i] <= 'Z')
  {
    seq(|s|, i requires 0 <= i < |s| => LowerChar(s[i]))
  }

  /** Lower-casing a lower-cased name changes nothing. */
  lemma LowerIdempotent(s: string)
    ensures Lower(Lower(s)) == Lower(s)
  {
    var l := Lower(s);
    assert forall i :: 0 <= i < |l| ==> LowerChar(l[i]) == l[i];
  }

  /** A name without capitals is its own lower-cased form. */
  lemma LowerOfLowercase(s: string)
    requires forall i :: 0 <= i < |s| ==> !('A' <= s[i] <= 'Z')
    ensures Lower(s) == s
  {
  }

  /** Lower-casing keeps the separators of a path: it introduces no `'/'`
      and removes none. */
  lemma LowerKeepsSlashes(s: string)
    ensures '/' in Lower(s) <==> '/' in s
  {
    if '/' in s {
      var i :| 0 <= i < |s| && s[i] == '/';
      assert Lower(s)[i] == '/';
    }
    if '/' in Lower(s) {
      var i :| 0 <= i < |Lower(s)| && Lower(s)[i] == '/';
      assert s[i] == '/';
    }
  }

  // ---------------------------------------------------------------------
  // Paths

  /** Two paths built from the same prefix and suffix are equal exactly when
      the parts in between are: a path names one command. */
  lemma ConcatInjective(prefix: string, a: string, b: string, suffix: string)
    ensures prefix + a + suffix == prefix + b + suffix <==> a == b
  {
    if prefix + a + suffix == prefix + b + suffix {
      assert |a| == |b|;
      assert a == (prefix + a + suffix)[|prefix|..|prefix| + |a|];
      assert b == (prefix + b + suffix)[|prefix|..|prefix| + |b|];
    }
  }

  /** `f"{directory}/{name}.txt"`. */
  function TxtPath(directory: string, name: string): string
  {
    directory + "/" + name + ".txt"
  }

  /** Distinct names give distinct files. */
  lemma TxtPathInjective(directory: string, a: string, b: string)
    ensures TxtPath(directory, a) == TxtPath(directory, b) <==> a == b
  {
    ConcatInjective(directory + "/", a, b, ".txt");
  }

  /** What a path inside `directory` starts with: the directory with one
      trailing separator. */
  function DirPrefix(directory: string): (p: string)
    ensures |p| > 0 && p[|p| - 1] == '/'
  {
    if |directory| > 0 && directory[|directory| - 1] == '/' then directory else directory + "/"
  }

  /** `os.path.join(directory, name)` for a non-empty directory. Every
      directory the cogs and the repository hold is non-empty (their
      constructors require it), so the empty directory, which
      `os.path.join` would drop, never reaches this. */
  function Join(directory: string, name: string): string
  {
    DirPrefix(directory) + name
  }

  /** `path` names an entry directly inside `directory`. */
  predicate IsChild(directory: string, path: string)
  {
    var p := DirPrefix(directory);
    && |p| < |path|
    && path[..|p|] == p
    && '/' !in path[|p|..]
  }

  /** `os.listdir(directory)`: the names of the files directly inside it. */
  function Listing(files: Files, directory: string): (names: set<string>)
    ensures forall n :: n in names ==> Join(directory, n) in files && n != "" && '/' !in n
  {
    var p := DirPrefix(directory);
    assert forall path :: path in files && IsChild(directory, path) ==> Join(directory, path[|p|..]) == path by {
      forall path | path in files && IsChild(directory, path)
        ensures Join(directory, path[|p|..]) == path
      {
        assert path == path[..|p|] + path[|p|..];
      }
    }
    set path | path in files && IsChild(directory, path) :: path[|p|..]
  }

  /** A file is listed exactly when it is directly inside the directory. */
  lemma ListingMembers(files: Files, directory: string, name: string)
    requires name != "" && '/' !in name
    ensures name in Listing(files, directory) <==> Join(directory, name) in files
  {
    var p := DirPrefix(directory);
    if Join(directory, name) in files {
      var path := Join(directory, name);
      assert path[..|p|] == p && path[|p|..] == name;
      assert IsChild(directory, path);
    }
  }

  predicate EndsWithTxt(name: string)
  {
    |name| >= 4 && name[|name| - 4..] == ".txt"
  }

  /** Python's `name[:-4]`, which is empty for a name shorter than four. */
  function DropLast4(name: string): (r: string)
    ensures |name| >= 4 ==> |r| == |name| - 4 && name == r + name[|name| - 4..]
    ensures |name| < 4 ==> r == ""
  {
    if |name| >= 4 then name[..|name| - 4] else ""
  }

  /** `[file[:-4] for file in names if file.endswith(".txt")]`, as a set. */
  function TxtNames(names: set<string>): (commands: set<string>)
    ensures forall c :: c in commands <==> c + ".txt" in names
  {
    var commands := set n | n in names && EndsWithTxt(n) :: DropLast4(n);
    assert forall c :: c + ".txt" in names ==> c in commands by {
      forall c | c + ".txt" in names
        ensures c in commands
      {
        var n := c + ".txt";
        assert EndsWithTxt(n) && DropLast4(n) == c;
      }
    }
    commands
  }

  /** The command names `list` finds: the `.txt` files of the directory,
      without their suffix. */
  function Commands(files: Files, directory: string): set<string>
  {
    TxtNames(Listing(files, directory))
  }

  /** A command name is listed exactly when its file is in the directory;
      a name holding a separator never is. */
  lemma CommandsMembers(files: Files, directory: string, name: string)
    ensures '/' !in name ==> (name in Commands(files, directory) <==> Join(directory, name + ".txt") in files)
    ensures '/' in name ==> name !in Commands(files, directory)
  {
    if '/' in name {
      var i :| 0 <= i < |name| && name[i] == '/';
      assert (name + ".txt")[i] == '/';
    } else {
      assert '/' !in name + ".txt";
      ListingMembers(files, directory, name + ".txt");
    }
  }

  /** `str(Path(...))` of a directory: never empty, no trailing separator. */
  predicate PlainDirectory(directory: string)
  {
    |directory| > 0 && directory[|directory| - 1] != '/'
  }

  /** Inside a plain directory, `f"{directory}/{name}.txt"` is the joined path
      of the file `name.txt`. */
  lemma TxtPathIsJoin(directory: string, name: string)
    requires PlainDirectory(directory)
    ensures TxtPath(directory, name) == Join(directory, name + ".txt")
  {
  }

  lemma JoinInjective(directory: string, a: string, b: string)
    ensures Join(directory, a) == Join(directory, b) <==> a == b
  {
    ConcatInjective(DirPrefix(directory), a, b, "");
    assert DirPrefix(directory) + a + "" == Join(directory, a);
    assert DirPrefix(directory) + b + "" == Join(directory, b);
  }

  /** Writing the file of `name` adds `name` to the listed commands. */
  lemma CommandsAfterWrite(files: Files, directory: string, name: string, text: string)
    requires '/' !in name
    ensures Commands(files[Join(directory, name + ".txt") := text], directory) == Commands(files, directory) + {name}
  {
    var written := files[Join(directory, name + ".txt") := text];
    forall x
      ensures x in Commands(written, directory) <==> x in Commands(files, directory) || x == name
    {
      CommandsMembers(written, directory, x);
      CommandsMembers(files, directory, x);
      JoinInjective(directory, x + ".txt", name + ".txt");
      ConcatInjective("", x, name, ".txt");
      assert "" + x + ".txt" == x + ".txt" && "" + name + ".txt" == name + ".txt";
    }
  }

  /** Deleting the file of `name` removes `name` from the listed commands. */
  lemma CommandsAfterDelete(files: Files, directory: string, name: string)
    requires '/' !in name
    ensures Commands(files - {Join(directory, name + ".txt")}, directory) == Commands(files, directory) - {name}
  {
    var deleted := files - {Join(directory, name + ".txt")};
    forall x
      ensures x in Commands(deleted, directory) <==> x in Commands(files, directory) && x != name
    {
      CommandsMembers(deleted, directory, x);
      CommandsMembers(files, directory, x);
      JoinInjective(directory, x + ".txt", name + ".txt");
      ConcatInjective("", x, name, ".txt");
      assert "" + x + ".txt" == x + ".txt" && "" + name + ".txt" == name + ".txt";
    }
  }

  /** A file written outside the directory does not change its listing. */
  lemma ListingAfterOutsideWrite(files: Files, directory: string, path: string, text: string)
    requires !IsChild(directory, path)
    ensures Listing(files[path := text], directory) == Listing(files, directory)
  {
    var p := DirPrefix(directory);
    forall n | n in Listing(files[path := text], directory)
      ensures n in Listing(files, directory)
    {
      ListingMembers(files[path := text], directory, n);
      assert Join(directory, n) != path by {
        var q := Join(directory, n);
        assert q[..|p|] == p && q[|p|..] == n;
      }
      ListingMembers(files, directory, n);
    }
    forall n | n in Listing(files, directory)
      ensures n in Listing(files[path := text], directory)
    {
      ListingMembers(files, directory, n);
      ListingMembers(files[path := text], directory, n);
    }
  }

  // ---------------------------------------------------------------------
  // Sorting the listing

  predicate StrictlySorted(s: seq<string>)
  {
    forall i, j :: 0 <= i < j < |s| ==> LexLt(s[i], s[j])
  }

  lemma LexLtTransitive(a: string, b: string, c: string)
    requires LexLt(a, b) && LexLt(b, c)
    ensures LexLt(a, c)
  {
    LexLeTransitive(a, b, c);
    if a == c {
      LexLeAntisymmetric(a, b);
    }
  }

  /** Places `x` into a strictly sorted list of names not holding it. */
  function InsertName(x: string, s: seq<string>): (r: seq<string>)
    requires StrictlySorted(s) && x !in s
    ensures StrictlySorted(r)
    ensures |r| == |s| + 1
    ensures forall y :: y in r <==> y == x || y in s
  {
    if s == [] then [x]
    else if LexLe(x, s[0]) then
      assert forall j :: 0 < j < |s| ==> LexLt(x, s[j]) by {
        forall j | 0 < j < |s|
          ensures LexLt(x, s[j])
        {
          LexLtTransitive(x, s[0], s[j]);
        }
      }
      [x] + s
    else
      NotLexLeIsGreater(x, s[0]);
      var rest := InsertName(x, s[1..]);
      assert forall y :: y in rest ==> LexLt(s[0], y);
      [s[0]] + rest
  }

  /** `sorted(...)` of a collection of distinct names. */
  ghost function SortedNames(names: set<string>): (r: seq<string>)
    ensures StrictlySorted(r)
    ensures |r| == |names|
    ensures forall y :: y in r <==> y in names
    decreases |names|
  {
    if names == {} then []
    else
      var x :| x in names;
      InsertName(x, SortedNames(names - {x}))
  }

  /** Sorting is determined by what is sorted: two strictly sorted lists of
      the same names are the same list. */
  lemma {:induction false} SortedUnique(a: seq<string>, b: seq<string>)
    requires StrictlySorted(a) && StrictlySorted(b)
    requires forall y :: y in a <==> y in b
    ensures a == b
    decreases |a|
  {
    if a != [] {
      assert a[0] in a;
    }
    if b != [] {
      assert b[0] in b;
    }
    if a != [] && b != [] {
      assert a[0] in a && b[0] in b;
      if a[0] != b[0] {
        var i :| 0 <= i < |b| && b[i] == a[0];
        var j :| 0 <= j < |a| && a[j] == b[0];
        assert LexLt(b[0], a[0]) by {
          assert i != 0;
        }
        assert LexLt(a[0], b[0]) by {
          assert j != 0;
        }
        LexLeAntisymmetric(a[0], b[0]);
      }
      forall y
        ensures y in a[1..] <==> y in b[1..]
      {
        if y in a[1..] {
          var k :| 0 <= k < |a[1..]| && a[1..][k] == y;
          assert LexLt(a[0], a[k + 1]);
          assert y in b;
          var m :| 0 <= m < |b| && b[m] == y;
          assert m != 0;
          assert b[1..][m - 1] == y;
        }
        if y in b[1..] {
          var k :| 0 <= k < |b[1..]| && b[1..][k] == y;
          assert LexLt(b[0], b[k + 1]);
          assert y in a;
          var m :| 0 <= m < |a| && a[m] == y;
          assert m != 0;
          assert a[1..][m - 1] == y;
        }
      }
      SortedUnique(a[1..], b[1..]);
      assert a == [a[0]] + a[1..] && b == [b[0]] + b[1..];
    }
  }

  /** `sorted` over the names found in a directory, one insertion per name in
      whichever order the directory yields them. */
  method SortNames(names: set<string>) returns (sorted: seq<string>)
    ensures sorted == SortedNames(names)
  {
    sorted := [];
    var remaining := names;
    while remaining != {}
      invariant remaining <= names
      invariant StrictlySorted(sorted)
      invariant forall y :: y in sorted <==> y in names && y !in remaining
      decreases |remaining|
    {
      var x :| x in remaining;
      sorted := InsertName(x, sorted);
      remaining := remaining - {x};
    }
    SortedUnique(sorted, SortedNames(names));
  }

  // ---------------------------------------------------------------------
  // The reply of `list`

  /** `" ".join(names)`. */
  function JoinSpaced(names: seq<string>): string
  {
    if names == [] then ""
    else if |names| == 1 then names[0]
    else names[0] + " " + JoinSpaced(names[1..])
  }

  /** `s.split(" ")`: the pieces between single spaces, empty ones kept. */
  function SplitSpaced(s: string): (pieces: seq<string>)
    ensures |pieces| > 0
    decreases |s|
  {
    if ' ' !in s then [s]
    else
      var i := FirstSpace(s);
      [s[..i]] + SplitSpaced(s[i + 1..])
  }

  function FirstSpace(s: string): (i: nat)
    requires ' ' in s
    ensures i < |s| && s[i] == ' ' && ' ' !in s[..i]
  {
    if s[0] == ' ' then 0
    else
      var i := FirstSpace(s[1..]);
      assert s[..i + 1] == [s[0]] + s[1..][..i];
      i + 1
  }

  /** The joined listing splits back into the names, as long as there is at
      least one and none holds a space. */
  lemma {:induction false} SplitJoinSpaced(names: seq<string>)
    requires names != []
    requires forall k :: 0 <= k < |names| ==> ' ' !in names[k]
    ensures SplitSpaced(JoinSpaced(names)) == names
    decreases |names|
  {
    if |names| > 1 {
      var s := JoinSpaced(names);
      var rest := JoinSpaced(names[1..]);
      assert s == names[0] + " " + rest;
      assert s[|names[0]|] == ' ';
      var i := FirstSpace(s);
      assert s[..|names[0]|] == names[0];
      assert i == |names[0]|;
      assert s[i + 1..] == rest;
      SplitJoinSpaced(names[1..]);
      assert names == [names[0]] + names[1..];
    } else {
      assert ' ' !in JoinSpaced(names);
    }
  }

  const NoCommandsReply: string := "No commands saved yet."

  /** What `list` sends for the sorted command names. */
  function ListReply(names: seq<string>): (reply: string)
    ensures reply == NoCommandsReply <==> names == []
    ensures names != [] ==>
      |reply| >= 22 && reply[..19] == "```Saved commands:\n" && reply[|reply| - 3..] == "```"
  {
    if names == [] then NoCommandsReply
    else
      var r := "```Saved commands:\n" + JoinSpaced(names) + "```";
      assert r[0] != NoCommandsReply[0];
      r
  }

  /** The names can be read back out of a non-empty listing. */
  lemma ListReplyNames(names: seq<string>)
    requires names != []
    requires forall k :: 0 <= k < |names| ==> ' ' !in names[k]
    ensures var reply := ListReply(names);
      SplitSpaced(reply[19..|reply| - 3]) == names
  {
    var reply := ListReply(names);
    assert reply[19..|reply| - 3] == JoinSpaced(names);
    SplitJoinSpaced(names);
  }

  /** The `list` reply for the commands found in a directory: the listing,
      sorted. */
  method ListCommandsReply(files: Files, directory: string) returns (reply: string)
    ensures reply == ListReply(SortedNames(Commands(files, directory)))
    ensures reply == NoCommandsReply <==> Commands(files, directory) == {}
  {
    var names := SortNames(Commands(files, directory));
    reply := ListReply(names);
  }
}
