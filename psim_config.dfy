/**
 * The layered JSON configuration of the Python simulation package
 * (python/psim/config.py). A module's configuration is looked up in a
 * `<module>.json` file in every directory from the configuration root down to
 * the requested directory; each file may hold a `shared`, a `leader` and a
 * `follower` dictionary, and later files override earlier ones.
 *
 * The file system is a pair of parameters: `isDir` says which paths are
 * directories, and `read` gives the parsed dictionary of `<module>.json` in a
 * directory when that file exists.
 */
module PsimConfig {
  import opened Wrappers

  /** A parsed JSON value. */
  datatype Json =
    | Object(entries: map<string, Json>)
    | Array(items: seq<Json>)
    | Text(text: string)
    | Number(number: real)
    | Boolean(truth: bool)
    | Null

  type Dictionary = map<string, Json>

  /** An absolute path as its list of components; the root is `[]`. */
  type Path = seq<string>

  // ----- Sub-dictionaries -----

  function NotADictionary(key: string): string {
    "\"" + key + "\" entry is expected to be a dictionary"
  }

  /** `_search_for_sub_dictionary`. */
  function SubDictionary(dictionary: Dictionary, key: string): (r: Result<Dictionary, string>)
    ensures key !in dictionary ==> r == Ok(map[])
    ensures key in dictionary ==> (r.Ok? <==> dictionary[key].Object?)
    ensures key in dictionary && r.Ok? ==> r.value == dictionary[key].entries
    ensures r.Err? ==> r.error == NotADictionary(key)
  {
    if key !in dictionary then Ok(map[])
    else if dictionary[key].Object? then Ok(dictionary[key].entries)
    else Err(NotADictionary(key))
  }

  /** The three sub-dictionaries of one file. */
  datatype Layer = Layer(shared: Dictionary, leader: Dictionary, follower: Dictionary)

  datatype Role = Leader | Follower

  function Own(l: Layer, role: Role): Dictionary {
    if role == Leader then l.leader else l.follower
  }

  function RoleKey(role: Role): string {
    if role == Leader then "leader" else "follower"
  }

  /** The sub-dictionaries of one file, searched for in the source's order:
    * `shared`, then `leader`, then `follower`. */
  function Layers(d: Dictionary): Result<Layer, string> {
    var s :- SubDictionary(d, "shared");
    var l :- SubDictionary(d, "leader");
    var f :- SubDictionary(d, "follower");
    Ok(Layer(s, l, f))
  }

  /** Each file, in walk order, updates the leader dictionary with `shared`
    * then `leader`, and the follower dictionary with `shared` then
    * `follower`. The first file with a malformed entry ends the load. */
  function Loaded(dicts: seq<Dictionary>): Result<(Dictionary, Dictionary), string> {
    if dicts == [] then Ok((map[], map[]))
    else
      var before :- Loaded(dicts[..|dicts| - 1]);
      var l :- Layers(dicts[|dicts| - 1]);
      Ok((before.0 + l.shared + l.leader, before.1 + l.shared + l.follower))
  }

  function Side(pair: (Dictionary, Dictionary), role: Role): Dictionary {
    if role == Leader then pair.0 else pair.1
  }

  ghost predicate AllLayered(dicts: seq<Dictionary>) {
    forall i :: 0 <= i < |dicts| ==> Layers(dicts[i]).Ok?
  }

  function Lookup(d: Dictionary, k: string): Option<Json> {
    if k in d then Some(d[k]) else None
  }

  /** The reference reading of a role's value for key `k`: the last file
    * mentioning `k` decides, and within that file the role's own entry
    * beats the shared one. */
  ghost function Winner(dicts: seq<Dictionary>, role: Role, k: string): Option<Json>
    requires AllLayered(dicts)
  {
    if dicts == [] then None
    else
      var l := Layers(dicts[|dicts| - 1]).value;
      if k in Own(l, role) then Some(Own(l, role)[k])
      else if k in l.shared then Some(l.shared[k])
      else Winner(dicts[..|dicts| - 1], role, k)
  }

  /** A load fails exactly when some file has a malformed entry, and then
    * with the error of the first such file. */
  lemma {:induction false} LoadedFailsAtFirstBadFile(dicts: seq<Dictionary>)
    ensures Loaded(dicts).Ok? <==> AllLayered(dicts)
    ensures Loaded(dicts).Err? ==>
      exists i :: 0 <= i < |dicts| && AllLayered(dicts[..i]) && Layers(dicts[i]).Err?
        && Loaded(dicts).error == Layers(dicts[i]).error
  {
    if dicts != [] {
      var n := |dicts| - 1;
      LoadedFailsAtFirstBadFile(dicts[..n]);
      AllLayeredSnoc(dicts);
      if Loaded(dicts[..n]).Err? {
        var i :| 0 <= i < n && AllLayered(dicts[..n][..i]) && Layers(dicts[..n][i]).Err?
          && Loaded(dicts[..n]).error == Layers(dicts[..n][i]).error;
        assert dicts[..n][..i] == dicts[..i] && dicts[..n][i] == dicts[i];
      } else if Layers(dicts[n]).Err? {
        assert AllLayered(dicts[..n]) && Layers(dicts[n]).Err?;
      }
    }
  }

  lemma AllLayeredSnoc(dicts: seq<Dictionary>)
    requires dicts != []
    ensures AllLayered(dicts) <==> AllLayered(dicts[..|dicts| - 1]) && Layers(dicts[|dicts| - 1]).Ok?
  {
    var n := |dicts| - 1;
    assert forall i :: 0 <= i < n ==> dicts[..n][i] == dicts[i];
  }

  /** Later files override earlier ones, and a role's own entry overrides the
    * shared one of the same file. */
  lemma {:induction false} LastWriterWins(dicts: seq<Dictionary>, role: Role, k: string)
    requires Loaded(dicts).Ok?
    ensures AllLayered(dicts)
    ensures Lookup(Side(Loaded(dicts).value, role), k) == Winner(dicts, role, k)
  {
    LoadedFailsAtFirstBadFile(dicts);
    if dicts != [] {
      var n := |dicts| - 1;
      assert Loaded(dicts[..n]).Ok?;
      LastWriterWins(dicts[..n], role, k);
    }
  }

  /** The entries of the other role's key. */
  function Without(dicts: seq<Dictionary>, key: string): (r: seq<Dictionary>)
    ensures |r| == |dicts|
    ensures forall i :: 0 <= i < |r| ==> r[i] == dicts[i] - {key}
  {
    if dicts == [] then [] else Without(dicts[..|dicts| - 1], key) + [dicts[|dicts| - 1] - {key}]
  }

  function Other(role: Role): Role {
    if role == Leader then Follower else Leader
  }

  /** Each role's dictionary is built from `shared` and its own entries only:
    * removing every entry of the other role changes nothing in it. */
  lemma {:induction false} RolesAreIndependent(dicts: seq<Dictionary>, role: Role)
    requires Loaded(dicts).Ok?
    ensures Loaded(Without(dicts, RoleKey(Other(role)))).Ok?
    ensures Side(Loaded(Without(dicts, RoleKey(Other(role)))).value, role) == Side(Loaded(dicts).value, role)
  {
    var key := RoleKey(Other(role));
    if dicts == [] {
      assert Without(dicts, key) == [];
    } else {
      var n := |dicts| - 1;
      var stripped := Without(dicts, key);
      assert Loaded(dicts[..n]).Ok?;
      RolesAreIndependent(dicts[..n], role);
      assert stripped[..n] == Without(dicts[..n], key);
      LayerWithout(dicts[n], role);
      var before, l := Loaded(dicts[..n]).value, Layers(dicts[n]).value;
      var before', l' := Loaded(stripped[..n]).value, Layers(stripped[n]).value;
      assert Loaded(dicts).value == (before.0 + l.shared + l.leader, before.1 + l.shared + l.follower);
      assert Loaded(stripped).value == (before'.0 + l'.shared + l'.leader, before'.1 + l'.shared + l'.follower);
    }
  }

  /** Removing the other role's entry from one file keeps it well formed and
    * keeps its shared and own sub-dictionaries. */
  lemma LayerWithout(d: Dictionary, role: Role)
    requires Layers(d).Ok?
    ensures Layers(d - {RoleKey(Other(role))}).Ok?
    ensures Layers(d - {RoleKey(Other(role))}).value.shared == Layers(d).value.shared
    ensures Own(Layers(d - {RoleKey(Other(role))}).value, role) == Own(Layers(d).value, role)
  {
    var d' := d - {RoleKey(Other(role))};
    assert SubDictionary(d', "shared") == SubDictionary(d, "shared");
    assert SubDictionary(d', RoleKey(role)) == SubDictionary(d, RoleKey(role));
  }

  // ----- Paths -----

  /** The text of a path below the root: "/a/b" for `["a", "b"]`. */
  function Joined(p: Path): string {
    if p == [] then "" else Joined(p[..|p| - 1]) + "/" + p[|p| - 1]
  }

  /** The text of a path; the root is "/". */
  function PathText(p: Path): string {
    if p == [] then "/" else Joined(p)
  }

  function Parent(p: Path): Path
    requires p != []
  {
    p[..|p| - 1]
  }

  predicate StartsWith(s: string, prefix: string) {
    |prefix| <= |s| && s[..|prefix|] == prefix
  }

  /** Components of a normalised path are never empty. */
  predicate Wellformed(p: Path) {
    forall i :: 0 <= i < |p| ==> p[i] != ""
  }

  /** The directories met walking up from `p` while the path's text still
    * starts with the base's text, listed from the top down. */
  function Ancestry(p: Path, base: Path): seq<Path>
    decreases |p|
  {
    if p != [] && StartsWith(PathText(p), Joined(base)) then Ancestry(Parent(p), base) + [p] else []
  }

  function Reversed<T>(s: seq<T>): (r: seq<T>)
    ensures |r| == |s|
    ensures forall i :: 0 <= i < |s| ==> r[i] == s[|s| - 1 - i]
  {
    if s == [] then [] else [s[|s| - 1]] + Reversed(s[..|s| - 1])
  }

  lemma ReversedSnoc<T>(s: seq<T>, x: T)
    ensures Reversed(s + [x]) == [x] + Reversed(s)
  {
  }

  lemma {:induction false} JoinedLength(p: Path)
    requires Wellformed(p)
    ensures |Joined(p)| >= 2 * |p|
  {
    if p != [] {
      JoinedLength(p[..|p| - 1]);
    }
  }

  lemma {:induction false} JoinedAppend(a: Path, b: Path)
    ensures Joined(a + b) == Joined(a) + Joined(b)
  {
    if b != [] {
      var m := |b| - 1;
      JoinedAppend(a, b[..m]);
      assert (a + b)[..|a + b| - 1] == a + b[..m];
      calc {
        Joined(a + b);
        Joined(a + b[..m]) + "/" + b[m];
        Joined(a) + Joined(b[..m]) + "/" + b[m];
        Joined(a) + (Joined(b[..m]) + "/" + b[m]);
      }
    } else {
      assert a + b == a;
    }
  }

  /** The root never starts with the text of a non-root base, so the walk
    * stops before it. */
  lemma RootIsOutside(base: Path)
    requires base != [] && Wellformed(base)
    ensures !StartsWith(PathText([]), Joined(base))
  {
    JoinedLength(base);
  }

  // ----- Path normalisation -----

  /** A directory argument as `os.path.join` sees it: absolute or relative,
    * and its text split at `/` (doubled or trailing slashes give empty
    * pieces). */
  datatype DirArg = DirArg(absolute: bool, parts: seq<string>)

  /** The components of a normalised path: never empty, `.` or `..`. */
  predicate Normal(p: Path) {
    forall i :: 0 <= i < |p| ==> p[i] != "" && p[i] != "." && p[i] != ".."
  }

  /** One piece of a path as `os.path.normpath` reads it: empty pieces and
    * `.` are dropped, `..` goes up a level (the root is its own parent), and
    * any other piece goes down into it. */
  function Down(p: Path, piece: string): Path {
    if piece == "" || piece == "." then p
    else if piece == ".." then (if p == [] then [] else Parent(p))
    else p + [piece]
  }

  /** `os.path.abspath` of the pieces read from `start`, left to right. */
  function Normalised(start: Path, pieces: seq<string>): (r: Path)
    ensures Normal(start) ==> Normal(r)
    decreases |pieces|
  {
    if pieces == [] then start else Normalised(Down(start, pieces[0]), pieces[1..])
  }

  /** `_get_full_path(os.path.join(base, directory))`: an absolute
    * directory replaces the base. */
  function FullPath(directory: DirArg, base: Path): Path {
    Normalised(if directory.absolute then [] else base, directory.parts)
  }

  /** Pieces that are already normal components are appended as they are. */
  lemma {:induction false} NormalisedPlain(start: Path, pieces: seq<string>)
    requires Normal(pieces)
    ensures Normalised(start, pieces) == start + pieces
    decreases |pieces|
  {
    if pieces != [] {
      assert Normal(pieces[1..]);
      NormalisedPlain(start + [pieces[0]], pieces[1..]);
      assert start + [pieces[0]] + pieces[1..] == start + pieces;
    }
  }

  /** Normalising a normal path changes nothing. */
  lemma NormalisedIdempotent(p: Path)
    requires Normal(p)
    ensures Normalised([], p) == p
  {
    NormalisedPlain([], p);
    assert [] + p == p;
  }

  // ----- The directory walk -----

  /** `_get_config_directories` with its checks: the normalised base must be
    * a directory, and so must the normalised requested one, whose text must
    * start with the base's. */
  function Directories(directory: DirArg, base: seq<string>, isDir: Path -> bool): Result<seq<Path>, string> {
    var b := Normalised([], base);
    if !isDir(b) then Err("Invalid base configuration directory: " + PathText(b))
    else
      var full := FullPath(directory, b);
      if !isDir(full) || !StartsWith(PathText(full), Joined(b)) then
        Err("Invalid configuration directory: " + PathText(full))
      else Ok(Ancestry(full, b))
  }

  /** `_get_config_directories`: walks up from the requested directory and
    * reverses the list it collected. */
  method ConfigDirectories(directory: DirArg, base: seq<string>, isDir: Path -> bool) returns (r: Result<seq<Path>, string>)
    requires Normalised([], base) != []
    ensures r == Directories(directory, base, isDir)
  {
    var b := Normalised([], base);
    assert Normal(b) && Wellformed(b);
    if !isDir(b) {
      return Err("Invalid base configuration directory: " + PathText(b));
    }
    var full := FullPath(directory, b);
    if !isDir(full) || !StartsWith(PathText(full), Joined(b)) {
      return Err("Invalid configuration directory: " + PathText(full));
    }
    var directories: seq<Path> := [];
    var d := full;
    while StartsWith(PathText(d), Joined(b))
      invariant Ancestry(full, b) == Ancestry(d, b) + Reversed(directories)
      decreases |d|
    {
      WalkUp(d, b, directories);
      directories := directories + [d];
      d := Parent(d);
    }
    assert Ancestry(d, b) == [];
    assert [] + Reversed(directories) == Reversed(directories);
    r := Ok(Reversed(directories));
  }

  /** One step of the walk up: the directory goes to the end of the list,
    * so it comes first once the list is reversed. */
  lemma WalkUp(d: Path, base: Path, directories: seq<Path>)
    requires base != [] && Wellformed(base) && StartsWith(PathText(d), Joined(base))
    ensures d != []
    ensures Ancestry(d, base) + Reversed(directories) == Ancestry(Parent(d), base) + Reversed(directories + [d])
  {
    RootIsOutside(base);
    MovedToFront(Ancestry(Parent(d), base), d, directories);
  }

  lemma MovedToFront<T>(above: seq<T>, x: T, r: seq<T>)
    ensures above + [x] + Reversed(r) == above + Reversed(r + [x])
  {
    ReversedSnoc(r, x);
  }

  /** The walk up from the base itself stops right after it. */
  lemma AncestryOfBase(base: Path)
    requires base != [] && Wellformed(base)
    ensures Ancestry(base, base) == [base]
  {
    var p := Parent(base);
    if p != [] {
      assert Joined(base) == Joined(p) + "/" + base[|base| - 1];
    } else {
      JoinedLength(base);
    }
    assert Ancestry(p, base) == [];
  }

  /** The walk lists every directory from the base down to the requested
    * one, one level at a time. */
  lemma {:induction false} AncestryFromBase(base: Path, directory: Path)
    requires base != [] && Wellformed(base) && Wellformed(directory)
    ensures |Ancestry(base + directory, base)| == |directory| + 1
    ensures forall i :: 0 <= i <= |directory| ==> Ancestry(base + directory, base)[i] == base + directory[..i]
  {
    if directory == [] {
      assert base + directory == base;
      AncestryOfBase(base);
    } else {
      var m := |directory| - 1;
      AncestryStep(base, directory, m);
      AncestryFromBase(base, directory[..m]);
      PrefixesSnoc(base, directory, m, Ancestry(base + directory[..m], base));
    }
  }

  /** Appending the whole path to the paths to its parent's prefixes gives
    * the paths to all its prefixes. */
  lemma PrefixesSnoc(base: Path, directory: Path, m: nat, above: seq<Path>)
    requires m + 1 == |directory| && |above| == m + 1
    requires forall i :: 0 <= i <= m ==> above[i] == base + directory[..m][..i]
    ensures forall i :: 0 <= i <= |directory| ==> (above + [base + directory])[i] == base + directory[..i]
  {
    forall i | 0 <= i <= |directory|
      ensures (above + [base + directory])[i] == base + directory[..i]
    {
      if i <= m {
        assert directory[..m][..i] == directory[..i];
      } else {
        assert directory[..i] == directory;
      }
    }
  }

  /** One level below the base's walk is the walk of the parent, then the
    * directory itself. */
  lemma AncestryStep(base: Path, directory: Path, m: nat)
    requires base != [] && m + 1 == |directory|
    ensures Ancestry(base + directory, base) == Ancestry(base + directory[..m], base) + [base + directory]
  {
    var full := base + directory;
    JoinedAppend(base, directory);
    assert StartsWith(PathText(full), Joined(base));
    assert Parent(full) == base + directory[..m];
  }

  // ----- When the requested directory is refused -----

  /** A path below the base (or the base itself) passes the prefix test. */
  lemma InsideBasePasses(b: Path, d: Path)
    requires b != []
    ensures StartsWith(PathText(b + d), Joined(b))
  {
    JoinedAppend(b, d);
  }

  /** A path above the base fails the prefix test: its text is shorter. */
  lemma AboveBaseFails(b: Path, k: nat)
    requires Wellformed(b) && k < |b|
    ensures !StartsWith(PathText(b[..k]), Joined(b))
  {
    assert b == b[..k] + b[k..];
    JoinedAppend(b[..k], b[k..]);
    assert Wellformed(b[k..]);
    JoinedLength(b[k..]);
  }

  /** With both directories present, the normalised request is accepted when
    * it lies at or below the base and refused with the escape error when it
    * lies above it. */
  lemma EscapeDecided(directory: DirArg, base: seq<string>, isDir: Path -> bool)
    requires Normalised([], base) != []
    requires isDir(Normalised([], base)) && isDir(FullPath(directory, Normalised([], base)))
    ensures var b := Normalised([], base); var full := FullPath(directory, b);
      (b <= full ==> Directories(directory, base, isDir) == Ok(Ancestry(full, b)))
      && (full < b ==> Directories(directory, base, isDir) == Err("Invalid configuration directory: " + PathText(full)))
  {
    var b := Normalised([], base);
    var full := FullPath(directory, b);
    DirectoriesDecided(directory, base, isDir, b, full);
    if b <= full {
      assert full == b + full[|b|..];
      InsideBasePasses(b, full[|b|..]);
    }
    if full < b {
      assert full == b[..|full|];
      AboveBaseFails(b, |full|);
    }
  }

  /** With both directories present, the textual prefix test alone decides
    * between the walk and the escape error. */
  lemma DirectoriesDecided(directory: DirArg, base: seq<string>, isDir: Path -> bool, b: Path, full: Path)
    requires b == Normalised([], base) && full == FullPath(directory, b)
    requires isDir(b) && isDir(full)
    ensures StartsWith(PathText(full), Joined(b)) ==> Directories(directory, base, isDir) == Ok(Ancestry(full, b))
    ensures !StartsWith(PathText(full), Joined(b)) ==> Directories(directory, base, isDir) == Err("Invalid configuration directory: " + PathText(full))
  {
  }

  /** `..` leaves the base: the request is refused with the parent's path. */
  lemma ParentDirectoryRejected(base: seq<string>, isDir: Path -> bool)
    requires Normalised([], base) != [] && isDir(Normalised([], base))
    ensures Directories(DirArg(false, [".."]), base, isDir)
         == Err("Invalid configuration directory: " + PathText(Parent(Normalised([], base))))
  {
    var b := Normalised([], base);
    assert FullPath(DirArg(false, [".."]), b) == Parent(b);
    AboveBaseFails(b, |b| - 1);
  }

  /** `.` and the empty directory are the base itself, walked alone. */
  lemma DotIsBase(base: seq<string>, isDir: Path -> bool, piece: string)
    requires Normalised([], base) != [] && isDir(Normalised([], base))
    requires piece == "." || piece == ""
    ensures Directories(DirArg(false, [piece]), base, isDir) == Ok([Normalised([], base)])
  {
    var b := Normalised([], base);
    assert [piece][1..] == [];
    assert Normalised(b, [piece]) == Normalised(Down(b, piece), []) == Down(b, piece) == b;
    assert b == b + [];
    InsideBasePasses(b, []);
    AncestryOfBase(b);
  }

  /** A relative request of normal components walks every directory from
    * the base down to it. */
  lemma DirectoriesBelowBase(d: seq<string>, base: seq<string>, isDir: Path -> bool)
    requires Normalised([], base) != [] && Normal(d)
    requires isDir(Normalised([], base)) && isDir(Normalised([], base) + d)
    ensures Directories(DirArg(false, d), base, isDir).Ok?
    ensures var walk := Directories(DirArg(false, d), base, isDir).value;
      |walk| == |d| + 1 && forall i :: 0 <= i <= |d| ==> walk[i] == Normalised([], base) + d[..i]
  {
    var b := Normalised([], base);
    NormalisedPlain(b, d);
    InsideBasePasses(b, d);
    AncestryFromBase(b, d);
  }

  /** The containment test compares texts, so a sibling whose name extends
    * the base's last component passes it: with base `/a/b`, the request
    * `../bc` is accepted and walked as `/a/bc` alone. */
  lemma SiblingPassesCheck(base: seq<string>, y: string, isDir: Path -> bool)
    requires Normalised([], base) != [] && y != ""
    requires isDir(Normalised([], base))
    ensures var b := Normalised([], base);
      var sibling := Parent(b) + [b[|b| - 1] + y];
      isDir(sibling) ==> !(b <= sibling) && Directories(DirArg(false, ["..", b[|b| - 1] + y]), base, isDir) == Ok([sibling])
  {
    var b := Normalised([], base);
    SiblingPath(b, y);
    SiblingOutside(b, y);
    SiblingStartsWithBase(b, y);
    SiblingWalkAlone(b, y);
  }

  /** `..` then the extended name leads from the base to its sibling. */
  lemma SiblingPath(b: Path, y: string)
    requires b != [] && Normal(b) && y != ""
    ensures Normalised(b, ["..", b[|b| - 1] + y]) == Parent(b) + [b[|b| - 1] + y]
  {
    var q, x := Parent(b), b[|b| - 1];
    assert x != "" && x != "." && x != "..";
    assert (x + y)[..|x|] == x && |x| >= 1 && |y| >= 1;
    assert ".."[..1] == ".";
    assert x + y != "" && x + y != ".." && x + y != ".";
    assert ["..", x + y][1..] == [x + y] && [x + y][1..] == [];
    assert Normalised(b, ["..", x + y]) == Normalised(q, [x + y]);
    assert Normalised(q, [x + y]) == Normalised(Down(q, x + y), []);
  }

  /** The sibling is not below the base. */
  lemma SiblingOutside(b: Path, y: string)
    requires b != [] && y != ""
    ensures !(b <= Parent(b) + [b[|b| - 1] + y])
  {
    var q, x := Parent(b), b[|b| - 1];
    var sibling := q + [x + y];
    assert sibling[|q|] != b[|q|];
  }

  /** Yet the sibling's text starts with the base's. */
  lemma SiblingStartsWithBase(b: Path, y: string)
    requires b != []
    ensures StartsWith(PathText(Parent(b) + [b[|b| - 1] + y]), Joined(b))
  {
    var q, x := Parent(b), b[|b| - 1];
    LastSplit(b);
    SiblingText(q, x, y);
  }

  /** A non-empty sequence is its parent with its last element appended. */
  lemma LastSplit<T>(b: seq<T>)
    requires b != []
    ensures b == b[..|b| - 1] + [b[|b| - 1]]
  {
  }

  /** And the walk from the sibling stops after it. */
  lemma SiblingWalkAlone(b: Path, y: string)
    requires b != [] && Wellformed(b)
    ensures var sibling := Parent(b) + [b[|b| - 1] + y];
      Ancestry(sibling, b) == [sibling]
  {
    var q, x := Parent(b), b[|b| - 1];
    var sibling := q + [x + y];
    SiblingStartsWithBase(b, y);
    assert Parent(sibling) == q;
    WalkStopsAboveBase(b);
    assert Ancestry(sibling, b) == Ancestry(q, b) + [sibling];
  }

  /** The walk from the base's parent lists nothing. */
  lemma WalkStopsAboveBase(b: Path)
    requires b != [] && Wellformed(b)
    ensures Ancestry(Parent(b), b) == []
  {
    AboveBaseFails(b, |b| - 1);
  }

  lemma JoinedSnoc(q: Path, c: string)
    ensures Joined(q + [c]) == Joined(q) + "/" + c
  {
    assert (q + [c])[..|q|] == q;
  }

  /** Extending the last component's name extends the path's text. */
  lemma SiblingText(q: Path, x: string, y: string)
    ensures Joined(q + [x + y]) == Joined(q + [x]) + y
    ensures StartsWith(PathText(q + [x + y]), Joined(q + [x]))
  {
    JoinedSnoc(q, x + y);
    JoinedSnoc(q, x);
    assert Joined(q) + "/" + (x + y) == Joined(q) + "/" + x + y;
    var t := Joined(q + [x]);
    assert (t + y)[..|t|] == t;
  }

  // ----- Loading a module -----

  /** The dictionaries of the module's files along the walk, in walk order. */
  function Found(dirs: seq<Path>, moduleName: string, read: (Path, string) -> Option<Dictionary>): (r: seq<Dictionary>)
    ensures |r| <= |dirs|
  {
    if dirs == [] then []
    else
      var before := Found(dirs[..|dirs| - 1], moduleName, read);
      match read(dirs[|dirs| - 1], moduleName)
      case Some(d) => before + [d]
      case None => before
  }

  /** `_load_module`: the walk always starts from the package's own
    * configuration directory `packageBase`. */
  function ModuleLayers(moduleName: string, directory: DirArg, packageBase: seq<string>, isDir: Path -> bool,
                        read: (Path, string) -> Option<Dictionary>): Result<(Dictionary, Dictionary), string>
  {
    var dirs :- Directories(directory, packageBase, isDir);
    Loaded(Found(dirs, moduleName, read))
  }

  lemma {:induction false} LoadedAfterError(xs: seq<Dictionary>, ys: seq<Dictionary>)
    requires Loaded(xs).Err?
    ensures Loaded(xs + ys) == Loaded(xs)
  {
    if ys != [] {
      var m := |ys| - 1;
      LoadedAfterError(xs, ys[..m]);
      assert (xs + ys)[..|xs + ys| - 1] == xs + ys[..m];
      assert Loaded(xs + ys) == Loaded(xs + ys[..m]).PropagateFailure();
    } else {
      assert xs + ys == xs;
    }
  }

  /** `_load_module`. The `baseDirectory` argument is accepted and ignored,
    * as in the source: the walk starts from `packageBase`. */
  method LoadModuleLayers(moduleName: string, directory: DirArg, baseDirectory: seq<string>, packageBase: seq<string>,
                          isDir: Path -> bool, read: (Path, string) -> Option<Dictionary>)
      returns (r: Result<(Dictionary, Dictionary), string>)
    requires Normalised([], packageBase) != []
    ensures r == ModuleLayers(moduleName, directory, packageBase, isDir, read)
  {
    var walk := ConfigDirectories(directory, packageBase, isDir);
    if walk.Err? {
      return Err(walk.error);
    }
    var dirs := walk.value;
    var leader: Dictionary := map[];
    var follower: Dictionary := map[];
    for i := 0 to |dirs|
      invariant Loaded(Found(dirs[..i], moduleName, read)) == Ok((leader, follower))
    {
      FoundSnoc(dirs, i, moduleName, read);
      var file := read(dirs[i], moduleName);
      if file.Some? {
        var dictionary := file.value;
        LoadedSnoc(Found(dirs[..i], moduleName, read), dictionary);
        var shared := SubDictionary(dictionary, "shared");
        var ownLeader := SubDictionary(dictionary, "leader");
        var ownFollower := SubDictionary(dictionary, "follower");
        if shared.Err? || ownLeader.Err? || ownFollower.Err? {
          r := if shared.Err? then Err(shared.error) else if ownLeader.Err? then Err(ownLeader.error) else Err(ownFollower.error);
          assert Layers(dictionary).Err? && Err(Layers(dictionary).error) == r;
          LoadErrorIsFinal(dirs, i + 1, moduleName, read);
          return;
        }
        assert Layers(dictionary) == Ok(Layer(shared.value, ownLeader.value, ownFollower.value));
        leader := leader + shared.value;
        leader := leader + ownLeader.value;
        follower := follower + shared.value;
        follower := follower + ownFollower.value;
      } else {
        assert Found(dirs[..i], moduleName, read) + [] == Found(dirs[..i], moduleName, read);
      }
    }
    assert dirs[..|dirs|] == dirs;
    r := Ok((leader, follower));
  }

  lemma FoundSnoc(dirs: seq<Path>, i: nat, moduleName: string, read: (Path, string) -> Option<Dictionary>)
    requires i < |dirs|
    ensures Found(dirs[..i + 1], moduleName, read)
      == Found(dirs[..i], moduleName, read) + (if read(dirs[i], moduleName).Some? then [read(dirs[i], moduleName).value] else [])
  {
    assert dirs[..i + 1][..i] == dirs[..i];
  }

  lemma LoadedSnoc(xs: seq<Dictionary>, d: Dictionary)
    ensures Loaded(xs + [d]) ==
      if Loaded(xs).Err? then Loaded(xs)
      else if Layers(d).Err? then Err(Layers(d).error)
      else Ok((Loaded(xs).value.0 + Layers(d).value.shared + Layers(d).value.leader,
               Loaded(xs).value.1 + Layers(d).value.shared + Layers(d).value.follower))
  {
    assert (xs + [d])[..|xs|] == xs;
  }

  /** A malformed file ends the load: nothing found later matters. */
  lemma LoadErrorIsFinal(dirs: seq<Path>, k: nat, moduleName: string, read: (Path, string) -> Option<Dictionary>)
    requires k <= |dirs| && Loaded(Found(dirs[..k], moduleName, read)).Err?
    ensures Loaded(Found(dirs, moduleName, read)) == Loaded(Found(dirs[..k], moduleName, read))
  {
    var found := Found(dirs[..k], moduleName, read);
    FoundPrefix(dirs, k, moduleName, read);
    LoadedAfterError(found, Found(dirs, moduleName, read)[|found|..]);
  }

  /** The files found in a prefix of the walk are a prefix of those found in
    * the whole walk. */
  lemma {:induction false} FoundPrefix(dirs: seq<Path>, k: nat, moduleName: string, read: (Path, string) -> Option<Dictionary>)
    requires k <= |dirs|
    ensures |Found(dirs[..k], moduleName, read)| <= |Found(dirs, moduleName, read)|
    ensures Found(dirs, moduleName, read) == Found(dirs[..k], moduleName, read) + Found(dirs, moduleName, read)[|Found(dirs[..k], moduleName, read)|..]
    decreases |dirs|
  {
    if k < |dirs| {
      var n := |dirs| - 1;
      assert dirs[..n][..k] == dirs[..k];
      FoundPrefix(dirs[..n], k, moduleName, read);
    } else {
      assert dirs[..k] == dirs;
    }
  }

  // ----- The public loaders -----

  /** `load_modules`: in this version of the package it loads nothing and
    * always answers with an empty dictionary. */
  function LoadModules(modules: set<string>, configDir: string, patchDir: Option<string>): (r: Dictionary)
    ensures r == map[]
  {
    map[]
  }

  /** The modules the package knows: the global ones and those of each
    * satellite. */
  const AllModules: set<string> := {"constants"} + {"sensors", "truth"}

  /** `load_all_modules`: ignores the `modules` it is given, calls
    * `load_modules` on every known module, and does not return its answer,
    * so the caller always gets `None`. */
  function LoadAllModules(modules: set<string>, configDir: string, patchDir: Option<string>): (r: Option<Dictionary>)
    ensures r.None?
  {
    var _ := LoadModules(AllModules, configDir, patchDir);
    None
  }

  /** `load_module`: the single-module form of `load_modules`. */
  function LoadModule(moduleName: string, configDir: string, patchDir: Option<string>): (r: Dictionary)
    ensures r == LoadModules({moduleName}, configDir, patchDir) && r == map[]
  {
    LoadModules({moduleName}, configDir, patchDir)
  }
}
