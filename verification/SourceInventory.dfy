// The physical source inventory of scripts/release_source_guard.py (files, the path rules of tree_entries).
module SourceInventory {
  import opened Wrappers
  import opened StringOrder
  import opened SourceRules
  import opened Sorting

  // What scandir reports without following links: a directory, a regular file, or anything else.
  datatype Node = Regular | LinkOrSpecial | Directory(children: seq<Child>)

  datatype Child = Child(name: string, node: Node)

  datatype WalkError = NotARealDirectory | NotARegularFile

  // A file name is non-empty and holds no separator; names in one directory differ.
  ghost predicate WellNamed(children: seq<Child>) {
    && (forall i :: 0 <= i < |children| ==> children[i].name != "" && '/' !in children[i].name)
    && (forall i, j :: 0 <= i < j < |children| ==> children[i].name != children[j].name)
    && (forall i :: 0 <= i < |children| && children[i].node.Directory? ==> WellNamed(children[i].node.children))
  }

  // Paths of all physical leaves.
  ghost function Leaves(children: seq<Child>, prefix: string): set<string> {
    if children == [] then {}
    else LeavesOf(children[0], prefix) + Leaves(children[1..], prefix)
  }

  ghost function LeavesOf(child: Child, prefix: string): set<string> {
    if child.node.Directory? then Leaves(child.node.children, prefix + child.name + "/") else {prefix + child.name}
  }

  // ---------- The recursive walk as a function ----------

  function ExcludedDirs(source: bool): set<string> {
    if source then DEPENDENCY_DIRS + OUTPUT_DIRS else {}
  }

  function Walk(children: seq<Child>, prefix: string, source: bool): Result<seq<string>, WalkError> {
    if children == [] then Ok([])
    else
      var first := WalkChild(children[0], prefix, source);
      if first.Err? then first
      else
        var rest := Walk(children[1..], prefix, source);
        if rest.Err? then rest else Ok(first.value + rest.value)
  }

  function WalkChild(child: Child, prefix: string, source: bool): Result<seq<string>, WalkError> {
    var path := prefix + child.name;
    if source && path == ".git" then Ok([])
    else if path in ExcludedDirs(source) then
      if child.node.Directory? then Ok([]) else Err(NotARealDirectory)
    else if source && path in OUTPUT_FILES then
      if child.node.Regular? then Ok([]) else Err(NotARegularFile)
    else if child.node.Directory? then Walk(child.node.children, path + "/", source)
    else Ok([path])
  }

  // ---------- Prefix reasoning ----------

  ghost predicate Base(path: string) {
    path == ".git" || path in DEPENDENCY_DIRS + OUTPUT_DIRS
  }

  // The directory being walked is not inside an excluded one.
  ghost predicate Clean(prefix: string) {
    forall base :: Base(base) ==> !StartsWith(prefix, base + "/")
  }

  lemma ExcludedIsUnderBase(path: string)
    ensures Excluded(path) <==> path in OUTPUT_FILES || exists base :: Base(base) && Under(path, base)
  {
    assert Base(".git") && ".git" + "/" == ".git/";
    if Excluded(path) && path !in OUTPUT_FILES {
      if path == ".git" || StartsWith(path, ".git/") {
        assert Under(path, ".git");
      }
    }
  }

  // A separator-terminated prefix of prefix + name lies within prefix.
  lemma SlashStaysInPrefix(prefix: string, name: string, base: string)
    requires '/' !in name
    ensures StartsWith(prefix + name, base + "/") ==> StartsWith(prefix, base + "/")
    ensures StartsWith(prefix + name + "/", base + "/") ==> StartsWith(prefix, base + "/") || base == prefix + name
  {
    var path := prefix + name;
    assert forall k :: |prefix| <= k < |path| ==> (path + "/")[k] == name[k - |prefix|];
    if StartsWith(path + "/", base + "/") {
      assert (path + "/")[|base|] == (base + "/")[|base|] == '/';
      if |prefix| <= |base| < |path| {
        assert false;
      }
      if |base| >= |path| {
        assert base == (path + "/")[..|base|] == path;
      } else {
        assert (base + "/") == (path + "/")[..|base| + 1] == prefix[..|base| + 1];
      }
    }
    if StartsWith(path, base + "/") {
      assert (path + "/")[..|base| + 1] == path[..|base| + 1] == base + "/";
      assert |base| + 1 <= |path|;
    }
  }

  lemma CleanDescends(prefix: string, name: string)
    requires Clean(prefix) && '/' !in name && !Base(prefix + name)
    ensures Clean(prefix + name + "/")
  {
    forall base | Base(base) ensures !StartsWith(prefix + name + "/", base + "/") {
      SlashStaysInPrefix(prefix, name, base);
    }
  }

  lemma LeafExcluded(prefix: string, name: string)
    requires Clean(prefix) && '/' !in name
    ensures Excluded(prefix + name) <==> prefix + name in OUTPUT_FILES || Base(prefix + name)
  {
    ExcludedIsUnderBase(prefix + name);
    forall base | Base(base) ensures !StartsWith(prefix + name, base + "/") {
      SlashStaysInPrefix(prefix, name, base);
    }
    if Base(prefix + name) {
      assert Under(prefix + name, prefix + name);
    }
  }

  // ---------- Leaves of one child, and of different children ----------

  lemma {:induction false} LeavesStartWith(children: seq<Child>, prefix: string, p: string)
    requires p in Leaves(children, prefix)
    ensures StartsWith(p, prefix)
    decreases children
  {
    if p in LeavesOf(children[0], prefix) {
      if children[0].node.Directory? {
        LeavesStartWith(children[0].node.children, prefix + children[0].name + "/", p);
        assert prefix <= prefix + children[0].name + "/";
      }
    } else {
      LeavesStartWith(children[1..], prefix, p);
    }
  }

  // The component of a path after its first k characters.
  ghost function Component(path: string, k: nat): string
    requires k <= |path|
    decreases |path| - k
  {
    if k == |path| || path[k] == '/' then "" else [path[k]] + Component(path, k + 1)
  }

  lemma {:induction false} ComponentOf(prefix: string, name: string, rest: string)
    requires '/' !in name && (rest == "" || rest[0] == '/')
    ensures Component(prefix + name + rest, |prefix|) == name
    decreases |name|
  {
    if name != "" {
      ComponentOf(prefix + [name[0]], name[1..], rest);
      assert prefix + name + rest == prefix + [name[0]] + name[1..] + rest;
      assert name[0] in name;
    }
  }

  lemma LeafComponent(child: Child, prefix: string, p: string)
    requires p in LeavesOf(child, prefix) && '/' !in child.name
    ensures StartsWith(p, prefix) && Component(p, |prefix|) == child.name
  {
    if child.node.Directory? {
      var base := prefix + child.name;
      LeavesStartWith(child.node.children, base + "/", p);
      assert p == prefix + child.name + p[|base|..];
      assert p[|base|] == (base + "/")[|base|];
      ComponentOf(prefix, child.name, p[|base|..]);
    } else {
      assert p == prefix + child.name + "";
      ComponentOf(prefix, child.name, "");
    }
  }

  lemma {:induction false} LeavesHaveChild(children: seq<Child>, prefix: string, p: string)
    requires p in Leaves(children, prefix)
    ensures exists i :: 0 <= i < |children| && p in LeavesOf(children[i], prefix)
    decreases |children|
  {
    if p !in LeavesOf(children[0], prefix) {
      LeavesHaveChild(children[1..], prefix, p);
      var i :| 0 <= i < |children[1..]| && p in LeavesOf(children[1..][i], prefix);
      assert children[i + 1] == children[1..][i];
    }
  }

  lemma SiblingsAreDisjoint(children: seq<Child>, prefix: string, p: string)
    requires WellNamed(children) && children != []
    requires p in LeavesOf(children[0], prefix)
    ensures p !in Leaves(children[1..], prefix)
  {
    if p in Leaves(children[1..], prefix) {
      LeavesHaveChild(children[1..], prefix, p);
      var i :| 0 <= i < |children[1..]| && p in LeavesOf(children[1..][i], prefix);
      assert children[1..][i] == children[i + 1];
      LeafComponent(children[0], prefix, p);
      LeafComponent(children[i + 1], prefix, p);
      assert false;
    }
  }

  // ---------- The two rules agree ----------

  ghost predicate Lists(paths: seq<string>, wanted: iset<string>) {
    NoDuplicates(paths) && forall p :: p in paths <==> p in wanted
  }

  ghost function Wanted(leaves: set<string>, source: bool): iset<string> {
    iset p | p in leaves && (source ==> !Excluded(p))
  }

  lemma AllUnderBaseExcluded(child: Child, prefix: string, p: string)
    requires p in LeavesOf(child, prefix) && Base(prefix + child.name)
    ensures Excluded(p)
  {
    if child.node.Directory? {
      LeavesStartWith(child.node.children, prefix + child.name + "/", p);
    }
    assert Under(p, prefix + child.name);
    ExcludedIsUnderBase(p);
  }

  lemma {:induction false} ChildListsWanted(child: Child, prefix: string, source: bool)
    requires '/' !in child.name && (source ==> Clean(prefix))
    requires child.node.Directory? ==> WellNamed(child.node.children)
    requires WalkChild(child, prefix, source).Ok?
    ensures Lists(WalkChild(child, prefix, source).value, Wanted(LeavesOf(child, prefix), source))
    decreases child, 0
  {
    var path := prefix + child.name;
    if source && Base(path) {
      forall p | p in LeavesOf(child, prefix) ensures Excluded(p) {
        AllUnderBaseExcluded(child, prefix, p);
      }
    } else if source && path in OUTPUT_FILES {
      LeafExcluded(prefix, child.name);
    } else if child.node.Directory? {
      if source {
        CleanDescends(prefix, child.name);
      }
      WalkListsWanted(child.node.children, path + "/", source);
    } else if source {
      LeafExcluded(prefix, child.name);
    }
  }

  // The walk yields, without repetition, exactly the leaves whose path fails the exclusion predicate.
  lemma {:induction false} WalkListsWanted(children: seq<Child>, prefix: string, source: bool)
    requires WellNamed(children) && (source ==> Clean(prefix))
    requires Walk(children, prefix, source).Ok?
    ensures Lists(Walk(children, prefix, source).value, Wanted(Leaves(children, prefix), source))
    decreases children, 1
  {
    if children == [] {
    } else {
      var first, rest := WalkChild(children[0], prefix, source).value, Walk(children[1..], prefix, source).value;
      ChildListsWanted(children[0], prefix, source);
      WalkListsWanted(children[1..], prefix, source);
      forall p | p in first ensures p !in rest {
        SiblingsAreDisjoint(children, prefix, p);
      }
      AppendLists(first, rest,
        Wanted(LeavesOf(children[0], prefix), source), Wanted(Leaves(children[1..], prefix), source));
      assert Wanted(Leaves(children, prefix), source) ==
        Wanted(LeavesOf(children[0], prefix), source) + Wanted(Leaves(children[1..], prefix), source);
    }
  }

  lemma AppendLists(a: seq<string>, b: seq<string>, wantedA: iset<string>, wantedB: iset<string>)
    requires Lists(a, wantedA) && Lists(b, wantedB) && forall p :: p in a ==> p !in b
    ensures Lists(a + b, wantedA + wantedB)
  {
    forall i, j | 0 <= i < j < |a + b| ensures (a + b)[i] != (a + b)[j] {
      if i < |a| <= j {
        assert a[i] in a && b[j - |a|] in b;
      }
    }
  }

  // ---------- When the walk raises ----------

  // Every entry below a directory, with its path.
  ghost function Entries(children: seq<Child>, prefix: string): set<(string, Node)> {
    if children == [] then {} else EntriesOf(children[0], prefix) + Entries(children[1..], prefix)
  }

  ghost function EntriesOf(child: Child, prefix: string): set<(string, Node)> {
    {(prefix + child.name, child.node)}
    + if child.node.Directory? then Entries(child.node.children, prefix + child.name + "/") else {}
  }

  // An entry that stands where only a directory, or only a regular file, may be left out.
  predicate Misplaced(path: string, node: Node, error: WalkError) {
    || (path in {"node_modules", "frontend/node_modules", ".pythonlibs", "frontend/dist"}
        && !node.Directory? && error == NotARealDirectory)
    || (path in {"frontend/tsconfig.tsbuildinfo", "backend/.build-provenance.json",
                 "backend/.build-provenance.json.tmp"}
        && !node.Regular? && error == NotARegularFile)
  }

  ghost predicate AnyMisplaced(entries: set<(string, Node)>, error: WalkError) {
    exists entry :: entry in entries && Misplaced(entry.0, entry.1, error)
  }

  lemma {:induction false} EntriesStartWith(children: seq<Child>, prefix: string, entry: (string, Node))
    requires entry in Entries(children, prefix)
    ensures StartsWith(entry.0, prefix)
    decreases children
  {
    if entry in EntriesOf(children[0], prefix) {
      if entry != (prefix + children[0].name, children[0].node) {
        EntriesStartWith(children[0].node.children, prefix + children[0].name + "/", entry);
        assert prefix <= prefix + children[0].name + "/";
      }
    } else {
      EntriesStartWith(children[1..], prefix, entry);
    }
  }

  // None of these places lies inside another.
  lemma MisplacedIsNotBelow(path: string, node: Node, error: WalkError, base: string)
    requires Misplaced(path, node, error) && Base(base)
    ensures !StartsWith(path, base + "/")
  {
    StartsBelow(path, base);
    assert |path| > 12 ==> path[0] == 'f' || path[0] == 'b';
    assert |path| > 13 ==> path[0] == 'b' || path[9] == 'n' || path[9] == 't';
    assert |path| > 21 ==> path[0] == 'b' || path[9] == 't';
  }

  lemma SkippedHoldsNone(child: Child, prefix: string, error: WalkError)
    requires child.node.Directory? && Base(prefix + child.name)
    ensures !AnyMisplaced(Entries(child.node.children, prefix + child.name + "/"), error)
  {
    var below := prefix + child.name + "/";
    if entry :| entry in Entries(child.node.children, below) && Misplaced(entry.0, entry.1, error) {
      EntriesStartWith(child.node.children, below, entry);
      MisplacedIsNotBelow(entry.0, entry.1, error, prefix + child.name);
    }
  }

  predicate RaisesNoOther(r: Result<seq<string>, WalkError>, noDirectory: bool, noFile: bool) {
    && (r.Ok? <==> !noDirectory && !noFile)
    && (r.Err? ==> (r.error == NotARealDirectory && noDirectory) || (r.error == NotARegularFile && noFile))
  }

  ghost predicate RaisesFor(r: Result<seq<string>, WalkError>, entries: set<(string, Node)>) {
    RaisesNoOther(r, AnyMisplaced(entries, NotARealDirectory), AnyMisplaced(entries, NotARegularFile))
  }

  lemma EntriesAtAndBelow(child: Child, prefix: string, error: WalkError)
    ensures AnyMisplaced(EntriesOf(child, prefix), error) <==>
      || Misplaced(prefix + child.name, child.node, error)
      || (child.node.Directory? && AnyMisplaced(Entries(child.node.children, prefix + child.name + "/"), error))
  {
    assert (prefix + child.name, child.node) in EntriesOf(child, prefix);
    if child.node.Directory? && AnyMisplaced(Entries(child.node.children, prefix + child.name + "/"), error) {
      var entry :|
        entry in Entries(child.node.children, prefix + child.name + "/") && Misplaced(entry.0, entry.1, error);
      assert entry in EntriesOf(child, prefix);
    }
  }

  lemma FirstAndRest(children: seq<Child>, prefix: string, error: WalkError)
    requires children != []
    ensures AnyMisplaced(Entries(children, prefix), error) <==>
      AnyMisplaced(EntriesOf(children[0], prefix), error) || AnyMisplaced(Entries(children[1..], prefix), error)
  {
    forall entry ensures entry in Entries(children, prefix) <==>
      entry in EntriesOf(children[0], prefix) || entry in Entries(children[1..], prefix) {
    }
  }

  lemma {:induction false} ChildRaisesExactly(child: Child, prefix: string)
    ensures RaisesFor(WalkChild(child, prefix, true), EntriesOf(child, prefix))
    decreases child, 0
  {
    var path := prefix + child.name;
    EntriesAtAndBelow(child, prefix, NotARealDirectory);
    EntriesAtAndBelow(child, prefix, NotARegularFile);
    if Base(path) {
      if child.node.Directory? {
        SkippedHoldsNone(child, prefix, NotARealDirectory);
        SkippedHoldsNone(child, prefix, NotARegularFile);
      }
    } else if child.node.Directory? && path !in OUTPUT_FILES {
      WalkRaisesExactly(child.node.children, path + "/");
    }
  }

  // The walk of the source raises exactly when some entry is misplaced, and then with the error of such an entry.
  lemma {:induction false} WalkRaisesExactly(children: seq<Child>, prefix: string)
    ensures RaisesFor(Walk(children, prefix, true), Entries(children, prefix))
    decreases children, 1
  {
    if children != [] {
      ChildRaisesExactly(children[0], prefix);
      WalkRaisesExactly(children[1..], prefix);
      FirstAndRest(children, prefix, NotARealDirectory);
      FirstAndRest(children, prefix, NotARegularFile);
    }
  }

  // The walk of a build's output never raises.
  lemma {:induction false} OutputWalkNeverRaises(children: seq<Child>, prefix: string)
    ensures Walk(children, prefix, false).Ok?
    decreases children
  {
    if children != [] {
      if children[0].node.Directory? {
        OutputWalkNeverRaises(children[0].node.children, prefix + children[0].name + "/");
      }
      OutputWalkNeverRaises(children[1..], prefix);
    }
  }

  // ---------- Sorting ----------

  function ByCodePoints(): (string, string) -> bool {
    (a, b) => Compare(a, b) <= 0
  }

  lemma CodePointsArePreorder()
    ensures TotalPreorder(ByCodePoints())
  {
    forall a, b ensures ByCodePoints()(a, b) || ByCodePoints()(b, a) {
      CompareFlips(a, b);
    }
    forall a, b, c | ByCodePoints()(a, b) && ByCodePoints()(b, c) ensures ByCodePoints()(a, c) {
      CompareTransitive(a, b, c);
    }
  }

  // ---------- The source's own form: a nested function appending to a list ----------

  class Inventory {
    var result: seq<string>

    constructor ()
      ensures result == []
    {
      result := [];
    }

    method Visit(children: seq<Child>, prefix: string, source: bool) returns (error: Option<WalkError>)
      modifies this
      ensures error.None? <==> Walk(children, prefix, source).Ok?
      ensures error.None? ==> result == old(result) + Walk(children, prefix, source).value
      ensures error.Some? ==> Walk(children, prefix, source) == Err(error.value)
      decreases children
    {
      if children == [] { return None; }
      var child := children[0];
      var path := prefix + child.name;
      if source && path == ".git" {
      } else if path in ExcludedDirs(source) {
        if !child.node.Directory? { return Some(NotARealDirectory); }
      } else if source && path in OUTPUT_FILES {
        if !child.node.Regular? { return Some(NotARegularFile); }
      } else if child.node.Directory? {
        error := Visit(child.node.children, path + "/", source);
        if error.Some? { return; }
      } else {
        result := result + [path];
      }
      error := Visit(children[1..], prefix, source);
    }
  }

  // files(root, source=...): whenever the walk does not raise, the sorted list of exactly the wanted leaves.
  method Files(root: seq<Child>, source: bool) returns (r: Result<seq<string>, WalkError>)
    requires WellNamed(root)
    ensures r.Ok? <==> Walk(root, "", source).Ok?
    ensures r.Err? ==> Walk(root, "", source) == Err(r.error)
    ensures r.Ok? ==> Sorted(r.value, ByCodePoints()) && Lists(r.value, Wanted(Leaves(root, ""), source))
  {
    var inventory := new Inventory();
    var error := inventory.Visit(root, "", source);
    if error.Some? { return Err(error.value); }
    WalkListsWanted(root, "", source);
    CodePointsArePreorder();
    var sorted := Sort(inventory.result, ByCodePoints());
    RearrangementKeepsItems(inventory.result, sorted);
    r := Ok(sorted);
  }

  // ---------- Tracked paths ----------

  function Parts(path: string): (parts: seq<string>)
    ensures |parts| > 0
  {
    if path == "" then [""]
    else if path[0] == '/' then [""] + Parts(path[1..])
    else var rest := Parts(path[1..]); [[path[0]] + rest[0]] + rest[1..]
  }

  // The path rules of tree_entries for a blob.
  predicate TrackedPathAllowed(path: string) {
    && !StartsWith(path, "/")
    && (forall part | part in Parts(path) :: part !in {"", ".", "..", ".git"})
    && !(exists base | base in DEPENDENCY_DIRS + OUTPUT_DIRS :: Under(path, base))
    && path !in OUTPUT_FILES
  }

  lemma FirstPart(path: string)
    requires path == ".git" || StartsWith(path, ".git/")
    ensures Parts(path)[0] == ".git"
  {
    var a, b, c, d := path[1..], path[2..], path[3..], path[4..];
    assert path[0] == '.' && path[1] == 'g' && path[2] == 'i' && path[3] == 't';
    assert a[1..] == b && b[1..] == c && c[1..] == d;
    assert Parts(d)[0] == "" by {
      assert d == "" || d[0] == path[4] == '/';
    }
    assert Parts(c)[0] == "t" && Parts(b)[0] == "it" && Parts(a)[0] == "git";
  }

  // No path that the tree rules admit is ever hidden by the exclusion rule.
  lemma TrackedPathsAreVisible(path: string)
    requires TrackedPathAllowed(path)
    ensures !Excluded(path)
  {
    if path == ".git" || StartsWith(path, ".git/") {
      FirstPart(path);
      assert Parts(path)[0] in Parts(path);
      assert false;
    }
  }

  function Joined(parts: seq<string>): string {
    if |parts| == 0 then "" else if |parts| == 1 then parts[0] else parts[0] + "/" + Joined(parts[1..])
  }

  // split("/"): no part holds a separator, and joined with separators the parts are the path.
  lemma {:induction false} PartsAreSplit(path: string)
    ensures Joined(Parts(path)) == path
    ensures forall i :: 0 <= i < |Parts(path)| ==> '/' !in Parts(path)[i]
  {
    if path != "" {
      PartsAreSplit(path[1..]);
      var rest := Parts(path[1..]);
      if path[0] == '/' {
        assert ([""] + rest)[1..] == rest;
        assert path == "" + "/" + path[1..];
      } else {
        var first := [path[0]] + rest[0];
        assert ([first] + rest[1..])[1..] == rest[1..];
        assert path == [path[0]] + path[1..];
        if |rest| > 1 {
          assert first + "/" + Joined(rest[1..]) == [path[0]] + (rest[0] + "/" + Joined(rest[1..]));
        }
      }
    }
  }

  // A blob's path is admitted exactly when it is visible and none of its parts is empty, ".", ".." or ".git".
  lemma AdmittedIffVisibleAndPlain(path: string)
    ensures TrackedPathAllowed(path) <==>
      && !Excluded(path)
      && forall i :: 0 <= i < |Parts(path)| ==>
        Parts(path)[i] != "" && Parts(path)[i] != "." && Parts(path)[i] != ".." && Parts(path)[i] != ".git"
  {
    if TrackedPathAllowed(path) {
      TrackedPathsAreVisible(path);
      forall i | 0 <= i < |Parts(path)| ensures Parts(path)[i] !in {"", ".", "..", ".git"} {
        assert Parts(path)[i] in Parts(path);
      }
    } else if path != "" && path[0] == '/' {
      assert Parts(path)[0] == "";
    } else if part :| part in Parts(path) && part in {"", ".", "..", ".git"} {
      var i :| 0 <= i < |Parts(path)| && Parts(path)[i] == part;
      assert part == "" || part == "." || part == ".." || part == ".git";
      assert Parts(path)[i] == "" || Parts(path)[i] == "." || Parts(path)[i] == ".." || Parts(path)[i] == ".git";
    }
  }
}
