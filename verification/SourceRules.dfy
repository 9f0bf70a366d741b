// Exclusion rules shared by scripts/release_source_guard.py and scripts/release_source_watch.py.
module SourceRules {
  const DEPENDENCY_DIRS := {"node_modules", "frontend/node_modules", ".pythonlibs"}

  const OUTPUT_DIRS := {"frontend/dist"}

  const OUTPUT_FILES := {
    "frontend/tsconfig.tsbuildinfo", "backend/.build-provenance.json", "backend/.build-provenance.json.tmp"}

  predicate StartsWith(text: string, prefix: string) {
    prefix <= text
  }

  predicate Under(path: string, base: string) {
    path == base || StartsWith(path, base + "/")
  }

  predicate Excluded(path: string) {
    || path == ".git" || StartsWith(path, ".git/")
    || path in OUTPUT_FILES
    || exists base | base in DEPENDENCY_DIRS + OUTPUT_DIRS :: Under(path, base)
  }

  predicate AtOrBelow(path: string, place: string) {
    path == place || (|path| > |place| && path[..|place|] == place && path[|place|] == '/')
  }

  // Nothing but five places with all below them, and three files.
  lemma ExcludedPlaces(path: string)
    ensures Excluded(path) <==>
      || AtOrBelow(path, ".git") || AtOrBelow(path, "node_modules") || AtOrBelow(path, "frontend/node_modules")
      || AtOrBelow(path, ".pythonlibs") || AtOrBelow(path, "frontend/dist")
      || path == "frontend/tsconfig.tsbuildinfo"
      || path == "backend/.build-provenance.json" || path == "backend/.build-provenance.json.tmp"
  {
    assert ".git/" == ".git" + "/";
    StartsBelow(path, ".git");
    forall base | base in DEPENDENCY_DIRS + OUTPUT_DIRS ensures Under(path, base) <==> AtOrBelow(path, base) {
      StartsBelow(path, base);
    }
  }

  lemma StartsBelow(path: string, place: string)
    ensures StartsWith(path, place + "/") <==> |path| > |place| && path[..|place|] == place && path[|place|] == '/'
  {
    if |path| > |place| && path[..|place|] == place && path[|place|] == '/' {
      assert path[..|place| + 1] == place + "/";
    }
    if StartsWith(path, place + "/") {
      assert path[..|place|] == (place + "/")[..|place|] == place && path[|place|] == (place + "/")[|place|];
    }
  }
}
