// The greedy word wrap of backend/app/services/creative_rendering.py.
module TextWrap {
  import opened Basics
  import opened Wrappers

  type Word = string

  // The normalised text is a sequence of words, none of them empty.
  ghost predicate Normalised(words: seq<Word>) {
    forall i :: 0 <= i < |words| ==> words[i] != ""
  }

  datatype WrapError = CannotFit | UnrenderableWord | Overflows

  // The rendered width of a string in a fixed font.
  type Measure = string -> int

  ghost function Join(words: seq<string>): string {
    if |words| == 0 then ""
    else if |words| == 1 then words[0]
    else Join(words[..|words| - 1]) + " " + words[|words| - 1]
  }

  ghost predicate Fits(width: Measure, maxWidth: int, words: seq<Word>, i: int, j: int)
    requires 0 <= i <= j <= |words|
  {
    width(Join(words[i..j])) <= maxWidth
  }

  ghost predicate WordFits(width: Measure, maxWidth: int, words: seq<Word>, i: int)
    requires 0 <= i < |words|
  {
    Fits(width, maxWidth, words, i, i + 1)
  }

  // A part of a phrase is never wider than the phrase.
  ghost predicate Monotone(width: Measure, words: seq<Word>) {
    forall i, a, b, j :: 0 <= i <= a < b <= j <= |words| ==> width(Join(words[a..b])) <= width(Join(words[i..j]))
  }

  // Cut positions of a wrap of the first words: every piece between two cuts fits.
  ghost predicate Wrap(width: Measure, maxWidth: int, words: seq<Word>, cuts: seq<nat>) {
    && Increasing(words, cuts) && cuts[0] == 0
    && (forall k, m :: 0 <= k < m < |cuts| && m == k + 1 ==> Fits(width, maxWidth, words, cuts[k], cuts[m]))
  }

  ghost predicate FullWrap(width: Measure, maxWidth: int, words: seq<Word>, cuts: seq<nat>) {
    Wrap(width, maxWidth, words, cuts) && cuts[|cuts| - 1] == |words|
  }

  ghost predicate Increasing(words: seq<Word>, cuts: seq<nat>) {
    && |cuts| > 0
    && (forall k :: 0 <= k < |cuts| ==> cuts[k] <= |words|)
    && (forall k, m :: 0 <= k < m < |cuts| ==> cuts[k] < cuts[m])
  }

  ghost function Lines(words: seq<Word>, cuts: seq<nat>): (lines: seq<string>)
    requires Increasing(words, cuts)
    ensures |lines| == |cuts| - 1
  {
    if |cuts| == 1 then []
    else Lines(words, cuts[..|cuts| - 1]) + [Join(words[cuts[|cuts| - 2]..cuts[|cuts| - 1]])]
  }

  lemma ExtendIncreasing(words: seq<Word>, cuts: seq<nat>, j: nat)
    requires Increasing(words, cuts) && cuts[|cuts| - 1] < j <= |words|
    ensures Increasing(words, cuts + [j])
  {
    forall k, m | 0 <= k < m < |cuts + [j]| ensures (cuts + [j])[k] < (cuts + [j])[m] {
      assert k < |cuts| - 1 ==> cuts[k] < cuts[|cuts| - 1];
    }
  }

  lemma ExtendLines(words: seq<Word>, cuts: seq<nat>, longer: seq<nat>, j: nat)
    requires Increasing(words, cuts) && cuts[|cuts| - 1] < j <= |words|
    requires longer == cuts + [j] && Increasing(words, longer)
    ensures Lines(words, longer) == Lines(words, cuts) + [Join(words[cuts[|cuts| - 1]..j])]
  {
    assert longer[..|longer| - 1] == cuts;
  }

  lemma ExtendFits(width: Measure, maxWidth: int, words: seq<Word>, cuts: seq<nat>, j: nat, longer: seq<nat>)
    requires Wrap(width, maxWidth, words, cuts) && longer == cuts + [j] && Increasing(words, longer)
    requires cuts[|cuts| - 1] < j <= |words| && Fits(width, maxWidth, words, cuts[|cuts| - 1], j)
    ensures forall k, m :: 0 <= k < m < |longer| && m == k + 1 ==> Fits(width, maxWidth, words, longer[k], longer[m])
  {
    forall k, m | 0 <= k < m < |longer| && m == k + 1 ensures Fits(width, maxWidth, words, longer[k], longer[m]) {
      if m < |cuts| {
        assert longer[k] == cuts[k] && longer[m] == cuts[m];
      }
    }
  }

  lemma ExtendWrap(width: Measure, maxWidth: int, words: seq<Word>, cuts: seq<nat>, j: nat)
    requires Wrap(width, maxWidth, words, cuts)
    requires cuts[|cuts| - 1] < j <= |words| && Fits(width, maxWidth, words, cuts[|cuts| - 1], j)
    ensures Wrap(width, maxWidth, words, cuts + [j])
    ensures Lines(words, cuts + [j]) == Lines(words, cuts) + [Join(words[cuts[|cuts| - 1]..j])]
  {
    ExtendIncreasing(words, cuts, j);
    ExtendLines(words, cuts, cuts + [j], j);
    ExtendFits(width, maxWidth, words, cuts, j, cuts + [j]);
  }

  ghost predicate CanWrap(width: Measure, maxWidth: int, words: seq<Word>, maxLines: int) {
    exists cuts :: FullWrap(width, maxWidth, words, cuts) && |cuts| - 1 <= maxLines
  }

  // ---------- Greedy stays ahead ----------

  // No wrap with the same number of lines as the finished ones reaches past the words they hold.
  ghost predicate Ahead(width: Measure, maxWidth: int, words: seq<Word>, finished: int, start: int) {
    forall cuts :: Wrap(width, maxWidth, words, cuts) && cuts[|cuts| - 1] > start ==> |cuts| - 1 > finished
  }

  lemma AheadAfterBreak(width: Measure, maxWidth: int, words: seq<Word>, finished: int, start: int, next: int)
    requires Monotone(width, words)
    requires Ahead(width, maxWidth, words, finished, start)
    requires 0 <= start < next < |words| && !Fits(width, maxWidth, words, start, next + 1)
    ensures Ahead(width, maxWidth, words, finished + 1, next)
  {
    forall cuts | Wrap(width, maxWidth, words, cuts) && cuts[|cuts| - 1] > next
      ensures |cuts| - 1 > finished + 1
    {
      var front := cuts[..|cuts| - 1];
      assert Wrap(width, maxWidth, words, front);
      assert |cuts| > 1 && Fits(width, maxWidth, words, cuts[|cuts| - 2], cuts[|cuts| - 1]);
      if front[|front| - 1] <= start {
        assert false;
      }
    }
  }

  // A word that does not fit stops every wrap at or before it.
  lemma {:induction false} WideWordBlocks(width: Measure, maxWidth: int, words: seq<Word>, i: int, cuts: seq<nat>)
    requires Monotone(width, words)
    requires 0 <= i < |words| && !Fits(width, maxWidth, words, i, i + 1)
    requires Wrap(width, maxWidth, words, cuts)
    ensures cuts[|cuts| - 1] <= i
    decreases |cuts|
  {
    if |cuts| > 1 {
      var front := cuts[..|cuts| - 1];
      assert Wrap(width, maxWidth, words, front);
      WideWordBlocks(width, maxWidth, words, i, front);
      assert Fits(width, maxWidth, words, cuts[|cuts| - 2], cuts[|cuts| - 1]);
    }
  }

  // ---------- Joining ----------

  lemma JoinNonempty(words: seq<Word>)
    requires words != [] && Normalised(words)
    ensures Join(words) != ""
  {
    if |words| == 1 {
      assert words[0] != "";
    } else {
      assert |Join(words)| >= 1;
    }
  }

  lemma {:induction false} JoinSplits(a: seq<string>, b: seq<string>)
    requires a != [] && b != []
    ensures Join(a + b) == Join(a) + " " + Join(b)
  {
    var front := b[..|b| - 1];
    if front == [] {
      assert (a + b)[..|a + b| - 1] == a;
    } else {
      JoinSplits(a, front);
      assert (a + b)[..|a + b| - 1] == a + front;
    }
  }

  lemma JoinAppends(words: seq<string>, word: string)
    ensures Join(words + [word]) == if words == [] then word else Join(words) + " " + word
  {
    assert (words + [word])[..|words|] == words;
  }

  // Extending the current line by one word, as the loop does.
  lemma CandidateIsJoin(words: seq<Word>, start: int, i: int)
    requires 0 <= start <= i < |words| && Normalised(words)
    ensures Join(words[start..i]) == "" <==> start == i
    ensures Join(words[start..i + 1]) ==
      if start == i then words[i] else Join(words[start..i]) + " " + words[i]
  {
    var line := words[start..i];
    assert words[start..i + 1] == line + [words[i]];
    JoinAppends(line, words[i]);
    if start < i {
      JoinNonempty(line);
    }
  }

  // The lines of a full wrap join back to the normalised text.
  lemma {:induction false} LinesRejoin(words: seq<Word>, cuts: seq<nat>)
    requires |cuts| > 1 && Increasing(words, cuts) && cuts[0] == 0
    ensures Join(Lines(words, cuts)) == Join(words[..cuts[|cuts| - 1]])
    decreases |cuts|
  {
    var end := cuts[|cuts| - 1];
    var front := cuts[..|cuts| - 1];
    var mid := front[|front| - 1];
    if |cuts| > 2 {
      LinesRejoin(words, front);
      assert words[..end] == words[..mid] + words[mid..end];
      JoinSplits(Lines(words, front), [Join(words[mid..end])]);
      JoinSplits(words[..mid], words[mid..end]);
    } else {
      assert Lines(words, cuts) == [Join(words[..end])];
    }
  }

  // ---------- The loop of the source ----------

  ghost predicate Succeeds(width: Measure, words: seq<Word>, maxWidth: int, maxLines: int) {
    if words == [] then width("") <= maxWidth && maxLines >= 0 else CanWrap(width, maxWidth, words, maxLines)
  }

  // A line break that the line budget forbids, or a first word that is too wide: no wrap exists.
  lemma BreakForbidden(
    width: Measure, maxWidth: int, words: seq<Word>, finished: int, start: int, i: int, maxLines: int)
    requires Monotone(width, words) && Ahead(width, maxWidth, words, finished, start)
    requires 0 <= start <= i < |words| && !Fits(width, maxWidth, words, start, i + 1)
    requires start == i || finished >= maxLines - 1
    ensures !CanWrap(width, maxWidth, words, maxLines)
    ensures !FullWrap(width, maxWidth, words, [0, |words|])
    ensures start == i ==> !WordFits(width, maxWidth, words, i)
  {
    if cuts :| FullWrap(width, maxWidth, words, cuts) && |cuts| - 1 <= maxLines {
      if start == i {
        WideWordBlocks(width, maxWidth, words, i, cuts);
      } else {
        AheadAfterBreak(width, maxWidth, words, finished, start, i);
      }
    }
    assert width(Join(words[start..i + 1])) <= width(Join(words[0..|words|]));
  }

  // What success means: a wrap within the budget, lines that re-join to the text, none fewer possible.
  ghost predicate BestWrap(
    width: Measure, words: seq<Word>, maxWidth: int, maxLines: int, cuts: seq<nat>, lines: seq<string>)
  {
    && FullWrap(width, maxWidth, words, cuts) && lines == Lines(words, cuts) && |lines| <= maxLines
    && Join(lines) == Join(words)
    && forall other :: FullWrap(width, maxWidth, words, other) ==> |lines| <= |other| - 1
  }

  // After `i` words: `out` holds the finished lines, `current` the words since the last cut.
  ghost predicate LoopState(
    width: Measure, words: seq<Word>, maxWidth: int, maxLines: int,
    i: int, out: seq<string>, current: string, cuts: seq<nat>)
  {
    && 0 <= i <= |words| && Normalised(words) && Monotone(width, words)
    && Wrap(width, maxWidth, words, cuts) && out == Lines(words, cuts)
    && |out| <= Max(0, maxLines - 1)
    && cuts[|cuts| - 1] <= i && current == Join(words[cuts[|cuts| - 1]..i])
    && (i == 0 || (cuts[|cuts| - 1] < i && Fits(width, maxWidth, words, cuts[|cuts| - 1], i)))
    && Ahead(width, maxWidth, words, |out|, cuts[|cuts| - 1])
  }

  function Candidate(current: string, word: Word): string {
    if current == "" then word else current + " " + word
  }

  lemma LoopExtends(
    width: Measure, words: seq<Word>, maxWidth: int, maxLines: int,
    i: int, out: seq<string>, current: string, cuts: seq<nat>)
    requires i < |words| && LoopState(width, words, maxWidth, maxLines, i, out, current, cuts)
    ensures Candidate(current, words[i]) == Join(words[cuts[|cuts| - 1]..i + 1])
    ensures current == "" <==> cuts[|cuts| - 1] == i
    ensures width(Candidate(current, words[i])) <= maxWidth ==>
      LoopState(width, words, maxWidth, maxLines, i + 1, out, Candidate(current, words[i]), cuts)
  {
    CandidateIsJoin(words, cuts[|cuts| - 1], i);
  }

  lemma LoopBreaks(
    width: Measure, words: seq<Word>, maxWidth: int, maxLines: int,
    i: int, out: seq<string>, current: string, cuts: seq<nat>)
    requires i < |words| && LoopState(width, words, maxWidth, maxLines, i, out, current, cuts)
    requires width(Candidate(current, words[i])) > maxWidth && current != "" && |out| < maxLines - 1
    ensures width(words[i]) <= maxWidth ==>
      LoopState(width, words, maxWidth, maxLines, i + 1, out + [current], words[i], cuts + [i])
    ensures width(words[i]) > maxWidth ==>
      !WordFits(width, maxWidth, words, i) && !CanWrap(width, maxWidth, words, maxLines) && maxLines > 0
  {
    LoopExtends(width, words, maxWidth, maxLines, i, out, current, cuts);
    CandidateIsJoin(words, i, i);
    AheadAfterBreak(width, maxWidth, words, |out|, cuts[|cuts| - 1], i);
    ExtendWrap(width, maxWidth, words, cuts, i);
    if width(words[i]) > maxWidth {
      BreakForbidden(width, maxWidth, words, |out| + 1, i, i, maxLines);
    }
  }

  lemma LoopFails(
    width: Measure, words: seq<Word>, maxWidth: int, maxLines: int,
    i: int, out: seq<string>, current: string, cuts: seq<nat>)
    requires i < |words| && LoopState(width, words, maxWidth, maxLines, i, out, current, cuts)
    requires width(Candidate(current, words[i])) > maxWidth && (current == "" || |out| >= maxLines - 1)
    ensures !CanWrap(width, maxWidth, words, maxLines) && !FullWrap(width, maxWidth, words, [0, |words|])
  {
    LoopExtends(width, words, maxWidth, maxLines, i, out, current, cuts);
    BreakForbidden(width, maxWidth, words, |out|, cuts[|cuts| - 1], i, maxLines);
  }

  // The final length test can only fail when no line at all is allowed.
  lemma LoopEnds(
    width: Measure, words: seq<Word>, maxWidth: int, maxLines: int, out: seq<string>, current: string, cuts: seq<nat>)
    requires words != [] && LoopState(width, words, maxWidth, maxLines, |words|, out, current, cuts)
    ensures |out| + 1 <= maxLines ==>
      BestWrap(width, words, maxWidth, maxLines, cuts + [|words|], out + [current])
    ensures |out| + 1 > maxLines ==>
      maxLines <= 0 && FullWrap(width, maxWidth, words, [0, |words|]) && !CanWrap(width, maxWidth, words, maxLines)
    ensures |out| + 1 <= maxLines <==> maxLines > 0
  {
    ExtendWrap(width, maxWidth, words, cuts, |words|);
    LinesRejoin(words, cuts + [|words|]);
    assert words[..|words|] == words;
    if maxLines <= 0 {
      assert cuts == [0];
    }
  }

  // A word that is too wide by itself, after words that leave a line for it.
  ghost predicate BlockedAt(width: Measure, words: seq<Word>, maxWidth: int, maxLines: int, i: int) {
    && 0 < i < |words| && !WordFits(width, maxWidth, words, i)
    && exists cuts :: Wrap(width, maxWidth, words, cuts) && cuts[|cuts| - 1] == i && |cuts| - 1 < maxLines
  }

  lemma WrappedWordsFit(width: Measure, words: seq<Word>, maxWidth: int, cuts: seq<nat>, i: int)
    requires Monotone(width, words) && Wrap(width, maxWidth, words, cuts) && 0 <= i < cuts[|cuts| - 1]
    ensures WordFits(width, maxWidth, words, i)
  {
    if !WordFits(width, maxWidth, words, i) { WideWordBlocks(width, maxWidth, words, i, cuts); }
  }

  // The words that the loop has passed fit.
  lemma PassedWordsFit(
    width: Measure, words: seq<Word>, maxWidth: int, maxLines: int,
    i: int, out: seq<string>, current: string, cuts: seq<nat>, k: int)
    requires LoopState(width, words, maxWidth, maxLines, i, out, current, cuts) && 0 <= k < i
    ensures WordFits(width, maxWidth, words, k)
  {
    ExtendWrap(width, maxWidth, words, cuts, i);
    WrappedWordsFit(width, words, maxWidth, cuts + [i], k);
  }

  // Where the loop gives up for want of lines, no word is blocked.
  lemma NoneBlocked(
    width: Measure, words: seq<Word>, maxWidth: int, maxLines: int,
    i: int, out: seq<string>, current: string, cuts: seq<nat>, k: int)
    requires i < |words| && LoopState(width, words, maxWidth, maxLines, i, out, current, cuts)
    requires width(Candidate(current, words[i])) > maxWidth && (current == "" || |out| >= maxLines - 1)
    ensures !BlockedAt(width, words, maxWidth, maxLines, k)
  {
    LoopExtends(width, words, maxWidth, maxLines, i, out, current, cuts);
    if BlockedAt(width, words, maxWidth, maxLines, k) {
      var other :| Wrap(width, maxWidth, words, other) && other[|other| - 1] == k && |other| - 1 < maxLines;
      if k < i {
        PassedWordsFit(width, words, maxWidth, maxLines, i, out, current, cuts, k);
      } else if current == "" {
        WideWordBlocks(width, maxWidth, words, i, other);
      }
    }
  }

  // What every result means for a text of at least one word.
  ghost predicate Explains(
    width: Measure, words: seq<Word>, maxWidth: int, maxLines: int, r: Result<seq<string>, WrapError>, cuts: seq<nat>)
  {
    && (r.Ok? <==> CanWrap(width, maxWidth, words, maxLines))
    && (r.Ok? ==> BestWrap(width, words, maxWidth, maxLines, cuts, r.value))
    && (r == Err(Overflows) <==> maxLines <= 0 && FullWrap(width, maxWidth, words, [0, |words|]))
    && (r == Err(UnrenderableWord) <==> exists i :: BlockedAt(width, words, maxWidth, maxLines, i))
  }

  lemma FullWrapBlocksNone(width: Measure, words: seq<Word>, maxWidth: int, maxLines: int, cuts: seq<nat>)
    requires Monotone(width, words) && FullWrap(width, maxWidth, words, cuts)
    ensures forall i :: !BlockedAt(width, words, maxWidth, maxLines, i)
  {
    forall i | 0 <= i < |words| ensures WordFits(width, maxWidth, words, i) {
      WrappedWordsFit(width, words, maxWidth, cuts, i);
    }
  }

  lemma BestCanWrap(width: Measure, words: seq<Word>, maxWidth: int, maxLines: int, cuts: seq<nat>, lines: seq<string>)
    requires maxLines > 0 && BestWrap(width, words, maxWidth, maxLines, cuts, lines) && Monotone(width, words)
    ensures Explains(width, words, maxWidth, maxLines, Ok(lines), cuts)
  {
    assert |cuts| - 1 == |lines| <= maxLines;
    FullWrapBlocksNone(width, words, maxWidth, maxLines, cuts);
  }

  // One iteration of the source's loop: the next state, or the error that ends it.
  method AddWord(width: Measure, words: seq<Word>, maxWidth: int, maxLines: int, i: int,
                 out: seq<string>, current: string, ghost cuts: seq<nat>)
    returns (r: Result<(seq<string>, string), WrapError>, ghost next: seq<nat>)
    requires i < |words| && LoopState(width, words, maxWidth, maxLines, i, out, current, cuts)
    ensures r.Ok? ==> LoopState(width, words, maxWidth, maxLines, i + 1, r.value.0, r.value.1, next)
    ensures r.Err? ==> r.error != Overflows && !CanWrap(width, maxWidth, words, maxLines)
    ensures r.Err? ==> !(maxLines <= 0 && FullWrap(width, maxWidth, words, [0, |words|]))
    ensures r == Err(UnrenderableWord) ==> BlockedAt(width, words, maxWidth, maxLines, i)
    ensures r == Err(CannotFit) ==> forall k :: !BlockedAt(width, words, maxWidth, maxLines, k)
  {
    next := cuts;
    LoopExtends(width, words, maxWidth, maxLines, i, out, current, cuts);
    var candidate := Candidate(current, words[i]);
    if width(candidate) <= maxWidth { return Ok((out, candidate)), next; }
    if current == "" || |out| >= maxLines - 1 {
      LoopFails(width, words, maxWidth, maxLines, i, out, current, cuts);
      forall k ensures !BlockedAt(width, words, maxWidth, maxLines, k) {
        NoneBlocked(width, words, maxWidth, maxLines, i, out, current, cuts, k);
      }
      return Err(CannotFit), next;
    }
    LoopBreaks(width, words, maxWidth, maxLines, i, out, current, cuts);
    if width(words[i]) > maxWidth {
      ExtendWrap(width, maxWidth, words, cuts, i);
      assert (cuts + [i])[|cuts + [i]| - 1] == i;
      return Err(UnrenderableWord), next;
    }
    next := cuts + [i];
    r := Ok((out + [current], words[i]));
  }

  lemma ErrorExplains(
    width: Measure, words: seq<Word>, maxWidth: int, maxLines: int, error: WrapError, i: int, cuts: seq<nat>)
    requires error != Overflows && !CanWrap(width, maxWidth, words, maxLines)
    requires !(maxLines <= 0 && FullWrap(width, maxWidth, words, [0, |words|]))
    requires error == UnrenderableWord ==> BlockedAt(width, words, maxWidth, maxLines, i)
    requires error == CannotFit ==> forall k :: !BlockedAt(width, words, maxWidth, maxLines, k)
    ensures Explains(width, words, maxWidth, maxLines, Err(error), cuts)
  {
  }

  lemma FirstState(width: Measure, words: seq<Word>, maxWidth: int, maxLines: int)
    requires Normalised(words) && Monotone(width, words)
    ensures LoopState(width, words, maxWidth, maxLines, 0, [], "", [0])
  {
  }

  // The loop of the source, on a text of at least one word.
  method WrapWords(width: Measure, words: seq<Word>, maxWidth: int, maxLines: int)
    returns (r: Result<seq<string>, WrapError>, ghost cuts: seq<nat>)
    requires words != [] && Normalised(words) && Monotone(width, words)
    ensures Explains(width, words, maxWidth, maxLines, r, cuts)
  {
    var out: seq<string>, current := [], "";
    cuts := [0];
    FirstState(width, words, maxWidth, maxLines);
    for i := 0 to |words|
      invariant LoopState(width, words, maxWidth, maxLines, i, out, current, cuts)
    {
      var next;
      next, cuts := AddWord(width, words, maxWidth, maxLines, i, out, current, cuts);
      if next.Err? {
        ErrorExplains(width, words, maxWidth, maxLines, next.error, i, cuts);
        return Err(next.error), cuts;
      }
      out, current := next.value.0, next.value.1;
    }
    LoopEnds(width, words, maxWidth, maxLines, out, current, cuts);
    out, cuts := out + [current], cuts + [|words|];
    if |out| > maxLines {
      FullWrapBlocksNone(width, words, maxWidth, maxLines, [0, |words|]);
      return Err(Overflows), cuts;
    }
    BestCanWrap(width, words, maxWidth, maxLines, cuts, out);
    r := Ok(out);
  }

  // `words` is text.split(); an empty text splits back into one empty word.
  method WrapLines(width: Measure, words: seq<Word>, maxWidth: int, maxLines: int)
    returns (r: Result<seq<string>, WrapError>, ghost cuts: seq<nat>)
    requires Normalised(words) && Monotone(width, words)
    ensures r.Ok? <==> Succeeds(width, words, maxWidth, maxLines)
    ensures r.Ok? ==> if words == [] then r.value == [] else BestWrap(width, words, maxWidth, maxLines, cuts, r.value)
    ensures words != [] ==>
      (r == Err(Overflows) <==> maxLines <= 0 && FullWrap(width, maxWidth, words, [0, |words|]))
    ensures r == Err(UnrenderableWord) <==> exists i :: BlockedAt(width, words, maxWidth, maxLines, i)
    ensures words == [] ==> (r == Err(CannotFit) <==> width("") > maxWidth)
  {
    if words == [] {
      cuts := [0];
      if width("") > maxWidth { return Err(CannotFit), cuts; }
      if 0 > maxLines { return Err(Overflows), cuts; }
      return Ok([]), cuts;
    }
    r, cuts := WrapWords(width, words, maxWidth, maxLines);
  }

  // ---------- Descending font sizes ----------

  ghost predicate SizeWraps(fonts: int -> Measure, words: seq<Word>, maxWidth: int, maxLines: int, size: int) {
    Succeeds(fonts(size), words, maxWidth, maxLines)
  }

  predicate InSteps(size: int, maximum: int, minimum: int) {
    minimum <= size <= maximum && (maximum - size) % 2 == 0
  }

  // Font sizes in descending steps of two; the first that wraps is taken.
  method ResponsiveLines(
    fonts: int -> Measure, words: seq<Word>, maxWidth: int, maxLines: int, maximum: int, minimum: int)
    returns (r: Option<(seq<string>, int)>)
    requires Normalised(words) && forall size :: Monotone(fonts(size), words)
    ensures r.None? <==>
      forall size :: InSteps(size, maximum, minimum) ==> !SizeWraps(fonts, words, maxWidth, maxLines, size)
    ensures r.Some? ==>
      && InSteps(r.value.1, maximum, minimum) && SizeWraps(fonts, words, maxWidth, maxLines, r.value.1)
      && (forall size :: InSteps(size, maximum, minimum) && SizeWraps(fonts, words, maxWidth, maxLines, size) ==>
            size <= r.value.1)
      && (words != [] ==> exists cuts :: BestWrap(fonts(r.value.1), words, maxWidth, maxLines, cuts, r.value.0))
      && (words == [] ==> r.value.0 == [])
  {
    var size := maximum;
    while size >= minimum
      invariant size <= maximum && (maximum - size) % 2 == 0
      invariant forall s :: InSteps(s, maximum, minimum) && s > size ==> !SizeWraps(fonts, words, maxWidth, maxLines, s)
      decreases size - minimum
    {
      var lines, cuts := WrapLines(fonts(size), words, maxWidth, maxLines);
      assert lines.Ok? <==> SizeWraps(fonts, words, maxWidth, maxLines, size);
      if lines.Ok? {
        return Some((lines.value, size));
      }
      size := size - 2;
    }
    r := None;
  }
}
