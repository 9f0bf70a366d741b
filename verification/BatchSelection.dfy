// The greedy batch picker of backend/app/services/creative_rendering.py (render_review_batch).
module BatchSelection {
  import opened Basics
  import opened Wrappers
  import opened StringOrder
  import opened Sorting

  // One joined row; template and angle are None when the rationale lacks the key.
  datatype Row = Row(draft: string, product: string, template: Option<string>, category: string, angle: Option<string>)

  datatype Used = Used(
    products: set<string>, templates: set<Option<string>>, categories: set<string>, angles: set<Option<string>>)

  datatype SelectionError = LimitOutOfRange

  const NOTHING_USED := Used({}, {}, {}, {})

  // priority() reads a missing key as "", while the used sets record it as None.
  function TextOf(key: Option<string>): string {
    if key.Some? then key.value else ""
  }

  predicate FreshTemplate(row: Row, used: Used) {
    Some(TextOf(row.template)) !in used.templates
  }

  function Novelty(row: Row, used: Used): (n: int)
    ensures FreshTemplate(row, used) <==> n >= 1000
    ensures 0 <= n <= 1135
  {
    (if FreshTemplate(row, used) then 1000 else 0)
    + (if row.category !in used.categories then 100 else 0)
    + (if Some(TextOf(row.angle)) !in used.angles then 25 else 0)
    + (if row.product !in used.products then 10 else 0)
  }

  function Use(row: Row, used: Used): Used {
    Used(used.products + {row.product}, used.templates + {row.template},
      used.categories + {row.category}, used.angles + {row.angle})
  }

  // The key (-novelty, template, category, angle, product, draft), compared as Python compares tuples.
  function CompareRows(a: Row, b: Row, used: Used): (c: int)
    ensures -1 <= c <= 1
    ensures a.draft != b.draft ==> c != 0
  {
    var novelty := Novelty(b, used) - Novelty(a, used);
    var template := Compare(TextOf(a.template), TextOf(b.template));
    var category := Compare(a.category, b.category);
    var angle := Compare(TextOf(a.angle), TextOf(b.angle));
    var product := Compare(a.product, b.product);
    if novelty < 0 then -1 else if novelty > 0 then 1
    else if template != 0 then template
    else if category != 0 then category
    else if angle != 0 then angle
    else if product != 0 then product
    else Compare(a.draft, b.draft)
  }

  lemma CompareRowsTransitive(a: Row, b: Row, c: Row, used: Used)
    requires CompareRows(a, b, used) <= 0 && CompareRows(b, c, used) <= 0
    ensures CompareRows(a, c, used) <= 0
  {
    CompareTransitive3(TextOf(a.template), TextOf(b.template), TextOf(c.template));
    CompareTransitive3(a.category, b.category, c.category);
    CompareTransitive3(TextOf(a.angle), TextOf(b.angle), TextOf(c.angle));
    CompareTransitive3(a.product, b.product, c.product);
    CompareTransitive3(a.draft, b.draft, c.draft);
  }

  // Both orders, and strictness when one step is strict.
  lemma CompareTransitive3(a: string, b: string, c: string)
    ensures Compare(a, b) <= 0 && Compare(b, c) <= 0 ==> Compare(a, c) <= 0
    ensures Compare(a, b) < 0 && Compare(b, c) <= 0 ==> Compare(a, c) < 0
    ensures Compare(a, b) <= 0 && Compare(b, c) < 0 ==> Compare(a, c) < 0
  {
    if Compare(a, b) <= 0 && Compare(b, c) <= 0 {
      CompareTransitive(a, b, c);
      CompareFlips(a, b);
    }
  }

  lemma CompareRowsFlips(a: Row, b: Row, used: Used)
    ensures CompareRows(a, b, used) == -CompareRows(b, a, used)
  {
    CompareFlips(TextOf(a.template), TextOf(b.template));
    CompareFlips(a.category, b.category);
    CompareFlips(TextOf(a.angle), TextOf(b.angle));
    CompareFlips(a.product, b.product);
    CompareFlips(a.draft, b.draft);
  }

  // ---------- The specification: repeatedly take the least row of a set ----------

  ghost predicate UniqueDrafts(rows: set<Row>) {
    forall a, b :: a in rows && b in rows && a.draft == b.draft ==> a == b
  }

  ghost predicate IsLeast(m: Row, rows: set<Row>, used: Used) {
    m in rows && forall r {:trigger CompareRows(m, r, used)} :: r in rows ==> CompareRows(m, r, used) <= 0
  }

  lemma {:induction false} LeastExists(rows: set<Row>, used: Used) returns (m: Row)
    requires rows != {}
    ensures IsLeast(m, rows, used)
    decreases |rows|
  {
    m :| m in rows;
    CompareRowsFlips(m, m, used);
    if rows != {m} {
      var rest := rows - {m};
      assert rows == rest + {m};
      var n := LeastExists(rest, used);
      CompareRowsFlips(m, n, used);
      if CompareRows(n, m, used) <= 0 {
        m := n;
      } else {
        forall r | r in rest ensures CompareRows(m, r, used) <= 0 {
          CompareRowsTransitive(m, n, r, used);
        }
      }
    }
  }

  lemma LeastIsUnique(a: Row, b: Row, rows: set<Row>, used: Used)
    requires UniqueDrafts(rows) && IsLeast(a, rows, used) && IsLeast(b, rows, used)
    ensures a == b
  {
    CompareRowsFlips(a, b, used);
  }

  ghost function Least(rows: set<Row>, used: Used): (m: Row)
    requires rows != {}
    ensures m in rows
  {
    assert exists m :: IsLeast(m, rows, used) by {
      var m := LeastExists(rows, used);
    }
    var m :| IsLeast(m, rows, used);
    m
  }

  lemma LeastIsLeast(rows: set<Row>, used: Used)
    requires rows != {}
    ensures IsLeast(Least(rows, used), rows, used)
  {
    assert exists m :: IsLeast(m, rows, used) by {
      var m := LeastExists(rows, used);
    }
  }

  ghost function Picks(rows: set<Row>, used: Used, n: nat): seq<Row>
    decreases n
  {
    if n == 0 || rows == {} then []
    else
      var m := Least(rows, used);
      [m] + Picks(rows - {m}, Use(m, used), n - 1)
  }

  // As many rows as the limit and the input allow, all from the input, none twice.
  lemma {:induction false} PicksAreDistinct(rows: set<Row>, used: Used, n: nat)
    ensures var picks := Picks(rows, used, n);
      && |picks| == (if n <= |rows| then n else |rows|)
      && (forall i :: 0 <= i < |picks| ==> picks[i] in rows)
      && (forall i, j :: 0 <= i < j < |picks| ==> picks[i] != picks[j])
    decreases n
  {
    if n == 0 || rows == {} {
    } else {
      var m := Least(rows, used);
      PicksAreDistinct(rows - {m}, Use(m, used), n - 1);
    }
  }

  // ---------- Coverage of templates ----------

  // No rationale carries the empty string as its template key.
  ghost predicate NoEmptyKey(rows: set<Row>) {
    forall r :: r in rows ==> r.template != Some("")
  }

  // A row without a key can be told apart from a row with the empty key: there are none of one of the two kinds.
  ghost predicate Separable(rows: set<Row>, used: Used) {
    Keyless(rows) == {} || (NoEmptyKey(rows) && Some("") !in used.templates)
  }

  ghost function Elements(picks: seq<Row>): set<Row> {
    set r | r in picks
  }

  ghost function Keyless(rows: set<Row>): set<Row> {
    set r | r in rows && r.template.None?
  }

  ghost function FreshKeys(rows: set<Row>, used: set<Option<string>>): set<Option<string>> {
    set r | r in rows && r.template.Some? && r.template !in used :: r.template
  }

  ghost function Keys(rows: set<Row>): set<Option<string>> {
    FreshKeys(rows, {})
  }

  ghost function Gain(rows: set<Row>, used: Used): nat {
    |FreshKeys(rows, used.templates)| + |Keyless(rows)|
  }

  // Taking a fresh row uses up exactly one unit of gain; a stale row uses up none.
  lemma GainOfRow(m: Row, rows: set<Row>, used: Used)
    requires m !in rows && (m.template.None? ==> Some("") !in used.templates)
    ensures Gain(rows + {m}, used) == Gain(rows, Use(m, used)) + (if FreshTemplate(m, used) then 1 else 0)
  {
    var next := Use(m, used);
    if m.template.None? {
      assert Keyless(rows + {m}) == Keyless(rows) + {m};
      assert FreshKeys(rows + {m}, used.templates) == FreshKeys(rows, next.templates);
    } else {
      assert Keyless(rows + {m}) == Keyless(rows);
      if FreshTemplate(m, used) {
        assert FreshKeys(rows + {m}, used.templates) == FreshKeys(rows, next.templates) + {m.template};
      } else {
        assert FreshKeys(rows + {m}, used.templates) == FreshKeys(rows, next.templates);
      }
    }
  }

  // The template weight dominates: the least row is stale only if every row is.
  lemma StaleLeastMeansNoGain(m: Row, rows: set<Row>, used: Used)
    requires IsLeast(m, rows, used) && Separable(rows, used) && !FreshTemplate(m, used)
    ensures Gain(rows, used) == 0
  {
    forall r | r in rows ensures !FreshTemplate(r, used) {
      assert CompareRows(m, r, used) <= 0;
    }
    assert Keyless(rows) == {} by {
      assert forall r :: r in rows && r.template.None? ==> Some("") in used.templates;
    }
    assert FreshKeys(rows, used.templates) == {};
  }

  lemma GainIsMonotone(small: set<Row>, large: set<Row>, used: Used)
    requires small <= large
    ensures Gain(small, used) <= Gain(large, used)
  {
    SubsetSize(Keyless(small), Keyless(large));
    SubsetSize(FreshKeys(small, used.templates), FreshKeys(large, used.templates));
  }

  lemma PicksUnfold(rows: set<Row>, used: Used, n: nat)
    requires n > 0 && rows != {}
    ensures Picks(rows, used, n) ==
      [Least(rows, used)] + Picks(rows - {Least(rows, used)}, Use(Least(rows, used), used), n - 1)
  {
  }

  lemma ElementsOfCons(m: Row, tail: seq<Row>)
    ensures Elements([m] + tail) == Elements(tail) + {m}
  {
  }

  lemma PicksAreRows(rows: set<Row>, used: Used, n: nat)
    ensures Elements(Picks(rows, used, n)) <= rows
  {
    PicksAreDistinct(rows, used, n);
  }

  // The first of some picks, the rows it leaves, and the other picks.
  lemma FirstOf(rows: set<Row>, used: Used, n: nat) returns (m: Row, rest: set<Row>, tail: set<Row>)
    requires n > 0 && rows != {}
    ensures m == Least(rows, used) && IsLeast(m, rows, used) && m !in rest && rows == rest + {m}
    ensures tail == Elements(Picks(rest, Use(m, used), n - 1)) && tail <= rest
    ensures Elements(Picks(rows, used, n)) == tail + {m}
  {
    m := Least(rows, used);
    rest, tail := rows - {m}, Elements(Picks(rows - {m}, Use(m, used), n - 1));
    LeastIsLeast(rows, used);
    PicksUnfold(rows, used, n);
    ElementsOfCons(m, Picks(rest, Use(m, used), n - 1));
    PicksAreRows(rest, Use(m, used), n - 1);
  }

  lemma NothingGained(used: Used)
    ensures Gain({}, used) == 0 && Elements([]) == {}
  {
  }

  lemma SeparableRest(rows: set<Row>, m: Row, used: Used)
    requires Separable(rows + {m}, used)
    ensures Separable(rows, Use(m, used)) && (m.template.None? ==> Some("") !in used.templates)
  {
    assert m in rows + {m};
    assert m.template.None? ==> m in Keyless(rows + {m});
    assert Keyless(rows) <= Keyless(rows + {m});
  }

  // A fresh pick: the gain of the picks and the gain of the rows both lose one.
  lemma FreshPick(m: Row, rest: set<Row>, tail: set<Row>, used: Used)
    requires tail <= rest && m !in rest && Separable(rest + {m}, used) && FreshTemplate(m, used)
    ensures Gain(rest + {m}, used) == Gain(rest, Use(m, used)) + 1
    ensures Gain(tail + {m}, used) == Gain(tail, Use(m, used)) + 1
  {
    SeparableRest(rest, m, used);
    GainOfRow(m, rest, used);
    GainOfRow(m, tail, used);
  }

  // A stale pick: nothing is left to gain.
  lemma StalePick(m: Row, rest: set<Row>, tail: set<Row>, used: Used)
    requires tail <= rest && IsLeast(m, rest + {m}, used)
    requires Separable(rest + {m}, used) && !FreshTemplate(m, used)
    ensures Gain(rest + {m}, used) == Gain(tail + {m}, used) == 0
  {
    StaleLeastMeansNoGain(m, rest + {m}, used);
    GainIsMonotone(tail + {m}, rest + {m}, used);
  }

  // The first pick of several: what it takes, what it leaves, and how both gains change.
  lemma FirstPick(rows: set<Row>, used: Used, n: nat) returns (next: Used, rest: set<Row>, tail: set<Row>, gains: bool)
    requires n > 0 && rows != {} && Separable(rows, used)
    ensures Separable(rest, next) && tail == Elements(Picks(rest, next, n - 1))
    ensures Gain(rows, used) == if gains then Gain(rest, next) + 1 else 0
    ensures Gain(Elements(Picks(rows, used, n)), used) == if gains then Gain(tail, next) + 1 else 0
  {
    var m;
    m, rest, tail := FirstOf(rows, used, n);
    next, gains := Use(m, used), FreshTemplate(m, used);
    SeparableRest(rest, m, used);
    if gains { FreshPick(m, rest, tail, used); } else { StalePick(m, rest, tail, used); }
  }

  // Keys newly covered, counting every row without a key as its own, are as many as the limit allows.
  lemma {:induction false} PicksGainAll(rows: set<Row>, used: Used, n: nat, chosen: set<Row>)
    requires Separable(rows, used) && chosen == Elements(Picks(rows, used, n))
    ensures Gain(chosen, used) == if n <= Gain(rows, used) then n else Gain(rows, used)
    decreases n
  {
    if n == 0 || rows == {} {
      NothingGained(used);
    } else {
      var next, rest, tail, gains := FirstPick(rows, used, n);
      PicksGainAll(rest, next, n - 1, tail);
    }
  }

  // With every template key present, the batch covers as many templates as it can.
  lemma CoversTemplates(rows: set<Row>, limit: nat)
    requires Keyless(rows) == {}
    ensures |Keys(Elements(Picks(rows, NOTHING_USED, limit)))| == if limit <= |Keys(rows)| then limit else |Keys(rows)|
  {
    PicksGainAll(rows, NOTHING_USED, limit, Elements(Picks(rows, NOTHING_USED, limit)));
    PicksAreRows(rows, NOTHING_USED, limit);
    assert Keyless(Elements(Picks(rows, NOTHING_USED, limit))) == {};
  }

  // ---------- Coverage with keyless rows, whatever the other keys ----------

  // How many more picks can be fresh: once the empty key is used, no row without a key is fresh any more.
  ghost function Potential(rows: set<Row>, used: Used): nat {
    |FreshKeys(rows, used.templates)| + (if Some("") in used.templates then 0 else |Keyless(rows)|)
  }

  lemma StaleLeastMeansAllUsed(m: Row, rows: set<Row>, used: Used)
    requires IsLeast(m, rows, used) && !FreshTemplate(m, used)
    ensures FreshKeys(rows, used.templates) == {}
  {
    forall r | r in rows ensures !FreshTemplate(r, used) {
      assert CompareRows(m, r, used) <= 0;
    }
  }

  lemma FreshPickSpends(m: Row, rest: set<Row>, used: Used)
    requires m !in rest && FreshTemplate(m, used)
    ensures Potential(rest, Use(m, used)) < Potential(rest + {m}, used)
    ensures FreshKeys(rest + {m}, used.templates) <= FreshKeys(rest, Use(m, used).templates) + {m.template}
  {
    var next := Use(m, used);
    if m.template.None? {
      assert Keyless(rest + {m}) == Keyless(rest) + {m};
      assert FreshKeys(rest + {m}, used.templates) == FreshKeys(rest, next.templates);
    } else {
      assert Keyless(rest + {m}) == Keyless(rest);
      assert FreshKeys(rest + {m}, used.templates) == FreshKeys(rest, next.templates) + {m.template};
    }
  }

  lemma KeysOfMore(m: Row, rows: set<Row>)
    ensures Keys(rows + {m}) == Keys(rows) + (if m.template.Some? then {m.template} else {})
  {
  }

  // The first pick: either nothing is left to cover, or it spends potential and covers what the rest does not.
  lemma FirstSpends(rows: set<Row>, used: Used, n: nat)
    returns (next: Used, rest: set<Row>, tail: set<Row>, spends: bool)
    requires n > 0 && rows != {}
    ensures tail == Elements(Picks(rest, next, n - 1))
    ensures spends ==>
      && Potential(rest, next) < Potential(rows, used)
      && (FreshKeys(rest, next.templates) <= Keys(tail) ==>
            FreshKeys(rows, used.templates) <= Keys(Elements(Picks(rows, used, n))))
    ensures !spends ==> FreshKeys(rows, used.templates) == {}
  {
    var m;
    m, rest, tail := FirstOf(rows, used, n);
    next, spends := Use(m, used), FreshTemplate(m, used);
    KeysOfMore(m, tail);
    if spends { FreshPickSpends(m, rest, used); } else { StaleLeastMeansAllUsed(m, rows, used); }
    assert FreshKeys(rows, used.templates) <= Keys(rows);
  }

  // As many picks as there is potential cover every template that was not covered before.
  lemma {:induction false} EnoughPicksCover(rows: set<Row>, used: Used, n: nat, chosen: set<Row>)
    requires n >= Potential(rows, used) && chosen == Elements(Picks(rows, used, n))
    ensures FreshKeys(rows, used.templates) <= Keys(chosen)
    decreases n
  {
    if n == 0 || rows == {} {
      assert FreshKeys(rows, used.templates) == {};
    } else {
      var next, rest, tail, spends := FirstSpends(rows, used, n);
      if spends { EnoughPicksCover(rest, next, n - 1, tail); }
    }
  }

  // While no row without a key is fresh, every pick covers a new template as long as one is left.
  lemma {:induction false} KeyedPicksCover(rows: set<Row>, used: Used, n: nat, chosen: set<Row>)
    requires (Some("") in used.templates || Keyless(rows) == {}) && n <= |FreshKeys(rows, used.templates)|
    requires chosen == Elements(Picks(rows, used, n))
    ensures |FreshKeys(chosen, used.templates)| == n
    decreases n
  {
    if n == 0 {
      assert FreshKeys(chosen, used.templates) == {};
    } else {
      var m, rest, tail := FirstIsFresh(rows, used, n);
      var next := Use(m, used);
      OneKeyLess(m, rest, used);
      OneKeyLess(m, tail, used);
      assert Keyless(rest) <= Keyless(rows);
      KeyedPicksCover(rest, next, n - 1, tail);
    }
  }

  lemma OneKeyLess(m: Row, rows: set<Row>, used: Used)
    requires m.template.Some? && m.template !in used.templates
    ensures |FreshKeys(rows + {m}, used.templates)| == |FreshKeys(rows, Use(m, used).templates)| + 1
  {
    assert FreshKeys(rows + {m}, used.templates) == FreshKeys(rows, Use(m, used).templates) + {m.template};
  }

  lemma FirstIsFresh(rows: set<Row>, used: Used, n: nat) returns (m: Row, rest: set<Row>, tail: set<Row>)
    requires Some("") in used.templates || Keyless(rows) == {}
    requires n > 0 && FreshKeys(rows, used.templates) != {}
    ensures m == Least(rows, used) && rows == rest + {m} && tail == Elements(Picks(rest, Use(m, used), n - 1))
    ensures m.template.Some? && m.template !in used.templates
    ensures Elements(Picks(rows, used, n)) == tail + {m}
  {
    assert rows != {};
    m, rest, tail := FirstOf(rows, used, n);
    if !FreshTemplate(m, used) { StaleLeastMeansAllUsed(m, rows, used); }
    assert m.template.None? ==> m in Keyless(rows);
  }

  // A limit large enough for the keyless rows as well covers every template, the empty key included.
  lemma LargeLimitCoversTemplates(rows: set<Row>, limit: nat)
    requires limit >= |Keys(rows)| + |Keyless(rows)|
    ensures Keys(Elements(Picks(rows, NOTHING_USED, limit))) == Keys(rows)
  {
    EnoughPicksCover(rows, NOTHING_USED, limit, Elements(Picks(rows, NOTHING_USED, limit)));
    PicksAreRows(rows, NOTHING_USED, limit);
  }

  lemma KeylessMeansEmptyFirst(m: Row, k: Row, rows: set<Row>)
    requires IsLeast(m, rows, NOTHING_USED) && k in rows && k.template.None?
    ensures TextOf(m.template) == ""
  {
    assert CompareRows(m, k, NOTHING_USED) <= 0;
  }

  lemma {:induction false} KeysAtMost(chosen: seq<Row>)
    ensures |Keys(Elements(chosen))| <= |chosen|
  {
    if chosen == [] {
      assert Keys(Elements([])) == {};
    } else {
      assert chosen == [chosen[0]] + chosen[1..];
      KeysAtMost(chosen[1..]);
      ElementsOfCons(chosen[0], chosen[1..]);
      KeysOfMore(chosen[0], Elements(chosen[1..]));
    }
  }

  // A first row with a key is followed by no fresh row without one.
  lemma FirstKeyEndsKeyless(m: Row, rest: set<Row>)
    requires IsLeast(m, rest + {m}, NOTHING_USED) && m.template.Some?
    ensures Some("") in Use(m, NOTHING_USED).templates || Keyless(rest) == {}
  {
    if k :| k in Keyless(rest) { KeylessMeansEmptyFirst(m, k, rest + {m}); }
  }

  lemma FirstKeyCovers(rows: set<Row>, m: Row, limit: nat)
    requires rows != {} && m == Least(rows, NOTHING_USED) && m.template.Some? && 1 <= limit <= |Keys(rows)|
    ensures |Keys(Elements(Picks(rows, NOTHING_USED, limit)))| == limit
  {
    var first, rest, tail := FirstOf(rows, NOTHING_USED, limit);
    FirstKeyEndsKeyless(m, rest);
    OneKeyLess(m, rest, NOTHING_USED);
    OneKeyLess(m, tail, NOTHING_USED);
    KeyedPicksCover(rest, Use(m, NOTHING_USED), limit - 1, tail);
  }

  lemma PickKeysAtMost(rows: set<Row>, used: Used, n: nat, chosen: set<Row>)
    requires chosen == Elements(Picks(rows, used, n))
    ensures |Keys(chosen)| <= n
  {
    PicksAreDistinct(rows, used, n);
    KeysAtMost(Picks(rows, used, n));
  }

  lemma KeylessFirstMisses(rows: set<Row>, m: Row, limit: nat)
    requires rows != {} && m == Least(rows, NOTHING_USED) && m.template.None? && limit >= 1
    ensures |Keys(Elements(Picks(rows, NOTHING_USED, limit)))| < limit
  {
    var first, rest, tail := FirstOf(rows, NOTHING_USED, limit);
    PickKeysAtMost(rest, Use(m, NOTHING_USED), limit - 1, tail);
    KeysOfMore(m, tail);
  }

  // For every set of rows and every limit up to the number of its templates: the picks cover as many templates as the
  // limit allows if and only if the row that sorts first has a key.
  lemma CoverageIffFirstHasKey(rows: set<Row>, limit: nat)
    requires 1 <= limit <= |Keys(rows)|
    ensures |Keys(Elements(Picks(rows, NOTHING_USED, limit)))| == limit <==>
            rows != {} && Least(rows, NOTHING_USED).template.Some?
  {
    assert Keys({}) == {};
    var m := Least(rows, NOTHING_USED);
    if m.template.None? { KeylessFirstMisses(rows, m, limit); } else { FirstKeyCovers(rows, m, limit); }
  }

  // So without empty keys it is exactly the rows without a key that spoil it: a missing key is recorded as None but
  // looked up as "", so such rows sort first and stay novel forever.
  lemma CoverageFailsOnlyForKeyless(rows: set<Row>, limit: nat)
    requires NoEmptyKey(rows) && 1 <= limit <= |Keys(rows)|
    ensures |Keys(Elements(Picks(rows, NOTHING_USED, limit)))| == limit <==> Keyless(rows) == {}
  {
    assert Keys({}) == {};
    var m := Least(rows, NOTHING_USED);
    LeastIsLeast(rows, NOTHING_USED);
    CoverageIffFirstHasKey(rows, limit);
    if k :| k in Keyless(rows) { KeylessMeansEmptyFirst(m, k, rows); }
    assert m.template.None? ==> m in Keyless(rows);
  }

  // Rows that differ only in their draft and template.
  ghost predicate Alike(rows: set<Row>) {
    forall a, b :: a in rows && b in rows ==> a.(draft := b.draft, template := b.template) == b
  }

  lemma KeylessIsLeast(m: Row, rows: set<Row>, used: Used)
    requires Alike(rows) && NoEmptyKey(rows) && Some("") !in used.templates
    requires IsLeast(m, rows, used) && Keyless(rows) != {}
    ensures m.template.None?
  {
    var k :| k in Keyless(rows);
    assert CompareRows(m, k, used) <= 0;
    assert k == m.(draft := k.draft, template := k.template);
  }

  lemma OneMoreKeyless(m: Row, rows: set<Row>)
    requires m !in rows && m.template.None?
    ensures |Keyless(rows + {m})| == |Keyless(rows)| + 1 && Keys(rows + {m}) == Keys(rows)
  {
    assert Keyless(rows + {m}) == Keyless(rows) + {m};
  }

  lemma OneMoreKey(m: Row, rows: set<Row>)
    requires m.template.Some? && m.template !in Keys(rows)
    ensures |Keys(rows + {m})| == |Keys(rows)| + 1 && Keyless(rows + {m}) == Keyless(rows)
  {
    assert Keys(rows + {m}) == Keys(rows) + {m.template};
  }

  // The first pick among such rows, if one of them has no key.
  lemma FirstIsKeyless(rows: set<Row>, used: Used, n: nat) returns (m: Row, rest: set<Row>, tail: set<Row>)
    requires Alike(rows) && NoEmptyKey(rows) && Some("") !in used.templates && n > 0 && Keyless(rows) != {}
    ensures m.template.None? && m !in rest && rows == rest + {m} && tail <= rest
    ensures tail == Elements(Picks(rest, Use(m, used), n - 1))
    ensures Elements(Picks(rows, used, n)) == tail + {m}
  {
    m, rest, tail := FirstOf(rows, used, n);
    KeylessIsLeast(m, rows, used);
  }

  // Among such rows all those without a key come first.
  lemma {:induction false} KeylessCrowdOut(rows: set<Row>, used: Used, n: nat, chosen: set<Row>)
    requires Alike(rows) && NoEmptyKey(rows) && Some("") !in used.templates
    requires chosen == Elements(Picks(rows, used, n))
    ensures |Keyless(chosen)| == Min(n, |Keyless(rows)|)
    decreases n
  {
    PicksAreRows(rows, used, n);
    if n == 0 {
      assert chosen == {};
    } else if Keyless(rows) == {} {
      assert Keyless(chosen) == {};
    } else {
      var m, rest, tail := FirstIsKeyless(rows, used, n);
      KeylessCrowdOut(rest, Use(m, used), n - 1, tail);
      OneMoreKeyless(m, rest);
      OneMoreKeyless(m, tail);
    }
  }

  lemma CoversWithRoom(rows: set<Row>, limit: nat)
    requires Keys(rows) == {} || Keyless(rows) == {} || limit >= |Keys(rows)| + |Keyless(rows)|
    ensures |Keys(Elements(Picks(rows, NOTHING_USED, limit)))| == Min(limit, |Keys(rows)|)
  {
    if Keyless(rows) == {} {
      CoversTemplates(rows, limit);
    } else if Keys(rows) == {} {
      PicksAreRows(rows, NOTHING_USED, limit);
      assert Keys(Elements(Picks(rows, NOTHING_USED, limit))) <= Keys(rows);
    } else {
      LargeLimitCoversTemplates(rows, limit);
    }
  }

  lemma CrowdedRowsUncovered(rows: set<Row>, templates: nat, keyless: nat, limit: nat)
    requires Alike(rows) && NoEmptyKey(rows) && |Keys(rows)| == templates && |Keyless(rows)| == keyless
    requires 1 <= limit < templates + keyless && templates > 0 && keyless > 0
    ensures |Keys(Elements(Picks(rows, NOTHING_USED, limit)))| < Min(limit, templates)
  {
    var chosen := Elements(Picks(rows, NOTHING_USED, limit));
    KeylessCrowdOut(rows, NOTHING_USED, limit, chosen);
    PicksGainAll(rows, NOTHING_USED, limit, chosen);
    assert Gain(chosen, NOTHING_USED) == |Keys(chosen)| + |Keyless(chosen)|;
  }

  // ---------- Rows of which the picks cover too few templates ----------

  // One row for each number: the first ones carry distinct keys, the others none.
  function NumberedRow(i: nat, templates: nat): Row {
    Row(Stars(i), "", if i < templates then Some(Stars(i + 1)) else None, "", None)
  }

  ghost function NumberedRows(n: nat, templates: nat): set<Row> {
    set i: nat | i < n :: NumberedRow(i, templates)
  }

  lemma OneMoreNumber(n: nat, templates: nat)
    ensures NumberedRows(n + 1, templates) == NumberedRows(n, templates) + {NumberedRow(n, templates)}
  {
    assert NumberedRow(n, templates) in NumberedRows(n + 1, templates);
  }

  lemma NextNumberIsNew(n: nat, templates: nat)
    ensures NumberedRow(n, templates) !in NumberedRows(n, templates)
    ensures n < templates ==> NumberedRow(n, templates).template !in Keys(NumberedRows(n, templates))
  {
    forall i: nat | i < n
      ensures NumberedRow(i, templates).draft != NumberedRow(n, templates).draft
      ensures n < templates ==> NumberedRow(i, templates).template != NumberedRow(n, templates).template
    {
      assert |NumberedRow(i, templates).draft| == i && |NumberedRow(n, templates).draft| == n;
      assert |Stars(i + 1)| == i + 1 && |Stars(n + 1)| == n + 1;
    }
  }

  lemma {:induction false} NumberedRowsCount(n: nat, templates: nat)
    ensures |Keys(NumberedRows(n, templates))| == Min(n, templates)
    ensures |Keyless(NumberedRows(n, templates))| == n - Min(n, templates)
  {
    if n == 0 {
      assert NumberedRows(n, templates) == {};
      assert Keys({}) == {} && Keyless({}) == {};
    } else {
      NumberedRowsCount(n - 1, templates);
      OneMoreNumber(n - 1, templates);
      NextNumberIsNew(n - 1, templates);
      if n - 1 < templates {
        OneMoreKey(NumberedRow(n - 1, templates), NumberedRows(n - 1, templates));
      } else {
        OneMoreKeyless(NumberedRow(n - 1, templates), NumberedRows(n - 1, templates));
      }
    }
  }

  lemma CrowdedRows(templates: nat, keyless: nat) returns (rows: set<Row>)
    ensures UniqueDrafts(rows) && Alike(rows) && NoEmptyKey(rows)
    ensures |Keys(rows)| == templates && |Keyless(rows)| == keyless
  {
    rows := NumberedRows(templates + keyless, templates);
    NumberedRowsCount(templates + keyless, templates);
    forall a, b | a in rows && b in rows && a.draft == b.draft ensures a == b {
      var i: nat :| i < templates + keyless && a == NumberedRow(i, templates);
      var j: nat :| j < templates + keyless && b == NumberedRow(j, templates);
      assert |a.draft| == i && |b.draft| == j;
    }
    forall r | r in rows ensures r.template != Some("") {
      var i: nat :| i < templates + keyless && r == NumberedRow(i, templates);
      assert r.template.Some? ==> |r.template.value| == i + 1;
    }
  }

  // Every set of rows with this many templates and keyless rows is covered as far as the limit goes.
  ghost predicate AlwaysCovers(templates: nat, keyless: nat, limit: nat) {
    forall rows :: UniqueDrafts(rows) && |Keys(rows)| == templates && |Keyless(rows)| == keyless ==>
      |Keys(Elements(Picks(rows, NOTHING_USED, limit)))| == Min(limit, templates)
  }

  // The guarantee over the whole range: it fails exactly when there are both kinds of rows and the limit does not
  // leave room for all of them.
  lemma CoversIffRoomForAll(templates: nat, keyless: nat, limit: nat)
    requires limit >= 1
    ensures AlwaysCovers(templates, keyless, limit) <==>
            templates == 0 || keyless == 0 || limit >= templates + keyless
  {
    if templates == 0 || keyless == 0 || limit >= templates + keyless {
      forall rows | UniqueDrafts(rows) && |Keys(rows)| == templates && |Keyless(rows)| == keyless
        ensures |Keys(Elements(Picks(rows, NOTHING_USED, limit)))| == Min(limit, templates)
      {
        CoversWithRoom(rows, limit);
      }
    } else {
      var rows := CrowdedRows(templates, keyless);
      CrowdedRowsUncovered(rows, templates, keyless, limit);
    }
  }

  lemma LeastIs(m: Row, rows: set<Row>, used: Used)
    requires UniqueDrafts(rows) && IsLeast(m, rows, used)
    ensures rows != {} && Least(rows, used) == m
  {
    LeastIsLeast(rows, used);
    LeastIsUnique(m, Least(rows, used), rows, used);
  }

  const KEYED := Row("d3", "p", Some("a"), "c1", None)
  const KEYLESS := Row("d1", "p", None, "c1", None)
  const NEW_CATEGORY := Row("d2", "p", None, "c2", None)

  lemma KeylessSortsFirst()
    ensures IsLeast(KEYLESS, {KEYED, KEYLESS, NEW_CATEGORY}, NOTHING_USED)
  {
    assert Compare("c1", "c2") == -1 by { assert "c1"[1..] == "1" && "c2"[1..] == "2"; }
    CompareRowsFlips(KEYLESS, KEYLESS, NOTHING_USED);
  }

  lemma NewCategorySortsNext()
    ensures IsLeast(NEW_CATEGORY, {KEYED, NEW_CATEGORY}, Use(KEYLESS, NOTHING_USED))
  {
    var used := Use(KEYLESS, NOTHING_USED);
    assert Novelty(NEW_CATEGORY, used) == 1125 && Novelty(KEYED, used) == 1025;
    CompareRowsFlips(NEW_CATEGORY, NEW_CATEGORY, used);
  }

  // Above the number of templates it fails as well: one template, two rows without a key, and a limit of two.
  lemma OneTemplateIsMissed()
    ensures Picks({KEYED, KEYLESS, NEW_CATEGORY}, NOTHING_USED, 2) == [KEYLESS, NEW_CATEGORY]
    ensures Keys({KEYED, KEYLESS, NEW_CATEGORY}) == {Some("a")} && Keys(Elements([KEYLESS, NEW_CATEGORY])) == {}
  {
    var rows := {KEYED, KEYLESS, NEW_CATEGORY};
    KeylessSortsFirst();
    LeastIs(KEYLESS, rows, NOTHING_USED);
    PicksUnfold(rows, NOTHING_USED, 2);
    assert rows - {KEYLESS} == {KEYED, NEW_CATEGORY};
    NewCategorySortsNext();
    LeastIs(NEW_CATEGORY, {KEYED, NEW_CATEGORY}, Use(KEYLESS, NOTHING_USED));
    PicksUnfold({KEYED, NEW_CATEGORY}, Use(KEYLESS, NOTHING_USED), 1);
  }

  // ---------- The loop of the source ----------

  function Priority(used: Used): (Row, Row) -> bool {
    (a, b) => CompareRows(a, b, used) <= 0
  }

  lemma PriorityIsPreorder(used: Used)
    ensures TotalPreorder(Priority(used))
  {
    forall a, b ensures Priority(used)(a, b) || Priority(used)(b, a) {
      CompareRowsFlips(a, b, used);
    }
    forall a, b, c | Priority(used)(a, b) && Priority(used)(b, c) ensures Priority(used)(a, c) {
      CompareRowsTransitive(a, b, c, used);
    }
  }

  ghost predicate DistinctDrafts(rows: seq<Row>) {
    forall i, j :: 0 <= i < j < |rows| ==> rows[i].draft != rows[j].draft
  }

  // Sorting and popping takes the least row; what stays is the set without it.
  lemma PopLeast(rows: seq<Row>, sorted: seq<Row>, used: Used)
    requires DistinctDrafts(rows) && rows != []
    requires Sorted(sorted, Priority(used)) && multiset(sorted) == multiset(rows)
    ensures sorted != [] && Elements(rows) != {} && sorted[0] == Least(Elements(rows), used)
    ensures DistinctDrafts(sorted[1..]) && Elements(sorted[1..]) == Elements(rows) - {sorted[0]}
  {
    assert rows[0] in Elements(rows);
    DraftsStayDistinct(rows, sorted);
    HeadIsLeast(sorted, used);
    LeastIsLeast(Elements(rows), used);
    LeastIsUnique(sorted[0], Least(Elements(rows), used), Elements(rows), used);
    TailOfDistinct(sorted);
  }

  lemma TailOfDistinct(rows: seq<Row>)
    requires DistinctDrafts(rows) && rows != []
    ensures DistinctDrafts(rows[1..]) && Elements(rows[1..]) == Elements(rows) - {rows[0]}
  {
    assert rows == [rows[0]] + rows[1..];
  }

  lemma HeadIsLeast(sorted: seq<Row>, used: Used)
    requires sorted != [] && Sorted(sorted, Priority(used))
    ensures IsLeast(sorted[0], Elements(sorted), used)
  {
    CompareRowsFlips(sorted[0], sorted[0], used);
    forall r | r in sorted ensures CompareRows(sorted[0], r, used) <= 0 {
      var i :| 0 <= i < |sorted| && sorted[i] == r;
      assert i > 0 ==> Priority(used)(sorted[0], sorted[i]);
    }
  }

  lemma DraftsStayDistinct(rows: seq<Row>, sorted: seq<Row>)
    requires DistinctDrafts(rows) && multiset(sorted) == multiset(rows)
    ensures DistinctDrafts(sorted) && UniqueDrafts(Elements(rows)) && Elements(sorted) == Elements(rows)
  {
    RearrangementKeepsItems(rows, sorted);
    assert NoDuplicates(rows);
    forall i, j | 0 <= i < j < |sorted| ensures sorted[i].draft != sorted[j].draft {
      assert sorted[i] in rows && sorted[j] in rows;
    }
  }

  // What has been chosen, continued on what is left, is the whole selection.
  ghost predicate Progress(rows: seq<Row>, limit: nat, ordered: seq<Row>, used: Used, chosen: seq<Row>) {
    && DistinctDrafts(ordered) && |chosen| <= limit
    && Picks(Elements(rows), NOTHING_USED, limit) == chosen + Picks(Elements(ordered), used, limit - |chosen|)
  }

  lemma PopKeepsProgress(
    rows: seq<Row>, limit: nat, ordered: seq<Row>, used: Used, chosen: seq<Row>, m: Row, left: seq<Row>)
    requires Progress(rows, limit, ordered, used, chosen) && |chosen| < limit && Elements(ordered) != {}
    requires m == Least(Elements(ordered), used)
    requires DistinctDrafts(left) && Elements(left) == Elements(ordered) - {m}
    ensures Progress(rows, limit, left, Use(m, used), chosen + [m])
  {
    PopUnfolds(Elements(ordered), Elements(left), m, used, limit - |chosen|);
    AppendPick(chosen, m, Picks(Elements(left), Use(m, used), limit - |chosen| - 1));
  }

  lemma PopUnfolds(rows: set<Row>, rest: set<Row>, m: Row, used: Used, n: nat)
    requires n > 0 && rows != {} && m == Least(rows, used) && rest == rows - {m}
    ensures Picks(rows, used, n) == [m] + Picks(rest, Use(m, used), n - 1)
  {
    PicksUnfold(rows, used, n);
  }

  lemma AppendPick(chosen: seq<Row>, m: Row, tail: seq<Row>)
    ensures chosen + ([m] + tail) == (chosen + [m]) + tail
  {
  }

  // ---------- What each pick is, over the picks before it ----------

  // What a key is looked up as.
  function Looked(key: Option<string>): string {
    match key
    case None => ""
    case Some(text) => text
  }

  ghost predicate NewTemplate(r: Row, earlier: seq<Row>) {
    forall e :: e in earlier ==> e.template != Some(Looked(r.template))
  }

  ghost predicate NewCategory(r: Row, earlier: seq<Row>) {
    forall e :: e in earlier ==> e.category != r.category
  }

  ghost predicate NewAngle(r: Row, earlier: seq<Row>) {
    forall e :: e in earlier ==> e.angle != Some(Looked(r.angle))
  }

  ghost predicate NewProduct(r: Row, earlier: seq<Row>) {
    forall e :: e in earlier ==> e.product != r.product
  }

  // Between rows of the same freshness: by template, category, angle, product and draft, as strings compare.
  ghost predicate WinsTie(m: Row, r: Row) {
    if Looked(m.template) != Looked(r.template) then Before(Looked(m.template), Looked(r.template))
    else if m.category != r.category then Before(m.category, r.category)
    else if Looked(m.angle) != Looked(r.angle) then Before(Looked(m.angle), Looked(r.angle))
    else if m.product != r.product then Before(m.product, r.product)
    else m.draft == r.draft || Before(m.draft, r.draft)
  }

  // A new template comes before everything else, then a new category, a new angle and a new product.
  ghost predicate GoesFirst(m: Row, r: Row, earlier: seq<Row>) {
    if NewTemplate(m, earlier) != NewTemplate(r, earlier) then NewTemplate(m, earlier)
    else if NewCategory(m, earlier) != NewCategory(r, earlier) then NewCategory(m, earlier)
    else if NewAngle(m, earlier) != NewAngle(r, earlier) then NewAngle(m, earlier)
    else if NewProduct(m, earlier) != NewProduct(r, earlier) then NewProduct(m, earlier)
    else WinsTie(m, r)
  }

  // The used sets hold what the earlier picks have.
  ghost predicate Records(used: Used, earlier: seq<Row>) {
    && (forall p :: p in used.products <==> exists e :: e in earlier && e.product == p)
    && (forall t :: t in used.templates <==> exists e :: e in earlier && e.template == t)
    && (forall c :: c in used.categories <==> exists e :: e in earlier && e.category == c)
    && (forall a :: a in used.angles <==> exists e :: e in earlier && e.angle == a)
  }

  lemma RecordsOneMore(used: Used, earlier: seq<Row>, m: Row)
    requires Records(used, earlier)
    ensures Records(Use(m, used), earlier + [m])
  {
    assert m in earlier + [m];
    assert forall e :: e in earlier + [m] <==> e in earlier || e == m;
  }

  lemma FreshIs(r: Row, used: Used, earlier: seq<Row>)
    requires Records(used, earlier)
    ensures FreshTemplate(r, used) <==> NewTemplate(r, earlier)
    ensures r.category !in used.categories <==> NewCategory(r, earlier)
    ensures Some(TextOf(r.angle)) !in used.angles <==> NewAngle(r, earlier)
    ensures r.product !in used.products <==> NewProduct(r, earlier)
  {
  }

  lemma WinsTieIs(m: Row, r: Row, used: Used)
    requires Novelty(m, used) == Novelty(r, used)
    ensures CompareRows(m, r, used) <= 0 <==> WinsTie(m, r)
  {
    CompareIsLexicographic(TextOf(m.template), TextOf(r.template));
    CompareIsLexicographic(m.category, r.category);
    CompareIsLexicographic(TextOf(m.angle), TextOf(r.angle));
    CompareIsLexicographic(m.product, r.product);
    CompareIsLexicographic(m.draft, r.draft);
  }

  // The weights order the rows lexicographically.
  lemma WeightsAreLexicographic(m: Row, r: Row, used: Used, earlier: seq<Row>)
    requires Records(used, earlier)
    ensures CompareRows(m, r, used) <= 0 <==> GoesFirst(m, r, earlier)
  {
    FreshIs(m, used, earlier);
    FreshIs(r, used, earlier);
    if Novelty(m, used) == Novelty(r, used) { WinsTieIs(m, r, used); }
  }

  // Each of these picks goes before every row that is left, given those picked earlier.
  ghost predicate PicksGoFirst(rows: set<Row>, earlier: seq<Row>, picks: seq<Row>) {
    forall i, r :: 0 <= i < |picks| && r in rows && r !in picks[..i] ==> GoesFirst(picks[i], r, earlier + picks[..i])
  }

  lemma GoFirstOneMore(rows: set<Row>, earlier: seq<Row>, m: Row, tail: seq<Row>)
    requires forall r :: r in rows ==> GoesFirst(m, r, earlier)
    requires PicksGoFirst(rows - {m}, earlier + [m], tail)
    ensures PicksGoFirst(rows, earlier, [m] + tail)
  {
    var picks := [m] + tail;
    forall i, r | 0 <= i < |picks| && r in rows && r !in picks[..i]
      ensures GoesFirst(picks[i], r, earlier + picks[..i])
    {
      if i == 0 {
        assert earlier + picks[..0] == earlier;
      } else {
        assert picks[..i] == [m] + tail[..i - 1];
        assert earlier + picks[..i] == (earlier + [m]) + tail[..i - 1];
        assert r in rows - {m} && r !in tail[..i - 1];
      }
    }
  }

  lemma LeastGoesFirst(m: Row, rows: set<Row>, used: Used, earlier: seq<Row>)
    requires IsLeast(m, rows, used) && Records(used, earlier)
    ensures forall r :: r in rows ==> GoesFirst(m, r, earlier)
  {
    forall r | r in rows ensures GoesFirst(m, r, earlier) {
      WeightsAreLexicographic(m, r, used, earlier);
    }
  }

  // What is picked of these rows after the earlier ones.
  ghost predicate Picking(rows: set<Row>, used: Used, n: nat, earlier: seq<Row>, picks: seq<Row>) {
    Records(used, earlier) && picks == Picks(rows, used, n)
  }

  // The first pick, and why it is enough that the others go first.
  lemma NextGoesFirst(rows: set<Row>, used: Used, n: nat, earlier: seq<Row>, picks: seq<Row>)
    returns (rest: set<Row>, next: Used, later: seq<Row>, tail: seq<Row>)
    requires n > 0 && rows != {} && Picking(rows, used, n, earlier, picks)
    ensures Picking(rest, next, n - 1, later, tail)
    ensures PicksGoFirst(rest, later, tail) ==> PicksGoFirst(rows, earlier, picks)
  {
    var m := Least(rows, used);
    rest, next, later, tail := rows - {m}, Use(m, used), earlier + [m], Picks(rows - {m}, Use(m, used), n - 1);
    RecordsOneMore(used, earlier, m);
    LeastIsLeast(rows, used);
    LeastGoesFirst(m, rows, used, earlier);
    PicksUnfold(rows, used, n);
    if PicksGoFirst(rest, later, tail) { GoFirstOneMore(rows, earlier, m, tail); }
  }

  lemma NothingGoesFirst(rows: set<Row>, used: Used, n: nat, earlier: seq<Row>, picks: seq<Row>)
    requires (n == 0 || rows == {}) && Picking(rows, used, n, earlier, picks)
    ensures PicksGoFirst(rows, earlier, picks)
  {
    assert |picks| == 0;
  }

  lemma {:induction false} EachPickGoesFirst(rows: set<Row>, used: Used, n: nat, earlier: seq<Row>, picks: seq<Row>)
    requires Picking(rows, used, n, earlier, picks)
    ensures PicksGoFirst(rows, earlier, picks)
    decreases n
  {
    if n == 0 || rows == {} {
      NothingGoesFirst(rows, used, n, earlier, picks);
    } else {
      var rest, next, later, tail := NextGoesFirst(rows, used, n, earlier, picks);
      EachPickGoesFirst(rest, next, n - 1, later, tail);
    }
  }

  // What a selection is: as many rows as the limit allows, none twice, each going before all that are left.
  ghost predicate Selects(rows: seq<Row>, limit: int, picks: seq<Row>) {
    && |picks| == Min(limit, |rows|)
    && (forall i :: 0 <= i < |picks| ==> picks[i] in rows)
    && (forall i, j :: 0 <= i < j < |picks| ==> picks[i] != picks[j])
    && (forall i, r :: 0 <= i < |picks| && r in rows && r !in picks[..i] ==> GoesFirst(picks[i], r, picks[..i]))
  }

  lemma {:induction false} ElementsCount(rows: seq<Row>)
    requires DistinctDrafts(rows)
    ensures |Elements(rows)| == |rows|
  {
    if rows == [] {
      assert Elements(rows) == {};
    } else {
      TailOfDistinct(rows);
      ElementsCount(rows[1..]);
      assert rows[0] in Elements(rows);
    }
  }

  lemma PicksSelect(rows: seq<Row>, limit: nat)
    requires DistinctDrafts(rows)
    ensures Selects(rows, limit, Picks(Elements(rows), NOTHING_USED, limit))
  {
    var picks := Picks(Elements(rows), NOTHING_USED, limit);
    ElementsCount(rows);
    PicksAreDistinct(Elements(rows), NOTHING_USED, limit);
    EachPickGoesFirst(Elements(rows), NOTHING_USED, limit, [], picks);
    forall i, r | 0 <= i < |picks| && r in rows && r !in picks[..i] ensures GoesFirst(picks[i], r, picks[..i]) {
      assert [] + picks[..i] == picks[..i];
      assert r in Elements(rows);
    }
  }

  // The result depends only on the set of rows, so not on the order the database returned them in: each pick is the
  // freshest row that is left, where a new template counts before a new category, angle and product.
  method SelectBatch(rows: seq<Row>, limit: int) returns (r: Result<seq<Row>, SelectionError>)
    requires DistinctDrafts(rows)
    ensures r.Ok? <==> 1 <= limit <= 12
    ensures r.Ok? ==> r.value == Picks(Elements(rows), NOTHING_USED, limit)
    ensures r.Ok? ==> Selects(rows, limit, r.value)
  {
    if !(1 <= limit <= 12) {
      return Err(LimitOutOfRange);
    }
    var used, ordered, chosen := NOTHING_USED, rows, [];
    while |ordered| > 0 && |chosen| < limit
      invariant Progress(rows, limit, ordered, used, chosen)
      decreases limit - |chosen|
    {
      PriorityIsPreorder(used);
      var sorted := Sort(ordered, Priority(used));
      PopLeast(ordered, sorted, used);
      PopKeepsProgress(rows, limit, ordered, used, chosen, sorted[0], sorted[1..]);
      ordered, chosen, used := sorted[1..], chosen + [sorted[0]], Use(sorted[0], used);
    }
    assert |ordered| == 0 ==> Elements(ordered) == {};
    PicksSelect(rows, limit);
    r := Ok(chosen);
  }
}
