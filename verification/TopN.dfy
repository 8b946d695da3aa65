/**
 Selecting the best tilings: collect candidates, drop repeated ones, sort with the default
 first, and keep a given number.
 */
module TopN {
  import opened Options
  import opened Text

  /** A candidate as the search returns it; `perf` is missing if the model's value is not finite. */
  datatype Raw = Raw(data: int, repr: Text, perf: Option<real>)

  datatype Candidate = Candidate(data: int, view: View)

  /** Everything about a candidate except its tiling data. */
  datatype View = View(isDefault: bool, perf: real, repr: Text)

  // ---------- collecting ----------

  /** The candidate made from a raw one; `worst` stands for a performance that is not finite. */
  function Made(raw: Raw, defaultRepr: Text, worst: real): Candidate {
    Candidate(raw.data,
              View(defaultRepr != [] && raw.repr == defaultRepr, if raw.perf.Some? then raw.perf.value else worst, raw.repr))
  }

  function CollectedTo(raw: seq<Raw>, defaultRepr: Text, worst: real, n: nat): seq<Candidate>
    requires n <= |raw|
  {
    if n == 0 then []
    else
      var before := CollectedTo(raw, defaultRepr, worst, n - 1);
      if raw[n - 1].repr == [] then before else before + [Made(raw[n - 1], defaultRepr, worst)]
  }

  predicate FoundDefault(raw: seq<Raw>, defaultRepr: Text) {
    exists i :: 0 <= i < |raw| && raw[i].repr == defaultRepr
  }

  /** All candidates, with the default tiling added if the search has not found it. */
  function Collected(raw: seq<Raw>, defaultRepr: Text, defaultData: int, worst: real): seq<Candidate> {
    CollectedTo(raw, defaultRepr, worst, |raw|)
    + if FoundDefault(raw, defaultRepr) then [] else [Candidate(defaultData, View(true, worst, defaultRepr))]
  }

  /** Fails exactly if there is no default tiling to fall back to. */
  method CollectCandidates(raw: seq<Raw>, defaultRepr: Text, defaultData: int, worst: real)
    returns (solutions: Option<seq<Candidate>>)
    ensures solutions == if defaultRepr == [] then None else Some(Collected(raw, defaultRepr, defaultData, worst))
  {
    var found := false;
    var all := [];
    var i := 0;
    while i < |raw|
      invariant 0 <= i <= |raw| && all == CollectedTo(raw, defaultRepr, worst, i)
      invariant found <==> defaultRepr != [] && exists j :: 0 <= j < i && raw[j].repr == defaultRepr
    {
      if raw[i].repr != [] {
        var solution := Made(raw[i], defaultRepr, worst);
        if solution.view.isDefault {
          found := true;
        }
        all := all + [solution];
      }
      i := i + 1;
    }
    if defaultRepr != [] && !found {
      found := true;
      all := all + [Candidate(defaultData, View(true, worst, defaultRepr))];
    }
    if !found {
      return None;
    }
    assert all + [] == all;
    solutions := Some(all);
  }

  // ---------- dropping repeated candidates ----------

  /** The first index with the given text, or the length. */
  function Find(kept: seq<Candidate>, repr: Text, n: nat): (i: nat)
    requires n <= |kept|
    ensures i <= |kept| && (i < |kept| ==> i < n && kept[i].view.repr == repr)
    ensures i == |kept| ==> forall j | 0 <= j < n :: kept[j].view.repr != repr
  {
    if n == 0 then |kept|
    else
      var i := Find(kept, repr, n - 1);
      if i < |kept| then i else if kept[n - 1].view.repr == repr then n - 1 else |kept|
  }

  function Abs(x: real): real {
    if x < 0.0 then -x else x
  }

  /** What one more candidate does to the kept ones: a new text is appended, and a repeated one replaces the kept
      one only to make it the default, at practically the same performance. */
  function Keep(kept: seq<Candidate>, c: Candidate): seq<Candidate> {
    var i := Find(kept, c.view.repr, |kept|);
    if c.view.repr == [] then kept
    else if i == |kept| then kept + [c]
    else if Abs(kept[i].view.perf - c.view.perf) < 0.00000001 && !kept[i].view.isDefault && c.view.isDefault then kept[i := c]
    else kept
  }

  function DedupTo(solutions: seq<Candidate>, n: nat): seq<Candidate>
    requires n <= |solutions|
  {
    if n == 0 then [] else Keep(DedupTo(solutions, n - 1), solutions[n - 1])
  }

  function Dedup(solutions: seq<Candidate>): seq<Candidate> {
    DedupTo(solutions, |solutions|)
  }

  /** The table maps every kept text to the index of its candidate. */
  predicate Indexes(table: map<Text, nat>, kept: seq<Candidate>) {
    && (forall r | r in table :: table[r] < |kept| && kept[table[r]].view.repr == r)
    && (forall j | 0 <= j < |kept| :: kept[j].view.repr in table)
  }

  /** If no text is kept twice, the table finds what a search finds. */
  lemma IndexFinds(table: map<Text, nat>, kept: seq<Candidate>, r: Text)
    requires Indexes(table, kept) && DistinctReprs(kept)
    ensures Find(kept, r, |kept|) == if r in table then table[r] else |kept|
  {
  }

  method DeduplicateCandidateSolutions(solutions: seq<Candidate>) returns (deduplicated: seq<Candidate>)
    ensures deduplicated == Dedup(solutions)
  {
    var reprToIndex: map<Text, nat> := map[];
    deduplicated := [];
    var i := 0;
    while i < |solutions|
      invariant 0 <= i <= |solutions| && deduplicated == DedupTo(solutions, i) && Indexes(reprToIndex, deduplicated)
    {
      var solution := solutions[i];
      var repr := solution.view.repr;
      DedupReprs(solutions, i);
      IndexFinds(reprToIndex, deduplicated, repr);
      if repr != [] {
        if repr !in reprToIndex {
          reprToIndex := reprToIndex[repr := |deduplicated|];
          deduplicated := deduplicated + [solution];
        } else {
          var kept := deduplicated[reprToIndex[repr]];
          if Abs(kept.view.perf - solution.view.perf) < 0.00000001 {
            if !kept.view.isDefault && solution.view.isDefault {
              deduplicated := deduplicated[reprToIndex[repr] := solution];
            }
          }
        }
      }
      i := i + 1;
    }
  }

  predicate DistinctReprs(solutions: seq<Candidate>) {
    && (forall i | 0 <= i < |solutions| :: solutions[i].view.repr != [])
    && forall i, j | 0 <= i < j < |solutions| :: solutions[i].view.repr != solutions[j].view.repr
  }

  predicate HasRepr(solutions: seq<Candidate>, r: Text) {
    exists i :: 0 <= i < |solutions| && solutions[i].view.repr == r
  }

  /** No text is lost when another candidate comes. */
  lemma KeepKeeps(kept: seq<Candidate>, c: Candidate, r: Text)
    ensures HasRepr(Keep(kept, c), r) <==> HasRepr(kept, r) || (r == c.view.repr && r != [])
  {
    var after := Keep(kept, c);
    if HasRepr(kept, r) {
      var j :| 0 <= j < |kept| && kept[j].view.repr == r;
      assert after[j].view.repr == r;
    } else if r == c.view.repr && r != [] {
      assert after[|kept|].view.repr == r;
    }
    if HasRepr(after, r) {
      var j :| 0 <= j < |after| && after[j].view.repr == r;
      if j < |kept| { assert kept[j].view.repr == r; }
    }
  }

  /** The texts that occur are kept, each exactly once. */
  lemma {:induction false} DedupReprs(solutions: seq<Candidate>, n: nat)
    requires n <= |solutions|
    ensures DistinctReprs(DedupTo(solutions, n))
    ensures forall r :: HasRepr(DedupTo(solutions, n), r) <==> r != [] && HasRepr(solutions[..n], r)
  {
    if 0 < n {
      var init := solutions[..n - 1];
      DedupReprs(solutions, n - 1);
      assert solutions[..n] == init + [solutions[n - 1]];
      forall r ensures HasRepr(DedupTo(solutions, n), r) <==> r != [] && HasRepr(solutions[..n], r) {
        KeepKeeps(DedupTo(solutions, n - 1), solutions[n - 1], r);
        ReprAppended(init, solutions[n - 1], r);
      }
    }
  }

  lemma ReprAppended(solutions: seq<Candidate>, c: Candidate, r: Text)
    ensures HasRepr(solutions + [c], r) <==> HasRepr(solutions, r) || c.view.repr == r
  {
    var all := solutions + [c];
    if HasRepr(solutions, r) {
      var i :| 0 <= i < |solutions| && solutions[i].view.repr == r;
      assert all[i].view.repr == r;
    }
    assert all[|solutions|] == c;
  }

  /** Only candidates that were there are kept. */
  lemma {:induction false} DedupFrom(solutions: seq<Candidate>, n: nat)
    requires n <= |solutions|
    ensures forall c | c in DedupTo(solutions, n) :: c in solutions[..n]
  {
    if 0 < n {
      DedupFrom(solutions, n - 1);
      assert solutions[..n] == solutions[..n - 1] + [solutions[n - 1]];
    }
  }

  // ---------- sorting ----------

  /** The default first, then by performance, then by text. */
  predicate Less(a: View, b: View) {
    if a.isDefault != b.isDefault then a.isDefault
    else if a.perf != b.perf then a.perf < b.perf
    else TextLess(a.repr, b.repr)
  }

  lemma LessTotal(a: View, b: View)
    ensures Less(a, b) || a == b || Less(b, a)
  {
    TextLessTotal(a.repr, b.repr);
  }

  lemma LessTransitive(a: View, b: View, c: View)
    requires Less(a, b) && Less(b, c)
    ensures Less(a, c)
  {
    if a.isDefault == b.isDefault == c.isDefault && a.perf == b.perf == c.perf {
      TextLessTransitive(a.repr, b.repr, c.repr);
    }
  }

  lemma LessIrreflexive(a: View)
    ensures !Less(a, a)
  {
    TextLessIrreflexive(a.repr);
  }

  predicate Ordered(solutions: seq<Candidate>) {
    forall i, j | 0 <= i < j < |solutions| :: Less(solutions[i].view, solutions[j].view)
  }

  /** Stands for the library sort, on candidates with distinct texts. */
  method Sort(solutions: seq<Candidate>) returns (sorted: seq<Candidate>)
    requires DistinctReprs(solutions)
    ensures Ordered(sorted) && multiset(sorted) == multiset(solutions)
  {
    sorted := [];
    var i := 0;
    while i < |solutions|
      invariant 0 <= i <= |solutions|
      invariant Ordered(sorted) && multiset(sorted) == multiset(solutions[..i])
    {
      assert solutions[..i + 1] == solutions[..i] + [solutions[i]];
      forall c | c in sorted ensures c.view.repr != solutions[i].view.repr {
        assert c in multiset(solutions[..i]);
      }
      sorted := InsertOrdered(sorted, solutions[i]);
      i := i + 1;
    }
    assert solutions[..i] == solutions;
  }

  method InsertOrdered(sorted: seq<Candidate>, c: Candidate) returns (after: seq<Candidate>)
    requires Ordered(sorted) && forall d | d in sorted :: d.view.repr != c.view.repr
    ensures Ordered(after) && multiset(after) == multiset(sorted) + multiset{c}
  {
    var k := 0;
    while k < |sorted| && Less(sorted[k].view, c.view)
      invariant 0 <= k <= |sorted| && forall j | 0 <= j < k :: Less(sorted[j].view, c.view)
    {
      k := k + 1;
    }
    after := sorted[..k] + [c] + sorted[k..];
    assert sorted == sorted[..k] + sorted[k..];
    forall j | k <= j < |sorted| ensures Less(c.view, sorted[j].view) {
      assert sorted[j] in sorted && sorted[k] in sorted;
      LessTotal(sorted[k].view, c.view);
      if k < j { LessTransitive(c.view, sorted[k].view, sorted[j].view); }
    }
    InsertedOrdered(sorted, c, k);
  }

  lemma InsertedOrdered(sorted: seq<Candidate>, c: Candidate, k: nat)
    requires Ordered(sorted) && k <= |sorted|
    requires forall j | 0 <= j < k :: Less(sorted[j].view, c.view)
    requires forall j | k <= j < |sorted| :: Less(c.view, sorted[j].view)
    ensures Ordered(sorted[..k] + [c] + sorted[k..])
  {
  }

  function Views(solutions: seq<Candidate>): (r: seq<View>)
    ensures |r| == |solutions| && forall i | 0 <= i < |r| :: r[i] == solutions[i].view
  {
    if solutions == [] then [] else Views(solutions[..|solutions| - 1]) + [solutions[|solutions| - 1].view]
  }

  predicate OrderedViews(views: seq<View>) {
    forall i, j | 0 <= i < j < |views| :: Less(views[i], views[j])
  }

  /** An ordered list is determined by its elements. */
  lemma {:induction false} OrderedUnique(a: seq<View>, b: seq<View>)
    requires OrderedViews(a) && OrderedViews(b) && forall v :: v in a <==> v in b
    ensures a == b
  {
    assert a != [] ==> a[0] in b;
    assert b != [] ==> b[0] in a;
    if a != [] && b != [] {
      if a[0] != b[0] {
        LessTransitive(a[0], b[0], a[0]);
        LessIrreflexive(a[0]);
      }
      forall v ensures v in a[1..] <==> v in b[1..] {
        NotInRest(a);
        NotInRest(b);
        assert v in a <==> v == a[0] || v in a[1..];
        assert v in b <==> v == b[0] || v in b[1..];
      }
      OrderedUnique(a[1..], b[1..]);
    }
  }

  lemma NotInRest(a: seq<View>)
    requires OrderedViews(a) && a != []
    ensures a[0] !in a[1..]
  {
    LessIrreflexive(a[0]);
  }

  // ---------- selecting ----------

  function Truncated(sorted: seq<Candidate>, topn: int): seq<Candidate> {
    if topn > 0 && |sorted| > topn then sorted[..topn] else sorted
  }

  /** An ordered arrangement of the candidates without repetition. */
  predicate Arranged(solutions: seq<Candidate>, sorted: seq<Candidate>) {
    Ordered(sorted) && multiset(sorted) == multiset(Dedup(solutions))
  }

  /** What may be selected: the first candidates of an ordered arrangement. */
  ghost predicate IsSelection(solutions: seq<Candidate>, topn: int, selected: seq<Candidate>) {
    exists sorted :: Arranged(solutions, sorted) && selected == Truncated(sorted, topn)
  }

  method SelectTopnCandidateSolutions(solutions: seq<Candidate>, topn: int) returns (selected: seq<Candidate>)
    ensures IsSelection(solutions, topn, selected)
  {
    var deduplicated := DeduplicateCandidateSolutions(solutions);
    DedupReprs(solutions, |solutions|);
    selected := Sort(deduplicated);
    assert Arranged(solutions, selected);
    if topn > 0 && |selected| > topn {
      selected := selected[..topn];
    }
  }

  lemma {:induction false} CollectedViews(raw: seq<Raw>, defaultRepr: Text, worst: real, n: nat)
    requires n <= |raw|
    ensures forall c | c in CollectedTo(raw, defaultRepr, worst, n) ::
              c.view.repr != [] && exists i :: 0 <= i < n && c == Made(raw[i], defaultRepr, worst)
    ensures forall i | 0 <= i < n && raw[i].repr != [] :: Made(raw[i], defaultRepr, worst) in CollectedTo(raw, defaultRepr, worst, n)
  {
    if 0 < n { CollectedViews(raw, defaultRepr, worst, n - 1); }
  }

  /** Exactly the candidates with the default's text are defaults, and there is one. */
  lemma CollectedDefault(raw: seq<Raw>, defaultRepr: Text, defaultData: int, worst: real)
    requires defaultRepr != []
    ensures var all := Collected(raw, defaultRepr, defaultData, worst);
            && (forall c | c in all :: c.view.repr != [] && (c.view.isDefault <==> c.view.repr == defaultRepr))
            && HasRepr(all, defaultRepr)
  {
    var all := Collected(raw, defaultRepr, defaultData, worst);
    CollectedViews(raw, defaultRepr, worst, |raw|);
    if FoundDefault(raw, defaultRepr) {
      var i :| 0 <= i < |raw| && raw[i].repr == defaultRepr;
      var c := Made(raw[i], defaultRepr, worst);
      assert c in all;
      var j :| 0 <= j < |all| && all[j] == c;
      assert all[j].view.repr == defaultRepr;
    } else {
      assert all[|all| - 1].view.repr == defaultRepr;
    }
  }

  lemma SortedFrom(solutions: seq<Candidate>, sorted: seq<Candidate>)
    requires Arranged(solutions, sorted)
    ensures forall c :: c in sorted <==> c in Dedup(solutions)
    ensures forall c | c in sorted :: c in solutions
  {
    forall c ensures c in sorted <==> c in Dedup(solutions) {
      assert c in sorted <==> c in multiset(sorted);
    }
    DedupFrom(solutions, |solutions|);
    assert solutions[..|solutions|] == solutions;
  }

  /** In the arranged candidates every text is there once, and the default comes first. */
  lemma ArrangedDefaultFirst(raw: seq<Raw>, defaultRepr: Text, defaultData: int, worst: real, sorted: seq<Candidate>)
    requires defaultRepr != [] && Arranged(Collected(raw, defaultRepr, defaultData, worst), sorted)
    ensures sorted != [] && sorted[0].view.isDefault
    ensures forall i | 0 < i < |sorted| :: !sorted[i].view.isDefault
    ensures DistinctReprs(sorted)
  {
    var all := Collected(raw, defaultRepr, defaultData, worst);
    CollectedDefault(raw, defaultRepr, defaultData, worst);
    SortedFrom(all, sorted);
    DedupReprs(all, |all|);
    assert all[..|all|] == all;
    SortedDistinct(all, sorted);
    var i :| 0 <= i < |Dedup(all)| && Dedup(all)[i].view.repr == defaultRepr;
    assert Dedup(all)[i] in sorted;
    var j :| 0 <= j < |sorted| && sorted[j] == Dedup(all)[i];
    assert sorted[j].view.isDefault;
    forall i | 0 < i < |sorted| ensures !sorted[i].view.isDefault {
      assert sorted[i] in all && sorted[0] in all;
    }
  }

  lemma SortedDistinct(solutions: seq<Candidate>, sorted: seq<Candidate>)
    requires Arranged(solutions, sorted)
    ensures DistinctReprs(sorted)
  {
    var kept := Dedup(solutions);
    DedupReprs(solutions, |solutions|);
    SortedFrom(solutions, sorted);
    forall i | 0 <= i < |sorted| ensures sorted[i].view.repr != [] {
      assert sorted[i] in kept;
    }
    forall i, j | 0 <= i < j < |sorted| ensures sorted[i].view.repr != sorted[j].view.repr {
      assert sorted[i] in kept && sorted[j] in kept && Less(sorted[i].view, sorted[j].view);
      LessIrreflexive(sorted[i].view);
      var a :| 0 <= a < |kept| && kept[a] == sorted[i];
      var b :| 0 <= b < |kept| && kept[b] == sorted[j];
      assert a != b;
    }
  }

  /** The selection: distinct texts, at most `topn`, the default alone in front, the rest in order, and nothing that
      is left out is better than what is kept. */
  ghost predicate BestSelection(all: seq<Candidate>, topn: int, selected: seq<Candidate>) {
    && DistinctReprs(selected) && 1 <= |selected| <= topn
    && selected[0].view.isDefault && (forall i | 0 < i < |selected| :: !selected[i].view.isDefault)
    && (forall i, j | 0 < i < j < |selected| ::
          selected[i].view.perf < selected[j].view.perf
          || (selected[i].view.perf == selected[j].view.perf && TextLess(selected[i].view.repr, selected[j].view.repr)))
    && (forall c, k | c in Dedup(all) && c !in selected && 0 <= k < |selected| :: Less(selected[k].view, c.view))
  }

  lemma TruncatedIsBest(raw: seq<Raw>, defaultRepr: Text, defaultData: int, worst: real, topn: int, sorted: seq<Candidate>)
    requires defaultRepr != [] && topn >= 1 && Arranged(Collected(raw, defaultRepr, defaultData, worst), sorted)
    ensures BestSelection(Collected(raw, defaultRepr, defaultData, worst), topn, Truncated(sorted, topn))
  {
    ArrangedDefaultFirst(raw, defaultRepr, defaultData, worst, sorted);
    var all, selected := Collected(raw, defaultRepr, defaultData, worst), Truncated(sorted, topn);
    SortedFrom(all, sorted);
    assert forall i | 0 <= i < |selected| :: sorted[i] == selected[i] && selected[i] in selected;
    forall i, j | 0 < i < j < |selected|
      ensures selected[i].view.perf < selected[j].view.perf
              || (selected[i].view.perf == selected[j].view.perf && TextLess(selected[i].view.repr, selected[j].view.repr))
    {
      assert Less(sorted[i].view, sorted[j].view);
    }
    forall c, k | c in Dedup(all) && c !in selected && 0 <= k < |selected| ensures Less(selected[k].view, c.view) {
      assert c in sorted;
      var j :| 0 <= j < |sorted| && sorted[j] == c;
      assert Less(sorted[k].view, sorted[j].view);
    }
  }

  lemma SelectionIsBest(raw: seq<Raw>, defaultRepr: Text, defaultData: int, worst: real, topn: int, selected: seq<Candidate>)
    requires defaultRepr != [] && topn >= 1
    requires IsSelection(Collected(raw, defaultRepr, defaultData, worst), topn, selected)
    ensures BestSelection(Collected(raw, defaultRepr, defaultData, worst), topn, selected)
  {
    var sorted :| Arranged(Collected(raw, defaultRepr, defaultData, worst), sorted) && selected == Truncated(sorted, topn);
    TruncatedIsBest(raw, defaultRepr, defaultData, worst, topn, sorted);
  }

  // ---------- the order of the input ----------

  /** Equal texts mean equal performance. */
  predicate PerfByRepr(raw: seq<Raw>) {
    forall i, j | 0 <= i < |raw| && 0 <= j < |raw| && raw[i].repr == raw[j].repr :: raw[i].perf == raw[j].perf
  }

  /** All views that occur among the candidates. */
  predicate HasView(solutions: seq<Candidate>, v: View) {
    exists i :: 0 <= i < |solutions| && solutions[i].view == v
  }

  /** With equal performance for equal texts, the views that are kept are those that occur. */
  lemma DedupViews(solutions: seq<Candidate>, v: View)
    requires forall c, d | c in solutions && d in solutions && c.view.repr == d.view.repr :: c.view == d.view
    requires forall c | c in solutions :: c.view.repr != []
    ensures HasView(Dedup(solutions), v) <==> HasView(solutions, v)
  {
    var kept := Dedup(solutions);
    assert solutions[..|solutions|] == solutions;
    DedupFrom(solutions, |solutions|);
    DedupReprs(solutions, |solutions|);
    if HasView(kept, v) {
      var i :| 0 <= i < |kept| && kept[i].view == v;
      assert kept[i] in solutions;
      var j :| 0 <= j < |solutions| && solutions[j] == kept[i];
      assert solutions[j].view == v;
    }
    if HasView(solutions, v) {
      var i :| 0 <= i < |solutions| && solutions[i].view == v;
      assert solutions[i] in solutions;
      assert HasRepr(solutions, v.repr);
      var j :| 0 <= j < |kept| && kept[j].view.repr == v.repr;
      assert kept[j] in solutions;
    }
  }

  lemma CollectedByRepr(raw: seq<Raw>, defaultRepr: Text, defaultData: int, worst: real)
    requires PerfByRepr(raw) && defaultRepr != []
    ensures var all := Collected(raw, defaultRepr, defaultData, worst);
            && (forall c, d | c in all && d in all && c.view.repr == d.view.repr :: c.view == d.view)
            && (forall c | c in all :: c.view.repr != [])
  {
    CollectedViews(raw, defaultRepr, worst, |raw|);
  }

  /** The views that are collected do not depend on the order of the raw candidates. */
  lemma CollectedSameViews(raw: seq<Raw>, other: seq<Raw>, defaultRepr: Text, defaultData: int, worst: real, v: View)
    requires multiset(raw) == multiset(other) && defaultRepr != []
    requires HasView(Collected(raw, defaultRepr, defaultData, worst), v)
    ensures HasView(Collected(other, defaultRepr, defaultData, worst), v)
  {
    var a, b := Collected(raw, defaultRepr, defaultData, worst), Collected(other, defaultRepr, defaultData, worst);
    CollectedViews(raw, defaultRepr, worst, |raw|);
    CollectedViews(other, defaultRepr, worst, |other|);
    SameFound(raw, other, defaultRepr);
    var i :| 0 <= i < |a| && a[i].view == v;
    if i < |CollectedTo(raw, defaultRepr, worst, |raw|)| {
      assert a[i] in CollectedTo(raw, defaultRepr, worst, |raw|);
      var j :| 0 <= j < |raw| && a[i] == Made(raw[j], defaultRepr, worst);
      assert raw[j] in multiset(other);
      var k :| 0 <= k < |other| && other[k] == raw[j];
      assert Made(other[k], defaultRepr, worst) in b;
      var m :| 0 <= m < |b| && b[m] == Made(other[k], defaultRepr, worst);
      assert b[m].view == v;
    } else {
      assert b[|b| - 1].view == v;
    }
  }

  lemma SameFound(raw: seq<Raw>, other: seq<Raw>, defaultRepr: Text)
    requires multiset(raw) == multiset(other)
    ensures FoundDefault(raw, defaultRepr) <==> FoundDefault(other, defaultRepr)
  {
    if FoundDefault(raw, defaultRepr) {
      var i :| 0 <= i < |raw| && raw[i].repr == defaultRepr;
      assert raw[i] in multiset(other);
      var k :| 0 <= k < |other| && other[k] == raw[i];
    }
    if FoundDefault(other, defaultRepr) {
      var i :| 0 <= i < |other| && other[i].repr == defaultRepr;
      assert other[i] in multiset(raw);
      var k :| 0 <= k < |raw| && raw[k] == other[i];
    }
  }

  lemma SortedViews(solutions: seq<Candidate>, sorted: seq<Candidate>, v: View)
    requires Arranged(solutions, sorted)
    ensures v in Views(sorted) <==> HasView(Dedup(solutions), v)
    ensures OrderedViews(Views(sorted))
  {
    SortedFrom(solutions, sorted);
    if v in Views(sorted) {
      var i :| 0 <= i < |sorted| && Views(sorted)[i] == v;
      assert sorted[i] in Dedup(solutions);
      var j :| 0 <= j < |Dedup(solutions)| && Dedup(solutions)[j] == sorted[i];
      assert Dedup(solutions)[j].view == v;
    }
    if HasView(Dedup(solutions), v) {
      var i :| 0 <= i < |Dedup(solutions)| && Dedup(solutions)[i].view == v;
      assert Dedup(solutions)[i] in sorted;
      var j :| 0 <= j < |sorted| && sorted[j] == Dedup(solutions)[i];
      assert Views(sorted)[j] == v;
    }
  }

  lemma SameTruncated(raw: seq<Raw>, other: seq<Raw>, defaultRepr: Text, defaultData: int, worst: real, topn: int,
                      sorted: seq<Candidate>, otherSorted: seq<Candidate>)
    requires multiset(raw) == multiset(other) && PerfByRepr(raw) && PerfByRepr(other) && defaultRepr != []
    requires Arranged(Collected(raw, defaultRepr, defaultData, worst), sorted)
    requires Arranged(Collected(other, defaultRepr, defaultData, worst), otherSorted)
    ensures Views(Truncated(sorted, topn)) == Views(Truncated(otherSorted, topn))
  {
    var a, b := Collected(raw, defaultRepr, defaultData, worst), Collected(other, defaultRepr, defaultData, worst);
    forall v ensures v in Views(sorted) <==> v in Views(otherSorted) {
      SameViews(raw, other, defaultRepr, defaultData, worst, sorted, otherSorted, v);
    }
    SortedViews(a, sorted, View(true, worst, []));
    SortedViews(b, otherSorted, View(true, worst, []));
    OrderedUnique(Views(sorted), Views(otherSorted));
    assert forall i | 0 <= i < |sorted| :: Views(sorted)[i] == Views(otherSorted)[i];
  }

  /** If equal texts have equal performance, what is selected does not depend on the order of the input,
      up to the tiling data of candidates with the same text. */
  lemma OrderDoesNotMatter(raw: seq<Raw>, other: seq<Raw>, defaultRepr: Text, defaultData: int, worst: real, topn: int,
                           selected: seq<Candidate>, otherSelected: seq<Candidate>)
    requires multiset(raw) == multiset(other) && PerfByRepr(raw) && PerfByRepr(other) && defaultRepr != []
    requires IsSelection(Collected(raw, defaultRepr, defaultData, worst), topn, selected)
    requires IsSelection(Collected(other, defaultRepr, defaultData, worst), topn, otherSelected)
    ensures Views(selected) == Views(otherSelected)
  {
    var a, b := Collected(raw, defaultRepr, defaultData, worst), Collected(other, defaultRepr, defaultData, worst);
    var sorted :| Arranged(a, sorted) && selected == Truncated(sorted, topn);
    var otherSorted :| Arranged(b, otherSorted) && otherSelected == Truncated(otherSorted, topn);
    SameTruncated(raw, other, defaultRepr, defaultData, worst, topn, sorted, otherSorted);
  }

  lemma SameViews(raw: seq<Raw>, other: seq<Raw>, defaultRepr: Text, defaultData: int, worst: real,
                  sorted: seq<Candidate>, otherSorted: seq<Candidate>, v: View)
    requires multiset(raw) == multiset(other) && PerfByRepr(raw) && PerfByRepr(other) && defaultRepr != []
    requires Arranged(Collected(raw, defaultRepr, defaultData, worst), sorted)
    requires Arranged(Collected(other, defaultRepr, defaultData, worst), otherSorted)
    ensures v in Views(sorted) <==> v in Views(otherSorted)
  {
    var a, b := Collected(raw, defaultRepr, defaultData, worst), Collected(other, defaultRepr, defaultData, worst);
    CollectedByRepr(raw, defaultRepr, defaultData, worst);
    CollectedByRepr(other, defaultRepr, defaultData, worst);
    SortedViews(a, sorted, v);
    SortedViews(b, otherSorted, v);
    DedupViews(a, v);
    DedupViews(b, v);
    if HasView(a, v) { CollectedSameViews(raw, other, defaultRepr, defaultData, worst, v); }
    if HasView(b, v) { CollectedSameViews(other, raw, defaultRepr, defaultData, worst, v); }
  }
}
