/** The memory-map summary: consecutive lines of equal path and permissions merged into one. */
module MapRegions {
  import opened Basics

  const WIDTH: nat := 0x1_0000_0000_0000_0000

  /** The fields of a line of the map. */
  type Fields = seq<string>

  /** What a line says once its address range is taken apart and read by hex. */
  datatype Entry = Entry(startText: string, endText: string, start: nat, end: nat, perms: string, path: string)

  /** What the summary prints for a run of lines. */
  datatype MapSummary = MapSummary(startAddr: string, endAddr: string, perms: string, path: string, sizeBytes: nat)

  function Split(s: string, c: char): (r: seq<string>)
    ensures r != []
  {
    if s == [] then [""] else
      var rest := Split(s[1..], c);
      if s[0] == c then [""] + rest else [[s[0]] + rest[0]] + rest[1..]
  }

  function Join(words: seq<string>): string {
    if words == [] then "" else if |words| == 1 then words[0] else words[0] + " " + Join(words[1..])
  }

  function Parse(fields: Fields, hex: string -> nat): Option<Entry> {
    if |fields| < 5 then None else
      var addrs := Split(fields[0], '-');
      if |addrs| != 2 then None else
        Some(Entry(addrs[0], addrs[1], hex(addrs[0]), hex(addrs[1]), fields[1],
                   if |fields| >= 6 then Join(fields[5..]) else "[anonymous]"))
  }

  // ---------------------------------------------------------------- reading a line

  /** The only c in s stands at k. */
  predicate OnlyAt(s: string, c: char, k: int) {
    0 <= k < |s| && s[k] == c && c !in s[..k] && c !in s[k + 1..]
  }

  /** Splitting at a first separator, or at none. */
  lemma {:induction false} SplitFirst(s: string, c: char, k: nat)
    requires k <= |s| && c !in s[..k] && (k < |s| ==> s[k] == c)
    ensures Split(s, c) == if k == |s| then [s] else [s[..k]] + Split(s[k + 1..], c)
  {
    if k > 0 {
      assert s[1..][..k - 1] == s[..k][1..];
      assert s[0] == s[..k][0];
      SplitFirst(s[1..], c, k - 1);
      assert s[..k] == [s[0]] + s[1..][..k - 1];
      assert k < |s| ==> s[1..][k..] == s[k + 1..];
      assert k == |s| ==> s == [s[0]] + s[1..];
    } else if s != [] {
      assert s[..0] == [];
    }
  }

  lemma {:induction false} FirstOf(s: string, c: char) returns (k: nat)
    ensures k <= |s| && c !in s[..k] && (k < |s| ==> s[k] == c)
  {
    if s == [] || s[0] == c { return 0; }
    k := FirstOf(s[1..], c);
    k := k + 1;
    assert s[..k] == [s[0]] + s[1..][..k - 1];
  }

  lemma SplitsInTwo(s: string, c: char)
    ensures |Split(s, c)| == 2 <==> exists k :: OnlyAt(s, c, k)
    ensures forall k :: OnlyAt(s, c, k) ==> Split(s, c) == [s[..k], s[k + 1..]]
  {
    forall k | OnlyAt(s, c, k) ensures Split(s, c) == [s[..k], s[k + 1..]] {
      SplitFirst(s, c, k);
      assert s[k + 1..][..|s| - k - 1] == s[k + 1..];
      SplitFirst(s[k + 1..], c, |s| - k - 1);
    }
    if |Split(s, c)| == 2 {
      var k := FirstOf(s, c);
      SplitFirst(s, c, k);
      var rest := s[k + 1..];
      var j := FirstOf(rest, c);
      SplitFirst(rest, c, j);
      assert j == |rest| ==> rest[..j] == rest;
      assert OnlyAt(s, c, k);
    }
  }

  /** Words joined by spaces can be told apart again. */
  lemma {:induction false} SplitJoin(words: seq<string>)
    requires words != [] && forall i :: 0 <= i < |words| ==> ' ' !in words[i]
    ensures Split(Join(words), ' ') == words
  {
    var s, k := Join(words), |words[0]|;
    if |words| > 1 {
      SplitJoin(words[1..]);
      assert s[..k] == words[0] && s[k + 1..] == Join(words[1..]);
    } else {
      assert s[..k] == s;
    }
    SplitFirst(s, ' ', k);
  }

  /** A line counts if it has five fields and one dash in the first; what is then read from it. */
  lemma LineCounts(fields: Fields, hex: string -> nat)
    ensures Parse(fields, hex).Some? <==> |fields| >= 5 && exists k :: OnlyAt(fields[0], '-', k)
    ensures forall k :: |fields| >= 5 && OnlyAt(fields[0], '-', k) ==>
      var e := Parse(fields, hex).value;
      && e.startText == fields[0][..k] && e.endText == fields[0][k + 1..]
      && e.start == hex(e.startText) && e.end == hex(e.endText) && e.perms == fields[1]
      && (|fields| == 5 ==> e.path == "[anonymous]")
      && (|fields| > 5 && (forall i :: 5 <= i < |fields| ==> ' ' !in fields[i]) ==> Split(e.path, ' ') == fields[5..])
  {
    if |fields| >= 5 { SplitsInTwo(fields[0], '-'); }
    if |fields| > 5 && (forall i :: 5 <= i < |fields| ==> ' ' !in fields[i]) { SplitJoin(fields[5..]); }
  }

  /** The lines that count, in order. */
  function Entries(lines: seq<Fields>, hex: string -> nat): seq<Entry> {
    if lines == [] then [] else
      var last := |lines| - 1;
      match Parse(lines[last], hex)
      case None => Entries(lines[..last], hex)
      case Some(e) => Entries(lines[..last], hex) + [e]
  }

  function Wrap(x: int): nat {
    x % WIDTH
  }

  lemma WrapSum(x: int, y: int, t: int)
    requires Wrap(x) == Wrap(y)
    ensures Wrap(x + t) == Wrap(y + t)
  {
    assert x + t == y + t + (x / WIDTH - y / WIDTH) * WIDTH;
  }

  lemma WrapTwice(x: int)
    ensures Wrap(Wrap(x)) == Wrap(x)
  {
  }

  /** The bytes of a line, as 64-bit arithmetic has it. */
  function Size(e: Entry): nat {
    Wrap(e.end - e.start)
  }

  predicate Same(a: Entry, b: Entry) {
    a.path == b.path && a.perms == b.perms
  }

  function Total(es: seq<Entry>): nat {
    if es == [] then 0 else Total(es[..|es| - 1]) + Size(es[|es| - 1])
  }

  type Run = r: seq<Entry> | r != [] witness [Entry("", "", 0, 0, "", "")]

  function SummaryOf(r: Run): MapSummary {
    MapSummary(r[0].startText, Last(r).endText, r[0].perms, r[0].path, Wrap(Total(r)))
  }

  function SummariesOf(runs: seq<Run>): (r: seq<MapSummary>)
    ensures |r| == |runs| && forall i :: 0 <= i < |runs| ==> r[i] == SummaryOf(runs[i])
  {
    seq(|runs|, i requires 0 <= i < |runs| => SummaryOf(runs[i]))
  }

  function Flatten(runs: seq<Run>): seq<Entry> {
    if runs == [] then [] else Flatten(runs[..|runs| - 1]) + Last(runs)
  }

  /** All lines of a run have its path and permissions. */
  ghost predicate Uniform(r: Run) {
    forall k :: 0 <= k < |r| ==> Same(r[k], r[0])
  }

  /** The runs lay the lines out in order, and no run could take in a line of the next. */
  ghost predicate MaximalRuns(es: seq<Entry>, runs: seq<Run>) {
    Flatten(runs) == es &&
    (forall i :: 0 <= i < |runs| ==> Uniform(runs[i])) &&
    forall i, j :: 0 <= i && j == i + 1 && j < |runs| ==> !Same(runs[i][0], runs[j][0])
  }

  lemma FlattenSnoc(runs: seq<Run>, r: Run)
    ensures Flatten(runs + [r]) == Flatten(runs) + r
  {
    assert (runs + [r])[..|runs|] == runs;
  }

  lemma TotalSnoc(es: seq<Entry>, e: Entry)
    ensures Total(es + [e]) == Total(es) + Size(e)
  {
    assert (es + [e])[..|es|] == es;
  }

  /** One more line extends the last run or starts a new one. */
  function Extended(runs: seq<Run>, e: Entry): seq<Run> {
    if runs != [] && Same(Last(runs)[0], e) then runs[..|runs| - 1] + [Last(runs) + [e]] else runs + [[e]]
  }

  lemma MaximalSnoc(es: seq<Entry>, runs: seq<Run>, r: Run)
    requires MaximalRuns(es, runs) && Uniform(r)
    requires runs != [] ==> !Same(Last(runs)[0], r[0])
    ensures MaximalRuns(es + r, runs + [r])
  {
    FlattenSnoc(runs, r);
  }

  lemma MaximalInit(es: seq<Entry>, runs: seq<Run>)
    requires MaximalRuns(es, runs) && runs != []
    ensures var init := runs[..|runs| - 1];
            es == Flatten(init) + Last(runs) && MaximalRuns(Flatten(init), init) && Uniform(Last(runs)) &&
            (init != [] ==> !Same(Last(init)[0], Last(runs)[0]))
  {
  }

  lemma ExtendedMaximal(es: seq<Entry>, runs: seq<Run>, e: Entry)
    requires MaximalRuns(es, runs)
    ensures MaximalRuns(es + [e], Extended(runs, e))
  {
    hide MaximalRuns, Flatten;
    if runs != [] && Same(Last(runs)[0], e) {
      var init, r := runs[..|runs| - 1], Last(runs);
      MaximalInit(es, runs);
      MaximalSnoc(Flatten(init), init, r + [e]);
      assert es + [e] == Flatten(init) + (r + [e]);
    } else {
      MaximalSnoc(es, runs, [e]);
    }
  }

  /** The loop's state: all runs but the last are summarised, the last one is still open. */
  ghost predicate Merged(es: seq<Entry>, runs: seq<Run>, summaries: seq<MapSummary>, current: Option<MapSummary>) {
    MaximalRuns(es, runs) &&
    if runs == [] then summaries == [] && current == None else
      summaries == SummariesOf(runs[..|runs| - 1]) && current == Some(SummaryOf(Last(runs)))
  }

  lemma MergedExtends(es: seq<Entry>, runs: seq<Run>, summaries: seq<MapSummary>, c: MapSummary, e: Entry)
    requires Merged(es, runs, summaries, Some(c)) && c.path == e.path && c.perms == e.perms
    ensures var d := c.(endAddr := e.endText, sizeBytes := Wrap(c.sizeBytes + Size(e)));
            Merged(es + [e], Extended(runs, e), summaries, Some(d))
  {
    ExtendedMaximal(es, runs, e);
    OneMore(runs, e);
  }

  lemma MergedStarts(es: seq<Entry>, runs: seq<Run>, summaries: seq<MapSummary>, current: Option<MapSummary>, e: Entry)
    requires Merged(es, runs, summaries, current)
    requires current.Some? ==> current.value.path != e.path || current.value.perms != e.perms
    ensures var done := if current.Some? then summaries + [current.value] else summaries;
            var started := MapSummary(e.startText, e.endText, e.perms, e.path, Size(e));
            Merged(es + [e], Extended(runs, e), done, Some(started))
  {
    hide MaximalRuns, Total;
    ExtendedMaximal(es, runs, e);
    if runs != [] { SummariesSnoc(runs[..|runs| - 1], Last(runs)); }
    assert runs != [] ==> runs[..|runs| - 1] + [Last(runs)] == runs;
    assert (runs + [[e]])[..|runs|] == runs;
    SummaryOfOne(e);
  }

  lemma SummariesSnoc(runs: seq<Run>, r: Run)
    ensures SummariesOf(runs + [r]) == SummariesOf(runs) + [SummaryOf(r)]
  {
  }

  lemma SummaryOfOne(e: Entry)
    ensures SummaryOf([e]) == MapSummary(e.startText, e.endText, e.perms, e.path, Size(e))
  {
    TotalSnoc([], e);
    assert [] + [e] == [e];
  }

  /** The summaries of the lines divided into maximal runs. */
  ghost predicate IsMerge(es: seq<Entry>, summaries: seq<MapSummary>) {
    exists runs :: MaximalRuns(es, runs) && summaries == SummariesOf(runs)
  }

  /** The merging loop of ReadProcessMaps. */
  method MergeRegions(lines: seq<Fields>, hex: string -> nat) returns (summaries: seq<MapSummary>)
    ensures IsMerge(Entries(lines, hex), summaries)
  {
    hide MaximalRuns, Extended, SummaryOf, Wrap, Entries;
    summaries := [];
    ghost var runs: seq<Run> := [];
    var current := None;
    EmptyMaximal();
    NoEntries(hex);
    for i := 0 to |lines|
      invariant Merged(Entries(lines[..i], hex), runs, summaries, current)
    {
      EntriesStep(lines, i, hex);
      var fields := lines[i];
      if |fields| < 5 { continue; }
      var addrs := Split(fields[0], '-');
      if |addrs| != 2 { continue; }
      var start: int, end: int := hex(addrs[0]), hex(addrs[1]);
      var size := Wrap(end - start);
      var permsStr := fields[1];
      var path := "[anonymous]";
      if |fields| >= 6 { path := Join(fields[5..]); }
      ghost var e := Entry(addrs[0], addrs[1], start, end, permsStr, path);
      ghost var es := Entries(lines[..i], hex);
      if current.Some? && current.value.path == path && current.value.perms == permsStr {
        MergedExtends(es, runs, summaries, current.value, e);
        current := Some(current.value.(endAddr := addrs[1], sizeBytes := Wrap(current.value.sizeBytes + size)));
      } else {
        MergedStarts(es, runs, summaries, current, e);
        if current.Some? { summaries := summaries + [current.value]; }
        current := Some(MapSummary(addrs[0], addrs[1], permsStr, path, size));
      }
      runs := Extended(runs, e);
    }
    assert lines[..|lines|] == lines;
    if current.Some? { summaries := summaries + [current.value]; }
    if runs != [] { SummariesSnoc(runs[..|runs| - 1], Last(runs)); }
    assert runs != [] ==> runs[..|runs| - 1] + [Last(runs)] == runs;
  }

  lemma EntriesStep(lines: seq<Fields>, i: nat, hex: string -> nat)
    requires i < |lines|
    ensures Entries(lines[..i + 1], hex) == match Parse(lines[i], hex)
            case None => Entries(lines[..i], hex)
            case Some(e) => Entries(lines[..i], hex) + [e]
  {
    assert lines[..i + 1][..i] == lines[..i];
  }

  lemma NoEntries(hex: string -> nat)
    ensures Entries([], hex) == []
  {
  }

  lemma EmptyMaximal()
    ensures MaximalRuns([], [])
  {
  }

  /** What a run of one more line is summarised to. */
  lemma OneMore(runs: seq<Run>, e: Entry)
    requires runs != [] && Same(Last(runs)[0], e)
    ensures Extended(runs, e)[..|runs| - 1] == runs[..|runs| - 1]
    ensures var s := SummaryOf(Last(runs));
            SummaryOf(Last(Extended(runs, e))) == s.(endAddr := e.endText, sizeBytes := Wrap(s.sizeBytes + Size(e)))
  {
    hide Wrap, Total, Size;
    TotalSnoc(Last(runs), e);
    WrapTwice(Total(Last(runs)));
    WrapSum(Wrap(Total(Last(runs))), Total(Last(runs)), Size(e));
  }

  // ---------------------------------------------------------------- maximal runs are unique

  /** There is only one way to lay lines out in maximal runs, so IsMerge determines the summaries. */
  lemma {:induction false} RunsUnique(es: seq<Entry>, a: seq<Run>, b: seq<Run>)
    requires MaximalRuns(es, a) && MaximalRuns(es, b)
    ensures a == b
    decreases |a|
  {
    hide MaximalRuns, Same;
    FlattenEmpty(es, a);
    FlattenEmpty(es, b);
    if a != [] && b != [] {
      var m, n := |a| - 1, |b| - 1;
      var i, j := |es| - |a[m]|, |es| - |b[n]|;
      LastRunBegins(es, a, i);
      LastRunBegins(es, b, j);
      assert i == j;
      MaximalInit(es, a);
      MaximalInit(es, b);
      RunsUnique(es[..i], a[..m], b[..n]);
      assert a == a[..m] + [a[m]] && b == b[..n] + [b[n]];
    }
  }

  lemma FlattenEmpty(es: seq<Entry>, runs: seq<Run>)
    requires MaximalRuns(es, runs)
    ensures es == [] <==> runs == []
  {
    assert runs != [] ==> |Flatten(runs)| > 0;
  }

  /** Where the last run begins: all lines from there on are alike, and the line before is not. */
  lemma LastRunBegins(es: seq<Entry>, runs: seq<Run>, at: int)
    requires MaximalRuns(es, runs) && runs != [] && at == |es| - |Last(runs)|
    ensures 0 <= at < |es| && es[..at] == Flatten(runs[..|runs| - 1]) && es[at..] == Last(runs)
    ensures forall k :: at <= k < |es| ==> Same(es[k], Last(es))
    ensures at > 0 ==> !Same(es[at - 1], Last(es))
  {
    var n := |runs| - 1;
    var init := Flatten(runs[..n]);
    assert es == init + runs[n];
    assert Uniform(runs[n]);
    assert Last(es) == Last(runs[n]) && Same(Last(runs[n]), runs[n][0]);
    forall k | at <= k < |es| ensures Same(es[k], Last(es)) {
      assert es[k] == runs[n][k - at] && Same(runs[n][k - at], runs[n][0]);
    }
    if at > 0 {
      assert n > 0;
      assert init == Flatten(runs[..n][..n - 1]) + runs[n - 1];
      assert Uniform(runs[n - 1]) && Same(Last(runs[n - 1]), runs[n - 1][0]);
      assert es[at - 1] == Last(runs[n - 1]);
      assert !Same(runs[n - 1][0], runs[n][0]);
    }
  }

  // ---------------------------------------------------------------- sizes and ranges

  /** A summary begins where its first line does, ends where its last one does, and has what all of them have. */
  lemma SummaryTells(es: seq<Entry>, runs: seq<Run>, i: nat)
    requires MaximalRuns(es, runs) && i < |runs|
    ensures var s, r := SummariesOf(runs)[i], runs[i];
      && s.startAddr == r[0].startText && s.endAddr == r[|r| - 1].endText
      && forall k :: 0 <= k < |r| ==> r[k].perms == s.perms && r[k].path == s.path
  {
    assert Uniform(runs[i]);
  }

  function SumSizes(ss: seq<MapSummary>): nat {
    if ss == [] then 0 else SumSizes(ss[..|ss| - 1]) + Last(ss).sizeBytes
  }

  lemma {:induction false} TotalConcat(a: seq<Entry>, b: seq<Entry>)
    ensures Total(a + b) == Total(a) + Total(b)
  {
    if b == [] {
      assert a + b == a;
    } else {
      var n := |b| - 1;
      assert (a + b)[..|a + b| - 1] == a + b[..n];
      TotalConcat(a, b[..n]);
    }
  }

  /** Merging neither loses nor adds bytes, up to 64-bit wrap-around. */
  lemma {:induction false} SizesConserved(runs: seq<Run>)
    ensures Wrap(SumSizes(SummariesOf(runs))) == Wrap(Total(Flatten(runs)))
  {
    hide Wrap;
    if runs != [] {
      var n := |runs| - 1;
      SizesConserved(runs[..n]);
      TotalConcat(Flatten(runs[..n]), runs[n]);
      assert SummariesOf(runs)[..n] == SummariesOf(runs[..n]);
      var x, y, t := SumSizes(SummariesOf(runs[..n])), Total(Flatten(runs[..n])), Total(runs[n]);
      assert SumSizes(SummariesOf(runs)) == x + Wrap(t);
      WrapTwice(t);
      WrapSum(Wrap(t), t, x);
      WrapSum(x, y, t);
    }
  }

  /** Lines as the kernel lists them: ranges that end after they start, in ascending order, not overlapping. */
  ghost predicate InOrder(es: seq<Entry>) {
    (forall i :: 0 <= i < |es| ==> es[i].start <= es[i].end < WIDTH) &&
    forall i, j :: 0 <= i < j < |es| ==> es[i].end <= es[j].start
  }

  /** No bytes are missing between a line and the next. */
  ghost predicate Gapless(r: seq<Entry>) {
    forall i, j :: 0 <= i && j == i + 1 && j < |r| ==> r[i].end == r[j].start
  }

  lemma GaplessSnoc(r: seq<Entry>, e: Entry)
    requires r != []
    ensures Gapless(r + [e]) <==> Gapless(r) && Last(r).end == e.start
  {
    var s := r + [e];
    if Gapless(s) {
      forall i, j | 0 <= i && j == i + 1 && j < |r| ensures r[i].end == r[j].start {
        assert s[i].end == s[j].start;
      }
      assert s[|r| - 1].end == s[|r|].start;
    }
  }

  /** A run spans at least its bytes, and exactly those if and only if there is no gap in it. */
  lemma {:induction false} SpanCovers(r: Run)
    requires InOrder(r)
    ensures r[0].start + Total(r) <= Last(r).end < WIDTH
    ensures r[0].start + Total(r) == Last(r).end <==> Gapless(r)
  {
    hide InOrder, Gapless, Size;
    var n := |r| - 1;
    LastInOrder(r);
    if n > 0 {
      var init := r[..n];
      SpanCovers(init);
      assert r == init + [r[n]];
      GaplessSnoc(init, r[n]);
    } else {
      SingleGapless(r);
      assert r[..n] == [];
    }
  }

  lemma LastInOrder(r: Run)
    requires InOrder(r)
    ensures Size(Last(r)) == Last(r).end - Last(r).start && Last(r).end < WIDTH
    ensures |r| > 1 ==> InOrder(r[..|r| - 1]) && r[|r| - 2].end <= Last(r).start
  {
    if |r| > 1 {
      var init := r[..|r| - 1];
      assert forall k :: 0 <= k < |init| ==> init[k] == r[k];
    }
  }

  lemma SingleGapless(r: Run)
    requires |r| == 1
    ensures Gapless(r)
  {
  }

  /**
   * The range printed for a run is at least as wide as the size beside it: as wide exactly when its lines leave no gap.
   */
  ghost predicate WideEnough(r: Run) {
    var s := r[0].start + SummaryOf(r).sizeBytes;
    s <= Last(r).end && (s == Last(r).end <==> Gapless(r))
  }

  ghost predicate Apart(runs: seq<Run>) {
    forall i, j :: 0 <= i < j < |runs| ==> Last(runs[i]).end <= runs[j][0].start
  }

  /** For lines in order, the printed ranges are in order, do not overlap, and are wide enough. */
  lemma {:induction false} RangesInOrder(es: seq<Entry>, runs: seq<Run>)
    requires InOrder(es) && Flatten(runs) == es
    ensures Apart(runs) && forall r :: r in runs ==> WideEnough(r)
    decreases |runs|
  {
    hide Gapless, Total, InOrder;
    if runs != [] {
      var n := |runs| - 1;
      var init := Flatten(runs[..n]);
      assert es == init + runs[n];
      PartsInOrder(init, runs[n]);
      RangesInOrder(init, runs[..n]);
      Widened(runs[n]);
      forall i | 0 <= i < n ensures Last(runs[i]).end <= runs[n][0].start {
        InFlatten(runs[..n], i);
        assert runs[..n][i] == runs[i];
      }
      assert runs == runs[..n] + [runs[n]];
    }
  }

  lemma Widened(r: Run)
    requires InOrder(r)
    ensures WideEnough(r)
  {
    hide InOrder, Gapless, Total;
    SpanCovers(r);
  }

  lemma PartsInOrder(a: seq<Entry>, b: seq<Entry>)
    requires InOrder(a + b) && b != []
    ensures InOrder(a) && InOrder(b)
    ensures forall e :: e in a ==> e.end <= b[0].start
  {
    var s := a + b;
    assert forall k :: 0 <= k < |a| ==> a[k] == s[k];
    assert forall k :: 0 <= k < |b| ==> b[k] == s[|a| + k];
  }

  lemma {:induction false} InFlatten(runs: seq<Run>, i: nat)
    requires i < |runs|
    ensures Last(runs[i]) in Flatten(runs)
  {
    if i < |runs| - 1 { InFlatten(runs[..|runs| - 1], i); }
  }
}
