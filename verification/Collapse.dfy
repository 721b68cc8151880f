/**
 * Collapsing a process's effects into labelled lines. Noise filter, path normalisation and labels are
 * parameters; what is proved holds for all of them and for every order in which the effects are visited.
 */
module Collapse {
  import opened Basics
  import opened Snapshot
  import opened Sorting

  datatype Rules = Rules(noise: string -> bool, semanticLabel: (string, EffectKind) -> string,
          normalize: string -> string)

  datatype Line = Line(caption: string, pattern: string, original: string, count: nat, kind: EffectKind, unique: nat)

  type Effects = map<string, Effect>

  predicate Shown(rules: Rules, e: Effect) {
    !(e.kind.Open? && rules.noise(e.target))
  }

  /** The line an effect goes to: its label if it has one, else its (normalised) target. */
  function KeyOf(rules: Rules, e: Effect): string {
    var target := if e.kind.Connect? then e.target else rules.normalize(e.target);
    if rules.semanticLabel(target, e.kind) != "" then rules.semanticLabel(target, e.kind) else target
  }

  function OriginalOf(rules: Rules, e: Effect): string {
    if e.kind.Open? && rules.semanticLabel(rules.normalize(e.target), Open) == "" then rules.normalize(e.target)
    else e.target
  }

  /** Those of the visited effects that go to a line. */
  ghost function Members(rules: Rules, effects: Effects, visited: set<string>, key: string): set<string> {
    set t | t in visited && t in effects && Shown(rules, effects[t]) && KeyOf(rules, effects[t]) == key
  }

  ghost function AllShown(rules: Rules, effects: Effects): set<string> {
    set t | t in effects && Shown(rules, effects[t])
  }

  ghost function Sum(effects: Effects, s: set<string>): nat
    requires s <= effects.Keys
  {
    if s == {} then 0 else
      var t :| t in s;
      effects[t].count + Sum(effects, s - {t})
  }

  lemma {:induction false} SumPick(effects: Effects, s: set<string>, x: string)
    requires s <= effects.Keys && x in s
    ensures Sum(effects, s) == effects[x].count + Sum(effects, s - {x})
  {
    var t :| t in s && Sum(effects, s) == effects[t].count + Sum(effects, s - {t});
    if t != x {
      SumPick(effects, s - {t}, x);
      SumPick(effects, s - {x}, t);
      assert s - {t} - {x} == s - {x} - {t};
    }
  }

  lemma {:induction false} SumUnion(effects: Effects, a: set<string>, b: set<string>)
    requires a <= effects.Keys && b <= effects.Keys && a !! b
    ensures Sum(effects, a + b) == Sum(effects, a) + Sum(effects, b)
  {
    if a == {} {
      assert a + b == b;
    } else {
      var x :| x in a;
      SumPick(effects, a, x);
      SumPick(effects, a + b, x);
      SumUnion(effects, a - {x}, b);
      assert a + b - {x} == (a - {x}) + b;
    }
  }

  /** A line stands for its members: their total count, their number, and the kind and target of some of them. */
  ghost predicate StandsFor(rules: Rules, effects: Effects, members: set<string>, key: string, l: Line) {
    && members <= effects.Keys
    && l.pattern == key && l.caption == key && l.count == Sum(effects, members) && l.unique == |members|
    && (exists t :: t in members && l.kind == effects[t].kind)
    && (exists t :: t in members && l.original == OriginalOf(rules, effects[t]))
  }

  ghost predicate Grouped(rules: Rules, effects: Effects, visited: set<string>, groups: map<string, Line>) {
    && visited <= effects.Keys
    && (forall key :: key in groups <==> Members(rules, effects, visited, key) != {})
    && (forall key :: key in groups ==>
      StandsFor(rules, effects, Members(rules, effects, visited, key), key, groups[key]))
  }

  /** What visiting one more effect does to the groups. */
  function Visit(rules: Rules, groups: map<string, Line>, e: Effect): map<string, Line> {
    if !Shown(rules, e) then groups else
      var key := KeyOf(rules, e);
      if key in groups then
        var g := groups[key];
        groups[key := g.(count := g.count + e.count, unique := g.unique + 1, original := OriginalOf(rules, e))]
      else groups[key := Line(key, key, OriginalOf(rules, e), e.count, e.kind, 1)]
  }

  lemma MembersMore(rules: Rules, effects: Effects, visited: set<string>, t: string, key: string)
    requires t in effects && t !in visited
    ensures Members(rules, effects, visited + {t}, key) ==
      Members(rules, effects, visited, key) +
          (if Shown(rules, effects[t]) && KeyOf(rules, effects[t]) == key then {t} else {})
  {
  }

  lemma VisitGrouped(rules: Rules, effects: Effects, visited: set<string>, groups: map<string, Line>, t: string)
    requires Grouped(rules, effects, visited, groups) && t in effects && t !in visited
    ensures Grouped(rules, effects, visited + {t}, Visit(rules, groups, effects[t]))
  {
    var e := effects[t];
    var after := Visit(rules, groups, e);
    forall key ensures key in after <==> Members(rules, effects, visited + {t}, key) != {} {
      MembersMore(rules, effects, visited, t, key);
    }
    forall key | key in after
      ensures StandsFor(rules, effects, Members(rules, effects, visited + {t}, key), key, after[key])
    {
      VisitStands(rules, effects, visited, groups, t, key);
    }
  }

  lemma VisitStands(rules: Rules, effects: Effects, visited: set<string>, groups: map<string, Line>, t: string,
          key: string)
    requires Grouped(rules, effects, visited, groups) && t in effects && t !in visited
    requires key in Visit(rules, groups, effects[t])
    ensures StandsFor(rules, effects, Members(rules, effects, visited + {t}, key), key,
        Visit(rules, groups, effects[t])[key])
  {
    hide StandsFor, Members;
    MembersMore(rules, effects, visited, t, key);
    if Shown(rules, effects[t]) && key == KeyOf(rules, effects[t]) {
      NotMember(rules, effects, visited, t, key);
      VisitMember(rules, effects, Members(rules, effects, visited, key), groups, t);
    } else {
      assert Members(rules, effects, visited, key) + {} == Members(rules, effects, visited, key);
    }
  }

  lemma NotMember(rules: Rules, effects: Effects, visited: set<string>, t: string, key: string)
    requires t !in visited
    ensures t !in Members(rules, effects, visited, key) && Members(rules, effects, visited, key) <= effects.Keys
  {
  }

  lemma VisitMember(rules: Rules, effects: Effects, members: set<string>, groups: map<string, Line>, t: string)
    requires members <= effects.Keys && t in effects && t !in members && Shown(rules, effects[t])
    requires var key := KeyOf(rules, effects[t]);
      if key in groups then StandsFor(rules, effects, members, key, groups[key]) else members == {}
    ensures var key := KeyOf(rules, effects[t]);
      key in Visit(rules, groups, effects[t]) &&
          StandsFor(rules, effects, members + {t}, key, Visit(rules, groups, effects[t])[key])
  {
    SumPick(effects, members + {t}, t);
    assert members + {t} - {t} == members;
    assert t in members + {t};
    var key := KeyOf(rules, effects[t]);
    if key in groups {
      var u :| u in members && groups[key].kind == effects[u].kind;
      assert u in members + {t};
    }
  }

  /** A collapsed list: one line per key that has members, standing for them, by descending count. */
  ghost predicate IsCollapse(rules: Rules, effects: Effects, lines: seq<Line>) {
    && Descends(lines, (l: Line) => l.count)
    && (forall i, j :: 0 <= i < j < |lines| ==> lines[i].pattern != lines[j].pattern)
    && (forall i :: 0 <= i < |lines| ==>
         StandsFor(rules, effects, Members(rules, effects, effects.Keys, lines[i].pattern), lines[i].pattern, lines[i]))
    && (forall key :: Members(rules, effects, effects.Keys, key) != {} ==>
      exists i :: 0 <= i < |lines| && lines[i].pattern == key)
  }

  /** collapseEffects: the effects in map order into groups, the groups in map order into a list, then sorted. */
  method CollapseEffects(rules: Rules, effects: Effects) returns (lines: seq<Line>)
    ensures IsCollapse(rules, effects, lines)
  {
    var groups := GroupEffects(rules, effects);
    var unsorted := ListGroups(groups);
    lines := SortDescending(unsorted, (l: Line) => l.count);
    SortedIsCollapse(rules, effects, groups, unsorted, lines);
  }

  method GroupEffects(rules: Rules, effects: Effects) returns (groups: map<string, Line>)
    ensures Grouped(rules, effects, effects.Keys, groups)
  {
    NothingGrouped(rules, effects);
    hide Grouped;
    groups := map[];
    var rest := effects.Keys;
    while rest != {}
      invariant rest <= effects.Keys && Grouped(rules, effects, effects.Keys - rest, groups)
      decreases rest
    {
      var t :| t in rest;
      VisitGrouped(rules, effects, effects.Keys - rest, groups, t);
      TakeOne(effects.Keys, rest, t);
      var e := effects[t];
      if !(e.kind.Open? && rules.noise(e.target)) {
        var key := KeyOf(rules, e);
        if key in groups {
          var g := groups[key];
          g := g.(count := g.count + e.count, unique := g.unique + 1, original := OriginalOf(rules, e));
          groups := groups[key := g];
        } else {
          groups := groups[key := Line(key, key, OriginalOf(rules, e), e.count, e.kind, 1)];
        }
      }
      rest := rest - {t};
    }
    TookAll(effects.Keys, rest);
  }

  lemma NothingGrouped(rules: Rules, effects: Effects)
    ensures Grouped(rules, effects, effects.Keys - effects.Keys, map[])
  {
  }

  /** The groups as a list, each once, under the pattern that is its key. */
  ghost predicate Lists(groups: map<string, Line>, done: set<string>, l: seq<Line>) {
    && (forall i, j :: 0 <= i < j < |l| ==> l[i].pattern != l[j].pattern)
    && (forall i :: 0 <= i < |l| ==> l[i].pattern in done && l[i].pattern in groups && groups[l[i].pattern] == l[i])
    && (forall key :: key in done ==> exists i :: 0 <= i < |l| && l[i].pattern == key)
  }

  method ListGroups(groups: map<string, Line>) returns (l: seq<Line>)
    requires forall key :: key in groups ==> groups[key].pattern == key
    ensures Lists(groups, groups.Keys, l)
  {
    l := [];
    var rest := groups.Keys;
    while rest != {}
      invariant rest <= groups.Keys && Lists(groups, groups.Keys - rest, l)
      decreases rest
    {
      var key :| key in rest;
      ListsMore(groups, groups.Keys - rest, l, key);
      TakeOne(groups.Keys, rest, key);
      l := l + [groups[key]];
      rest := rest - {key};
    }
    TookAll(groups.Keys, rest);
  }

  lemma ListsMore(groups: map<string, Line>, done: set<string>, l: seq<Line>, key: string)
    requires Lists(groups, done, l) && key in groups && key !in done && groups[key].pattern == key
    ensures Lists(groups, done + {key}, l + [groups[key]])
  {
    var more := l + [groups[key]];
    forall k | k in done + {key} ensures exists i :: 0 <= i < |more| && more[i].pattern == k {
      if k in done {
        var i :| 0 <= i < |l| && l[i].pattern == k;
        assert more[i].pattern == k;
      } else {
        assert more[|l|].pattern == k;
      }
    }
  }

  lemma SortedIsCollapse(rules: Rules, effects: Effects, groups: map<string, Line>, l: seq<Line>, lines: seq<Line>)
    requires Grouped(rules, effects, effects.Keys, groups) && Lists(groups, groups.Keys, l)
    requires multiset(lines) == multiset(l) && Descends(lines, (l: Line) => l.count)
    ensures IsCollapse(rules, effects, lines)
  {
    hide StandsFor;
    forall i | 0 <= i < |lines| ensures lines[i].pattern in groups && groups[lines[i].pattern] == lines[i] {
      assert lines[i] in multiset(l);
    }
    PatternsDistinct(groups, l, lines);
    forall key | Members(rules, effects, effects.Keys, key) != {}
      ensures exists i :: 0 <= i < |lines| && lines[i].pattern == key {
      var i :| 0 <= i < |l| && l[i].pattern == key;
      assert l[i] in multiset(lines);
    }
  }

  function PatternOf(l: Line): string {
    l.pattern
  }

  lemma PatternsDistinct(groups: map<string, Line>, l: seq<Line>, lines: seq<Line>)
    requires Lists(groups, groups.Keys, l) && multiset(lines) == multiset(l)
    ensures forall i, j :: 0 <= i < j < |lines| ==> lines[i].pattern != lines[j].pattern
  {
    MapPermuted(l, lines, PatternOf);
    PermutedDistinct(Map(l, PatternOf), Map(lines, PatternOf));
    assert forall i :: 0 <= i < |lines| ==> lines[i].pattern == Map(lines, PatternOf)[i];
  }

  // ---------------------------------------------------------------- which effects share a line

  ghost predicate OnLine(rules: Rules, effects: Effects, lines: seq<Line>, t: string, i: int) {
    0 <= i < |lines| && t in Members(rules, effects, effects.Keys, lines[i].pattern)
  }

  /** Every connect is on a line, and an open exactly if its path is no noise. */
  lemma OnLineIff(rules: Rules, effects: Effects, lines: seq<Line>, t: string)
    requires IsCollapse(rules, effects, lines)
    ensures (exists i :: OnLine(rules, effects, lines, t, i)) <==>
      t in effects && (effects[t].kind.Open? ==> !rules.noise(effects[t].target))
  {
    if t in effects && Shown(rules, effects[t]) {
      var key := KeyOf(rules, effects[t]);
      assert t in Members(rules, effects, effects.Keys, key);
      var i :| 0 <= i < |lines| && lines[i].pattern == key;
      assert OnLine(rules, effects, lines, t, i);
    }
  }

  ghost predicate Unlabelled(rules: Rules, e: Effect) {
    if e.kind.Connect? then rules.semanticLabel(e.target, Connect) == ""
    else rules.semanticLabel(rules.normalize(e.target), Open) == ""
  }

  /**
   * Connects without a label share a line exactly if their targets are the same, whatever their normalised forms;
   * opens without one exactly if their normalised paths are; a label gathers all it is given to.
   */
  lemma SharedLines(rules: Rules, effects: Effects, lines: seq<Line>, t: string, i: int, u: string, k: int)
    requires IsCollapse(rules, effects, lines)
    requires OnLine(rules, effects, lines, t, i) && OnLine(rules, effects, lines, u, k)
    ensures var a, b := effects[t], effects[u];
      && (a.kind == b.kind == Connect && Unlabelled(rules, a) && Unlabelled(rules, b) ==>
           (i == k <==> a.target == b.target))
      && (a.kind == b.kind == Open && Unlabelled(rules, a) && Unlabelled(rules, b) ==>
           (i == k <==> rules.normalize(a.target) == rules.normalize(b.target)))
      && (a.kind == b.kind == Connect && !Unlabelled(rules, a) && !Unlabelled(rules, b) ==>
           (i == k <==> rules.semanticLabel(a.target, Connect) == rules.semanticLabel(b.target, Connect)))
      && (a.kind == b.kind == Open && !Unlabelled(rules, a) && !Unlabelled(rules, b) ==>
           (i == k <==> rules.semanticLabel(rules.normalize(a.target), Open)
                        == rules.semanticLabel(rules.normalize(b.target), Open)))
  {
    hide StandsFor;
    assert i == k <==> KeyOf(rules, effects[t]) == KeyOf(rules, effects[u]);
  }

  // ---------------------------------------------------------------- conservation

  function TotalCount(lines: seq<Line>): nat {
    if lines == [] then 0 else TotalCount(lines[..|lines| - 1]) + lines[|lines| - 1].count
  }

  function TotalUnique(lines: seq<Line>): nat {
    if lines == [] then 0 else TotalUnique(lines[..|lines| - 1]) + lines[|lines| - 1].unique
  }

  /** The effects covered by the first lines. */
  ghost function Covered(rules: Rules, effects: Effects, lines: seq<Line>): set<string> {
    set t | t in effects && Shown(rules, effects[t]) &&
      exists i :: 0 <= i < |lines| && lines[i].pattern == KeyOf(rules, effects[t])
  }

  /** Nothing but noise is lost and nothing is counted twice: counts and numbers of targets add up. */
  lemma CollapseConserves(rules: Rules, effects: Effects, lines: seq<Line>)
    requires IsCollapse(rules, effects, lines)
    ensures TotalCount(lines) == Sum(effects, AllShown(rules, effects))
    ensures TotalUnique(lines) == |AllShown(rules, effects)|
  {
    PrefixConserves(rules, effects, lines, |lines|);
    assert lines[..|lines|] == lines;
    forall t | t in AllShown(rules, effects) ensures t in Covered(rules, effects, lines) {
      assert t in Members(rules, effects, effects.Keys, KeyOf(rules, effects[t]));
    }
    assert Covered(rules, effects, lines) == AllShown(rules, effects);
  }

  lemma {:induction false} PrefixConserves(rules: Rules, effects: Effects, lines: seq<Line>, n: nat)
    requires IsCollapse(rules, effects, lines) && n <= |lines|
    ensures Covered(rules, effects, lines[..n]) <= effects.Keys
    ensures TotalCount(lines[..n]) == Sum(effects, Covered(rules, effects, lines[..n]))
    ensures TotalUnique(lines[..n]) == |Covered(rules, effects, lines[..n])|
  {
    hide IsCollapse, Covered, Members, StandsFor, Sum;
    NoneCovered(rules, effects, lines[..0]);
    if n > 0 {
      PrefixConserves(rules, effects, lines, n - 1);
      TotalsSplit(lines, n);
      LineStands(rules, effects, lines, n - 1);
      CoveredSplit(rules, effects, lines, n);
      SumUnion(effects, Covered(rules, effects, lines[..n - 1]),
          Members(rules, effects, effects.Keys, lines[n - 1].pattern));
    }
  }

  lemma NoneCovered(rules: Rules, effects: Effects, lines: seq<Line>)
    ensures lines == [] ==> Covered(rules, effects, lines) == {}
    ensures Sum(effects, {}) == 0
  {
  }

  lemma TotalsSplit(lines: seq<Line>, n: nat)
    requires 0 < n <= |lines|
    ensures TotalCount(lines[..n]) == TotalCount(lines[..n - 1]) + lines[n - 1].count
    ensures TotalUnique(lines[..n]) == TotalUnique(lines[..n - 1]) + lines[n - 1].unique
  {
    assert lines[..n][..n - 1] == lines[..n - 1];
  }

  lemma LineStands(rules: Rules, effects: Effects, lines: seq<Line>, i: nat)
    requires IsCollapse(rules, effects, lines) && i < |lines|
    ensures var m := Members(rules, effects, effects.Keys, lines[i].pattern);
      m <= effects.Keys && lines[i].count == Sum(effects, m) && lines[i].unique == |m|
    ensures Covered(rules, effects, lines[..i]) <= effects.Keys
    ensures forall i, j :: 0 <= i < j < |lines| ==> lines[i].pattern != lines[j].pattern
  {
  }

  lemma CoveredSplit(rules: Rules, effects: Effects, lines: seq<Line>, n: nat)
    requires 0 < n <= |lines|
    requires forall i, j :: 0 <= i < j < |lines| ==> lines[i].pattern != lines[j].pattern
    ensures var m := Members(rules, effects, effects.Keys, lines[n - 1].pattern);
      && Covered(rules, effects, lines[..n]) == Covered(rules, effects, lines[..n - 1]) + m
      && Covered(rules, effects, lines[..n - 1]) !! m
    ensures Covered(rules, effects, lines[..n]) <= effects.Keys
  {
    var m := Members(rules, effects, effects.Keys, lines[n - 1].pattern);
    forall t ensures t in Covered(rules, effects, lines[..n]) <==> t in Covered(rules, effects, lines[..n - 1]) + m {
      if t in Covered(rules, effects, lines[..n]) {
        var i :| 0 <= i < n && lines[..n][i].pattern == KeyOf(rules, effects[t]);
        assert i < n - 1 ==> lines[..n - 1][i].pattern == KeyOf(rules, effects[t]);
      }
      if t in Covered(rules, effects, lines[..n - 1]) {
        var i :| 0 <= i < n - 1 && lines[..n - 1][i].pattern == KeyOf(rules, effects[t]);
        assert lines[..n][i].pattern == KeyOf(rules, effects[t]);
      }
      if t in m { assert lines[..n][n - 1].pattern == KeyOf(rules, effects[t]); }
    }
  }

  /** However the maps are iterated and ties are broken, the lines say the same of the same patterns. */
  lemma CollapseOrderIndependent(rules: Rules, effects: Effects, a: seq<Line>, b: seq<Line>, i: nat)
    requires IsCollapse(rules, effects, a) && IsCollapse(rules, effects, b) && i < |a|
    ensures exists j :: 0 <= j < |b| && SameLine(a[i], b[j])
  {
    var key := a[i].pattern;
    assert StandsFor(rules, effects, Members(rules, effects, effects.Keys, key), key, a[i]);
    var j :| 0 <= j < |b| && b[j].pattern == key;
    assert StandsFor(rules, effects, Members(rules, effects, effects.Keys, key), key, b[j]);
    assert SameLine(a[i], b[j]);
  }

  predicate SameLine(a: Line, b: Line) {
    a.pattern == b.pattern && a.caption == b.caption && a.count == b.count && a.unique == b.unique
  }

  function PatternAndCount(l: Line): (string, int) {
    (l.pattern, l.count)
  }

  function Negated(x: (string, int)): int {
    -x.1
  }

  /** In particular the counts are the same in the same order, so cutting both lists leaves out the same counts. */
  lemma SameCounts(rules: Rules, effects: Effects, a: seq<Line>, b: seq<Line>)
    requires IsCollapse(rules, effects, a) && IsCollapse(rules, effects, b)
    ensures |a| == |b| && forall i :: 0 <= i < |a| ==> a[i].count == b[i].count
  {
    hide IsCollapse;
    var x, y := Map(a, PatternAndCount), Map(b, PatternAndCount);
    CountsRise(rules, effects, a);
    CountsRise(rules, effects, b);
    forall z ensures z in x <==> z in y {
      if z in x { SamePair(rules, effects, a, b, z); }
      if z in y { SamePair(rules, effects, b, a, z); }
    }
    DistinctPermuted(x, y);
    MapPermuted(x, y, Negated);
    SortedUnique(Map(x, Negated), Map(y, Negated));
    assert |a| == |Map(x, Negated)| && |b| == |Map(y, Negated)|;
  }

  lemma SamePair(rules: Rules, effects: Effects, a: seq<Line>, b: seq<Line>, z: (string, int))
    requires IsCollapse(rules, effects, a) && IsCollapse(rules, effects, b) && z in Map(a, PatternAndCount)
    ensures z in Map(b, PatternAndCount)
  {
    hide IsCollapse;
    var i :| 0 <= i < |a| && Map(a, PatternAndCount)[i] == z;
    CollapseOrderIndependent(rules, effects, a, b, i);
    var j :| 0 <= j < |b| && SameLine(a[i], b[j]);
    assert Map(b, PatternAndCount)[j] == z;
  }

  lemma CountsRise(rules: Rules, effects: Effects, a: seq<Line>)
    requires IsCollapse(rules, effects, a)
    ensures var x := Map(a, PatternAndCount);
            Distinct(x) && NonDescending(Map(x, Negated)) &&
            forall i :: 0 <= i < |a| ==> a[i].count + Map(x, Negated)[i] == 0
  {
    hide StandsFor;
    var key := (l: Line) => l.count;
    forall i, j | 0 <= i < j < |a| ensures a[i].count >= a[j].count {
      assert key(a[i]) >= key(a[j]);
    }
  }
}
