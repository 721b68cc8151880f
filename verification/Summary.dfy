/** The structured summary: live processes grouped by app, each with its totals and its three largest effect lines. */
module Summary {
  import opened Basics
  import opened Snapshot
  import opened Sorting
  import opened Collapse
  import GroupKey

  datatype EffectJSON = EffectJSON(caption: string, count: nat, unique: nat, category: string, subtype: string)

  datatype ProcessJSON = ProcessJSON(
    pid: Pid, ppid: Pid, name: string, totalOpens: nat, totalConns: nat, memoryUsage: nat,
    topEffects: seq<EffectJSON>, moreEffects: nat)

  datatype AppGroup = AppGroup(name: string, pids: seq<Pid>, processes: seq<ProcessJSON>)

  const UNIX := "unix:"

  function EffectOf(l: Line): EffectJSON {
    if l.kind.Open? then EffectJSON(l.caption, l.count, l.unique, "open", "")
    else if UNIX <= l.original then EffectJSON(l.original[5..], l.count, l.unique, "connect", "unix_socket")
    else EffectJSON(l.caption, l.count, l.unique, "connect", "network")
  }

  function TopOf(lines: seq<Line>): seq<EffectJSON> {
    seq(if |lines| < 3 then |lines| else 3, i requires 0 <= i < |lines| => EffectOf(lines[i]))
  }

  ghost function OfKind(effects: Effects, kind: EffectKind): set<string> {
    set t | t in effects && effects[t].kind == kind
  }

  ghost function TotalEffects(n: Node): nat {
    Sum(n.effects, n.effects.Keys)
  }

  /** What is said of a process: exact totals by kind, and the head of some collapse of its effects. */
  ghost predicate IsProcess(rules: Rules, n: Node, j: ProcessJSON) {
    && j.pid == n.pid && j.ppid == n.ppid && j.memoryUsage == n.memoryUsage && j.name == GroupKey.NameOf(n)
    && j.totalOpens == Sum(n.effects, OfKind(n.effects, Open))
    && j.totalConns == Sum(n.effects, OfKind(n.effects, Connect))
    && exists lines :: HeadOf(rules, n.effects, lines, j)
  }

  ghost predicate HeadOf(rules: Rules, effects: Effects, lines: seq<Line>, j: ProcessJSON) {
    IsCollapse(rules, effects, lines) && j.topEffects == TopOf(lines) && |j.topEffects| + j.moreEffects == |lines|
  }

  lemma BothKinds(n: Node)
    ensures Sum(n.effects, OfKind(n.effects, Open)) + Sum(n.effects, OfKind(n.effects, Connect)) == TotalEffects(n)
  {
    assert OfKind(n.effects, Open) + OfKind(n.effects, Connect) == n.effects.Keys;
    SumUnion(n.effects, OfKind(n.effects, Open), OfKind(n.effects, Connect));
  }

  /** The two totals of a process add up to the number its group is sorted by. */
  lemma TotalsAddUp(rules: Rules, n: Node, j: ProcessJSON)
    requires IsProcess(rules, n, j)
    ensures j.totalOpens + j.totalConns == TotalEffects(n)
  {
    BothKinds(n);
  }

  /**
   * What is said of a process does not depend on map order, but for which of several lines of equal count come first.
   */
  lemma SameHead(rules: Rules, n: Node, a: ProcessJSON, b: ProcessJSON)
    requires IsProcess(rules, n, a) && IsProcess(rules, n, b)
    ensures a.totalOpens == b.totalOpens && a.totalConns == b.totalConns && a.moreEffects == b.moreEffects
    ensures |a.topEffects| == |b.topEffects| <= 3 && (a.moreEffects > 0 ==> |a.topEffects| == 3)
    ensures forall i :: 0 <= i < |a.topEffects| ==> a.topEffects[i].count == b.topEffects[i].count
  {
    hide IsCollapse;
    var x :| HeadOf(rules, n.effects, x, a);
    var y :| HeadOf(rules, n.effects, y, b);
    SameCounts(rules, n.effects, x, y);
  }

  // ---------------------------------------------------------------- the effects shown

  /** The pattern's effects. */
  ghost function MembersOf(rules: Rules, effects: Effects, key: string): (s: set<string>)
    ensures s <= effects.Keys
  {
    Members(rules, effects, effects.Keys, key)
  }

  /** What an effect can show as: its target, or the pattern itself for an open whose normalised path has no label. */
  ghost predicate ShowsAs(rules: Rules, e: Effect, key: string, shown: string) {
    if e.kind.Open? && rules.semanticLabel(rules.normalize(e.target), Open) == "" then shown == key
    else shown == e.target
  }

  ghost predicate SomeOfKind(effects: Effects, s: set<string>, kind: EffectKind) {
    exists t :: t in s && t in effects && effects[t].kind == kind
  }

  ghost predicate SomeShowsAs(rules: Rules, effects: Effects, s: set<string>, key: string, shown: string) {
    exists t :: t in s && t in effects && ShowsAs(rules, effects[t], key, shown)
  }

  /**
   * An entry stands for the effects of a pattern: their total count and number, the kind of one of them, and the
   * pattern as its caption; a connect to a socket has the path that one of them shows instead.
   */
  ghost predicate Describes(rules: Rules, effects: Effects, key: string, e: EffectJSON) {
    var s := MembersOf(rules, effects, key);
    && s != {} && s <= effects.Keys && e.count == Sum(effects, s) && e.unique == |s|
    && ((e.category == "open" && e.subtype == "" && e.caption == key && SomeOfKind(effects, s, Open))
        || (e.category == "connect" && SomeOfKind(effects, s, Connect) &&
            ((e.subtype == "unix_socket" && SomeShowsAs(rules, effects, s, key, UNIX + e.caption))
             || (e.subtype == "network" && e.caption == key &&
                 exists shown :: !(UNIX <= shown) && SomeShowsAs(rules, effects, s, key, shown)))))
  }

  /** The entries stand for patterns of their own, in descending order, and no other pattern has a larger count. */
  ghost predicate Largest(rules: Rules, effects: Effects, top: seq<EffectJSON>, keys: seq<string>) {
    && |keys| == |top| && Distinct(keys)
    && (forall i :: 0 <= i < |top| ==> Describes(rules, effects, keys[i], top[i]))
    && (forall i, k :: 0 <= i < k < |top| ==> top[i].count >= top[k].count)
    && (forall i, key :: 0 <= i < |top| && MembersOf(rules, effects, key) != {} && key !in keys ==>
          top[i].count >= Sum(effects, MembersOf(rules, effects, key)))
  }

  ghost function Patterns(rules: Rules, effects: Effects): set<string> {
    set t | t in effects && Shown(rules, effects[t]) :: KeyOf(rules, effects[t])
  }

  /** The effects shown are those of the patterns with the largest counts: three, or all if there are less. */
  lemma TopEffects(rules: Rules, n: Node, j: ProcessJSON)
    requires IsProcess(rules, n, j)
    ensures exists keys :: Largest(rules, n.effects, j.topEffects, keys)
    ensures |j.topEffects| + j.moreEffects == |Patterns(rules, n.effects)|
    ensures |j.topEffects| <= 3 && (j.moreEffects > 0 ==> |j.topEffects| == 3)
  {
    hide IsCollapse, EffectOf;
    var lines :| HeadOf(rules, n.effects, lines, j);
    CollapsePatterns(rules, n.effects, lines);
    HeadLargest(rules, n.effects, lines, j.topEffects);
  }

  lemma HeadLargest(rules: Rules, effects: Effects, lines: seq<Line>, top: seq<EffectJSON>)
    requires IsCollapse(rules, effects, lines) && |top| <= |lines|
    requires forall i :: 0 <= i < |top| ==> top[i] == EffectOf(lines[i])
    ensures Largest(rules, effects, top, Map(lines, PatternOf)[..|top|])
  {
    hide IsCollapse, EffectOf, Describes, MembersOf;
    var keys := Map(lines, PatternOf)[..|top|];
    CollapsePatterns(rules, effects, lines);
    forall i | 0 <= i < |top| ensures Describes(rules, effects, keys[i], top[i]) && top[i].count == lines[i].count {
      LineDescribed(rules, effects, lines, i);
      EffectCount(lines[i]);
    }
    forall i, key | 0 <= i < |top| && MembersOf(rules, effects, key) != {} && key !in keys
      ensures top[i].count >= Sum(effects, MembersOf(rules, effects, key))
    {
      assert forall k :: 0 <= k < |top| ==> lines[k].pattern == keys[k];
      LinesAfter(rules, effects, lines, i, |top|, key);
    }
  }

  lemma EffectCount(l: Line)
    ensures EffectOf(l).count == l.count
  {
  }

  /** The patterns of the lines are all patterns, once each; the counts descend. */
  lemma CollapsePatterns(rules: Rules, effects: Effects, lines: seq<Line>)
    requires IsCollapse(rules, effects, lines)
    ensures Distinct(Map(lines, PatternOf)) && |lines| == |Patterns(rules, effects)|
    ensures forall i, k :: 0 <= i < k < |lines| ==> lines[i].count >= lines[k].count
  {
    hide StandsFor;
    var all := Map(lines, PatternOf);
    var count := (l: Line) => l.count;
    forall i, k | 0 <= i < k < |lines| ensures lines[i].count >= lines[k].count {
      assert count(lines[i]) >= count(lines[k]);
    }
    DistinctCount(all);
    forall key ensures key in Patterns(rules, effects) <==> key in all {
      if key in Patterns(rules, effects) {
        var t :| t in effects && Shown(rules, effects[t]) && KeyOf(rules, effects[t]) == key;
        assert t in MembersOf(rules, effects, key);
        var i :| 0 <= i < |lines| && lines[i].pattern == key;
        assert all[i] == key;
      }
      if key in all {
        var i :| 0 <= i < |all| && all[i] == key;
        LineHasMember(rules, effects, lines, i);
      }
    }
    assert Patterns(rules, effects) == set key | key in all;
  }

  lemma LineHasMember(rules: Rules, effects: Effects, lines: seq<Line>, i: nat)
    requires IsCollapse(rules, effects, lines) && i < |lines|
    ensures StandsFor(rules, effects, MembersOf(rules, effects, lines[i].pattern), lines[i].pattern, lines[i])
    ensures lines[i].pattern in Patterns(rules, effects)
  {
    var t :| t in MembersOf(rules, effects, lines[i].pattern) && lines[i].kind == effects[t].kind;
  }

  lemma {:induction false} DistinctCount(q: seq<string>)
    requires Distinct(q)
    ensures |set x | x in q| == |q|
  {
    if q != [] {
      var n := |q| - 1;
      DistinctCount(q[..n]);
      assert (set x | x in q) == (set x | x in q[..n]) + {q[n]};
    }
  }

  lemma LinesAfter(rules: Rules, effects: Effects, lines: seq<Line>, i: nat, n: nat, key: string)
    requires IsCollapse(rules, effects, lines) && i < n <= |lines|
    requires MembersOf(rules, effects, key) != {} && forall k :: 0 <= k < n ==> lines[k].pattern != key
    ensures lines[i].count >= Sum(effects, MembersOf(rules, effects, key))
  {
    var k :| 0 <= k < |lines| && lines[k].pattern == key;
    LineHasMember(rules, effects, lines, k);
    CollapsePatterns(rules, effects, lines);
  }

  /** What a line says is what its entry says. */
  lemma LineDescribed(rules: Rules, effects: Effects, lines: seq<Line>, i: nat)
    requires IsCollapse(rules, effects, lines) && i < |lines|
    ensures Describes(rules, effects, lines[i].pattern, EffectOf(lines[i]))
  {
    hide IsCollapse, Sum;
    var l := lines[i];
    var key := l.pattern;
    LineHasMember(rules, effects, lines, i);
    var s := MembersOf(rules, effects, key);
    var t :| t in s && l.kind == effects[t].kind;
    assert SomeOfKind(effects, s, l.kind);
    var u :| u in s && l.original == OriginalOf(rules, effects[u]);
    assert KeyOf(rules, effects[u]) == key;
    assert ShowsAs(rules, effects[u], key, l.original);
    assert SomeShowsAs(rules, effects, s, key, l.original);
    if UNIX <= l.original { assert UNIX + l.original[5..] == l.original; }
  }

  method KindTotals(effects: Effects) returns (opens: nat, conns: nat)
    ensures opens == Sum(effects, OfKind(effects, Open)) && conns == Sum(effects, OfKind(effects, Connect))
  {
    opens, conns := 0, 0;
    AllOfKind(effects);
    var rest := effects.Keys;
    while rest != {}
      invariant rest <= effects.Keys
      invariant opens + Sum(effects, OfKind(effects, Open) * rest) == Sum(effects, OfKind(effects, Open))
      invariant conns + Sum(effects, OfKind(effects, Connect) * rest) == Sum(effects, OfKind(effects, Connect))
      decreases rest
    {
      var t :| t in rest;
      KindPick(effects, rest, t, Open);
      KindPick(effects, rest, t, Connect);
      if effects[t].kind.Open? {
        opens := opens + effects[t].count;
      } else {
        conns := conns + effects[t].count;
      }
      rest := rest - {t};
    }
  }

  lemma AllOfKind(effects: Effects)
    ensures forall kind :: OfKind(effects, kind) * effects.Keys == OfKind(effects, kind)
    ensures forall kind :: OfKind(effects, kind) * {} == {} && Sum(effects, {}) == 0
  {
  }

  lemma KindPick(effects: Effects, rest: set<string>, t: string, kind: EffectKind)
    requires t in rest && rest <= effects.Keys
    ensures Sum(effects, OfKind(effects, kind) * rest) ==
      Sum(effects, OfKind(effects, kind) * (rest - {t})) + if effects[t].kind == kind then effects[t].count else 0
  {
    var s := OfKind(effects, kind) * rest;
    if effects[t].kind == kind {
      SumPick(effects, s, t);
      assert s - {t} == OfKind(effects, kind) * (rest - {t});
    } else {
      assert s == OfKind(effects, kind) * (rest - {t});
    }
  }

  method ProcessOf(rules: Rules, n: Node) returns (j: ProcessJSON)
    ensures IsProcess(rules, n, j)
  {
    hide IsCollapse;
    var lines := CollapseEffects(rules, n.effects);
    var opens, conns := KindTotals(n.effects);
    var name := if n.binaryPath != "" then n.binaryPath else n.comm;
    var limit := if |lines| < 3 then |lines| else 3;
    j := ProcessJSON(n.pid, n.ppid, name, opens, conns, n.memoryUsage, TopOf(lines), |lines| - limit);
    assert HeadOf(rules, n.effects, lines, j);
  }

  // ---------------------------------------------------------------- groups

  ghost predicate Groupable(m: Index) {
    forall p :: p in m ==> GroupKey.Ends(m, p) && m[p].pid == p
  }

  /** The processes done so far are in the group of their key, once, and nowhere else. */
  ghost predicate GroupsOf(m: Index, done: set<Pid>, groups: map<string, seq<Pid>>)
    requires Groupable(m)
  {
    && done <= m.Keys
    && (forall k :: k in groups ==> groups[k] != [] && Distinct(groups[k]))
    && (forall k, p :: k in groups && p in groups[k] ==> p in done && GroupKey.KeyOf(m, p) == k)
    && (forall p :: p in done ==> GroupKey.KeyOf(m, p) in groups && p in groups[GroupKey.KeyOf(m, p)])
  }

  lemma GroupsMore(m: Index, done: set<Pid>, groups: map<string, seq<Pid>>, p: Pid, k: string, procs: seq<Pid>)
    requires Groupable(m) && GroupsOf(m, done, groups) && p in m && p !in done && k == GroupKey.KeyOf(m, p)
    requires procs == if k in groups then groups[k] else []
    ensures GroupsOf(m, done + {p}, groups[k := procs + [p]])
  {
    assert forall i :: 0 <= i < |procs| ==> procs[i] in procs;
    assert forall q :: q in procs ==> q in done;
  }

  method GroupProcesses(m: Index) returns (groups: map<string, seq<Pid>>)
    requires Groupable(m)
    ensures GroupsOf(m, m.Keys, groups)
  {
    groups := map[];
    var rest := m.Keys;
    TookAll(m.Keys, {});
    NoGroups(m);
    while rest != {}
      invariant rest <= m.Keys && GroupsOf(m, m.Keys - rest, groups)
      decreases rest
    {
      hide GroupsOf;
      var p :| p in rest;
      var k := GroupKey.GroupKeyFrozen(m, p);
      var procs := if k in groups then groups[k] else [];
      GroupsMore(m, m.Keys - rest, groups, p, k, procs);
      TakeOne(m.Keys, rest, p);
      groups := groups[k := procs + [p]];
      rest := rest - {p};
    }
    TookAll(m.Keys, rest);
  }

  lemma NoGroups(m: Index)
    requires Groupable(m)
    ensures GroupsOf(m, m.Keys - m.Keys, map[])
  {
  }

  /** A group holds exactly the processes with its name as key, each once in either list. */
  ghost predicate IsGroup(rules: Rules, m: Index, g: AppGroup)
    requires Groupable(m)
  {
    && g.pids != [] && Distinct(g.pids)
    && (forall p :: p in g.pids <==> p in m && GroupKey.KeyOf(m, p) == g.name)
    && |g.processes| == |g.pids| && multiset(PidsOf(g.processes)) == multiset(g.pids)
    && (forall i :: 0 <= i < |g.processes| ==>
      g.processes[i].pid in m && IsProcess(rules, m[g.processes[i].pid], g.processes[i]))
    && (forall i, j :: 0 <= i < j < |g.processes| && g.processes[i].pid in m && g.processes[j].pid in m ==>
          TotalEffects(m[g.processes[i].pid]) >= TotalEffects(m[g.processes[j].pid]))
  }

  function PidsOf(js: seq<ProcessJSON>): seq<Pid> {
    seq(|js|, i requires 0 <= i < |js| => js[i].pid)
  }

  ghost predicate IsSummary(rules: Rules, m: Index, out: seq<AppGroup>)
    requires Groupable(m)
  {
    && (forall i :: 0 <= i < |out| ==> IsGroup(rules, m, out[i]))
    && (forall i, j :: 0 <= i < j < |out| ==> out[i].name != out[j].name)
    && (forall i, j :: 0 <= i < j < |out| ==> |out[i].pids| >= |out[j].pids|)
    && (forall p :: p in m ==> exists i :: 0 <= i < |out| && out[i].name == GroupKey.KeyOf(m, p))
  }

  /** Every live process is in exactly one group, at exactly one place. */
  lemma InExactlyOneGroup(rules: Rules, m: Index, out: seq<AppGroup>, p: Pid)
    requires Groupable(m) && IsSummary(rules, m, out) && p in m
    ensures exists i, k :: At(out, i, k, p)
    ensures forall i, k, i', k' :: At(out, i, k, p) && At(out, i', k', p) ==> i == i' && k == k'
  {
    hide IsGroup;
    var i :| 0 <= i < |out| && out[i].name == GroupKey.KeyOf(m, p);
    GroupHolds(rules, m, out[i]);
    assert p in out[i].pids;
    var k :| 0 <= k < |out[i].pids| && out[i].pids[k] == p;
    assert At(out, i, k, p);
    forall i, k, i', k' | At(out, i, k, p) && At(out, i', k', p) ensures i == i' && k == k' {
      GroupHolds(rules, m, out[i]);
      GroupHolds(rules, m, out[i']);
      assert p in out[i].pids && p in out[i'].pids;
      assert out[i].name == out[i'].name;
    }
  }

  lemma GroupHolds(rules: Rules, m: Index, g: AppGroup)
    requires Groupable(m) && IsGroup(rules, m, g)
    ensures Distinct(g.pids) && forall p :: p in g.pids <==> p in m && GroupKey.KeyOf(m, p) == g.name
  {
  }

  predicate At(out: seq<AppGroup>, i: int, k: int, p: Pid) {
    0 <= i < |out| && 0 <= k < |out[i].pids| && out[i].pids[k] == p
  }

  // ---------------------------------------------------------------- the lists

  function First(t: (Pid, nat)): Pid {
    t.0
  }

  method WithTotals(m: Index, procs: seq<Pid>) returns (r: seq<(Pid, nat)>)
    requires forall i :: 0 <= i < |procs| ==> procs[i] in m
    ensures |r| == |procs| && forall i :: 0 <= i < |r| ==> r[i] == (procs[i], TotalEffects(m[procs[i]]))
  {
    r := [];
    for i := 0 to |procs|
      invariant |r| == i && forall k :: 0 <= k < i ==> r[k] == (procs[k], TotalEffects(m[procs[k]]))
    {
      var opens, conns := KindTotals(m[procs[i]].effects);
      BothKinds(m[procs[i]]);
      r := r + [(procs[i], opens + conns)];
    }
  }

  method ProcessesOf(rules: Rules, m: Index, ranked: seq<(Pid, nat)>) returns (js: seq<ProcessJSON>)
    requires forall i :: 0 <= i < |ranked| ==> ranked[i].0 in m && m[ranked[i].0].pid == ranked[i].0
    ensures |js| == |ranked|
    ensures forall i :: 0 <= i < |js| ==> js[i].pid == ranked[i].0 && IsProcess(rules, m[ranked[i].0], js[i])
  {
    js := [];
    for i := 0 to |ranked|
      invariant |js| == i
      invariant forall k :: 0 <= k < i ==> js[k].pid == ranked[k].0 && IsProcess(rules, m[ranked[k].0], js[k])
    {
      var j := ProcessOf(rules, m[ranked[i].0]);
      js := js + [j];
    }
  }

  /** One group: its PIDs in the order they were grouped, its processes by descending total. */
  method BuildGroup(rules: Rules, m: Index, name: string, procs: seq<Pid>) returns (g: AppGroup)
    requires Groupable(m) && procs != [] && Distinct(procs)
    requires forall p :: p in procs <==> p in m && GroupKey.KeyOf(m, p) == name
    ensures IsGroup(rules, m, g) && g.name == name && g.pids == procs
  {
    var totals := WithTotals(m, procs);
    var ranked := SortDescending(totals, (t: (Pid, nat)) => t.1);
    Ranked(m, procs, totals, ranked);
    var js := ProcessesOf(rules, m, ranked);
    assert PidsOf(js) == Map(ranked, First);
    g := AppGroup(name, procs, js);
  }

  lemma Ranked(m: Index, procs: seq<Pid>, totals: seq<(Pid, nat)>, ranked: seq<(Pid, nat)>)
    requires Groupable(m) && forall p :: p in procs ==> p in m
    requires |totals| == |procs| && forall i :: 0 <= i < |totals| ==> totals[i] == (procs[i], TotalEffects(m[procs[i]]))
    requires multiset(ranked) == multiset(totals)
    ensures |ranked| == |procs| && multiset(Map(ranked, First)) == multiset(procs)
    ensures forall i :: 0 <= i < |ranked| ==>
      ranked[i].0 in m && m[ranked[i].0].pid == ranked[i].0 && ranked[i].1 == TotalEffects(m[ranked[i].0])
  {
    MapPermuted(ranked, totals, First);
    assert Map(totals, First) == procs;
    assert |ranked| == |multiset(ranked)| == |multiset(totals)| == |totals|;
    forall i | 0 <= i < |ranked| ensures ranked[i] in totals {
      assert ranked[i] in multiset(totals);
    }
  }

  method ListNames(groups: map<string, seq<Pid>>) returns (names: seq<string>)
    ensures Distinct(names) && forall k :: k in names <==> k in groups
  {
    names := [];
    var rest := groups.Keys;
    while rest != {}
      invariant rest <= groups.Keys && Distinct(names) && forall k :: k in names <==> k in groups.Keys - rest
      decreases rest
    {
      var k :| k in rest;
      assert forall i :: 0 <= i < |names| ==> names[i] in names;
      names := names + [k];
      rest := rest - {k};
    }
  }

  function SizeIn(groups: map<string, seq<Pid>>, k: string): nat {
    if k in groups then |groups[k]| else 0
  }

  method NamesBySize(groups: map<string, seq<Pid>>) returns (names: seq<string>)
    ensures Distinct(names) && forall k :: k in names <==> k in groups
    ensures forall i, j :: 0 <= i < j < |names| ==> SizeIn(groups, names[i]) >= SizeIn(groups, names[j])
  {
    var listed := ListNames(groups);
    names := SortDescending(listed, (k: string) => SizeIn(groups, k));
    PermutedDistinct(listed, names);
  }

  /** The groups of the first names have been built. */
  ghost predicate Built(rules: Rules, m: Index, groups: map<string, seq<Pid>>, names: seq<string>, out: seq<AppGroup>)
    requires Groupable(m)
  {
    && |out| <= |names|
    && forall k :: 0 <= k < |out| ==>
      names[k] in groups && IsGroup(rules, m, out[k]) && out[k].name == names[k] && out[k].pids == groups[names[k]]
  }

  lemma BuiltAll(rules: Rules, m: Index, groups: map<string, seq<Pid>>, names: seq<string>, out: seq<AppGroup>)
    requires Groupable(m) && GroupsOf(m, m.Keys, groups) && Built(rules, m, groups, names, out) && |out| == |names|
    requires Distinct(names) && forall k :: k in names <==> k in groups
    requires forall i, j :: 0 <= i < j < |names| ==> SizeIn(groups, names[i]) >= SizeIn(groups, names[j])
    ensures IsSummary(rules, m, out)
  {
    hide IsGroup;
    forall i, j | 0 <= i < j < |out| ensures |out[i].pids| >= |out[j].pids| {
      assert SizeIn(groups, names[i]) >= SizeIn(groups, names[j]);
    }
    forall p | p in m ensures exists i :: 0 <= i < |out| && out[i].name == GroupKey.KeyOf(m, p) {
      var i :| 0 <= i < |names| && names[i] == GroupKey.KeyOf(m, p);
      assert out[i].name == GroupKey.KeyOf(m, p);
    }
  }

  /** The live part of SummaryJSON. The walk to the app root has to end for every process. */
  method SummaryGroups(rules: Rules, m: Index) returns (out: seq<AppGroup>)
    requires Groupable(m)
    ensures IsSummary(rules, m, out)
  {
    hide IsGroup, GroupsOf, IsSummary, Distinct;
    var groups := GroupProcesses(m);
    var names := NamesBySize(groups);
    out := [];
    for i := 0 to |names|
      invariant |out| == i && Built(rules, m, groups, names, out)
    {
      assert names[i] in names;
      GroupIs(m, groups, names[i]);
      var g := BuildGroup(rules, m, names[i], groups[names[i]]);
      out := out + [g];
    }
    BuiltAll(rules, m, groups, names, out);
  }

  lemma GroupIs(m: Index, groups: map<string, seq<Pid>>, k: string)
    requires Groupable(m) && GroupsOf(m, m.Keys, groups) && k in groups
    ensures groups[k] != [] && Distinct(groups[k])
    ensures forall p :: p in groups[k] <==> p in m && GroupKey.KeyOf(m, p) == k
  {
  }
}
