/** Heap scanning: which chunks of which memory regions are read, and what of what is found is reported. */
module HeapScan {

  const MIB: int := 1024 * 1024
  const WIDTH: nat := 0x1_0000_0000_0000_0000
  const LIMIT: nat := 200

  datatype Region = Region(start: nat, size: int, perms: string, name: string)

  datatype Chunk = Chunk(off: int, size: int)

  /** A match of a pattern in the bytes of a chunk. */
  datatype Match = Match(at: nat, value: string)

  /** What reading a chunk gives: an error, or some bytes and what the four patterns match in them. */
  datatype Read = Failed | Data(len: nat, ips: seq<Match>, urls: seq<Match>, paths: seq<Match>, keys: seq<Match>)

  datatype Visit = Visit(index: nat, region: Region, chunk: Chunk, read: Read)

  datatype Kind = PtraceFailed | IpAddr | Url | SensPath | PotentKey

  datatype Finding = Finding(kind: Kind, value: string, address: nat, region: string, score: nat)

  datatype Stats = Stats(regionsScanned: nat, bytesRead: nat, findingsTotal: nat, truncated: bool, readErrors: nat)

  type Memory = (nat, Chunk) -> Read

  // ---------------------------------------------------------------- which regions

  predicate HasInfix(s: string, t: string) {
    t <= s || (s != [] && HasInfix(s[1..], t))
  }

  lemma {:induction false} HasInfixIff(s: string, t: string)
    ensures HasInfix(s, t) <==> exists i :: InfixAt(s, t, i)
  {
    if t <= s { assert InfixAt(s, t, 0); }
    if s != [] {
      HasInfixIff(s[1..], t);
      if i :| InfixAt(s[1..], t, i) { assert InfixAt(s, t, i + 1); }
      if i :| InfixAt(s, t, i) && i > 0 { assert InfixAt(s[1..], t, i - 1); }
    }
  }

  predicate InfixAt(s: string, t: string, i: int) {
    0 <= i <= |s| && t <= s[i..]
  }

  predicate Wanted(r: Region, binaryPath: string) {
    r.name == [] || r.name[0] != '/' || (HasInfix(r.name, "anon") && !("/usr/lib" <= r.name) && !("/lib" <= r.name)) ||
    (r.name == binaryPath && 'w' in r.perms)
  }

  function Filtered(regions: seq<Region>, binaryPath: string): seq<Region> {
    if regions == [] then [] else
      var last := |regions| - 1;
      Filtered(regions[..last], binaryPath) + if Wanted(regions[last], binaryPath) then [regions[last]] else []
  }

  method FilterRegions(regions: seq<Region>, binaryPath: string) returns (filtered: seq<Region>)
    ensures filtered == Filtered(regions, binaryPath)
  {
    filtered := [];
    for i := 0 to |regions|
      invariant filtered == Filtered(regions[..i], binaryPath)
    {
      assert regions[..i + 1][..i] == regions[..i];
      var reg := regions[i];
      var isLib := "/usr/lib" <= reg.name || "/lib" <= reg.name;
      var isBinary := reg.name == binaryPath;
      var isAnon := "[anon]" <= reg.name || HasInfix(reg.name, "anon");
      var isHeap := "[heap]" <= reg.name;
      var isStack := "[stack]" <= reg.name;
      if !isLib && (isAnon || isHeap || isStack || !("/" <= reg.name)) {
        filtered := filtered + [reg];
      } else if isBinary && 'w' in reg.perms {
        filtered := filtered + [reg];
      }
    }
    assert regions[..|regions|] == regions;
  }

  // ---------------------------------------------------------------- which chunks of a region

  function DeepChunk(size: int, k: nat): Chunk {
    Chunk(4 * MIB * k, if 4 * MIB * k + MIB > size then size - 4 * MIB * k else MIB)
  }

  /** A small region is read whole; a large one by its first MiB of every four, or its first and its last MiB. */
  function Plan(size: int, deep: bool): seq<Chunk> {
    if size < 2 * MIB then [Chunk(0, size)]
    else if deep then seq((size + 4 * MIB - 1) / (4 * MIB), k requires 0 <= k => DeepChunk(size, k))
    else [Chunk(0, MIB), Chunk(size - MIB, MIB)]
  }

  method PlanChunks(size: int, deep: bool) returns (chunks: seq<Chunk>)
    ensures chunks == Plan(size, deep)
  {
    chunks := [];
    if size < 2 * MIB {
      chunks := chunks + [Chunk(0, size)];
    } else if deep {
      var off := 0;
      while off < size
        invariant off == 4 * MIB * |chunks| && off < size + 4 * MIB
        invariant forall k :: 0 <= k < |chunks| ==> chunks[k] == DeepChunk(size, k)
      {
        var chunkSize := MIB;
        if off + chunkSize > size { chunkSize := size - off; }
        chunks := chunks + [Chunk(off, chunkSize)];
        off := off + 4 * MIB;
      }
    } else {
      chunks := chunks + [Chunk(0, MIB)];
      chunks := chunks + [Chunk(size - MIB, MIB)];
    }
  }

  predicate Within(c: Chunk, b: int) {
    c.off <= b < c.off + c.size
  }

  /** The chunks of a plan lie in the region, in ascending order, apart from each other. */
  lemma PlanApart(size: int, deep: bool)
    ensures var p := Plan(size, deep);
            (forall c :: c in p ==> 0 <= c.off && c.off + c.size <= size && (size > 0 ==> c.size > 0)) &&
            forall i, j :: 0 <= i < j < |p| ==> p[i].off + p[i].size <= p[j].off
  {
  }

  function Total(chunks: seq<Chunk>): int {
    if chunks == [] then 0 else Total(chunks[..|chunks| - 1]) + chunks[|chunks| - 1].size
  }

  /** A deep scan reads at least a quarter of every region. */
  lemma DeepQuarter(size: int)
    requires size >= 0
    ensures 4 * Total(Plan(size, true)) >= size
  {
    var p := Plan(size, true);
    if size < 2 * MIB {
      assert p[..0] == [];
    } else {
      for j := 0 to |p|
        invariant 4 * Total(p[..j]) >= if size < 4 * MIB * j then size else 4 * MIB * j
      {
        assert p[..j + 1][..j] == p[..j];
      }
      assert p[..|p|] == p;
    }
  }

  /** And no more than 3 MiB in a row are left out by it. */
  lemma DeepGaps(size: int, b: nat)
    requires b + 3 * MIB < size
    ensures exists c, x :: c in Plan(size, true) && Within(c, x) && b <= x <= b + 3 * MIB
  {
    var p := Plan(size, true);
    var k := b / (4 * MIB);
    if b < 4 * MIB * k + MIB {
      assert p[k] in p && Within(p[k], b);
    } else {
      assert p[k + 1] in p && Within(p[k + 1], 4 * MIB * (k + 1));
    }
  }

  ghost predicate Touched(chunks: seq<Chunk>, b: int) {
    exists c :: c in chunks && Within(c, b)
  }

  /** Which bytes a plan reads: all of a small region; the first MiB of every four; or the first and the last MiB. */
  lemma PlanReadsIff(size: int, deep: bool, b: int)
    requires 0 <= b < size
    ensures Touched(Plan(size, deep), b) <==>
      size < 2 * MIB || if deep then b % (4 * MIB) < MIB else b < MIB || size - MIB <= b
  {
    var p := Plan(size, deep);
    if size < 2 * MIB {
      assert p[0] in p && Within(p[0], b);
    } else if !deep {
      assert p[0] in p && p[1] in p;
    } else {
      DeepReadsIff(size, b);
    }
  }

  lemma DeepReadsIff(size: int, b: int)
    requires 0 <= b < size && size >= 2 * MIB
    ensures Touched(Plan(size, true), b) <==> b % (4 * MIB) < MIB
  {
    var p := Plan(size, true);
    forall k: nat ensures Within(DeepChunk(size, k), b) <==> k == b / (4 * MIB) && b % (4 * MIB) < MIB {
      DeepWithin(size, k, b);
    }
    hide DeepChunk, Within;
    if b % (4 * MIB) < MIB {
      assert p[b / (4 * MIB)] in p && Within(p[b / (4 * MIB)], b);
    }
  }

  lemma DeepWithin(size: int, k: nat, b: int)
    requires 0 <= b < size
    ensures Within(DeepChunk(size, k), b) <==> k == b / (4 * MIB) && b % (4 * MIB) < MIB
  {
    var d := b - 4 * MIB * k;
    if 0 <= d < 4 * MIB { assert k == b / (4 * MIB) && d == b % (4 * MIB); }
  }

  /** Whether a plan leaves nothing out. */
  predicate Whole(size: int, deep: bool) {
    size < 2 * MIB || (!deep && size == 2 * MIB)
  }

  lemma PlanCoversIff(size: int, deep: bool)
    ensures (forall b :: 0 <= b < size ==> Touched(Plan(size, deep), b)) <==> Whole(size, deep)
  {
    var p := Plan(size, deep);
    if size < 2 * MIB {
      assert p[0] in p && forall b :: 0 <= b < size ==> Within(p[0], b);
    } else if !deep && size == 2 * MIB {
      assert p[0] in p && p[1] in p;
      assert forall b :: 0 <= b < size ==> Within(p[0], b) || Within(p[1], b);
    } else {
      assert forall c :: c in p ==> !Within(c, MIB);
      assert !Touched(p, MIB);
    }
  }

  // ---------------------------------------------------------------- what is found in a chunk

  function Score(kind: Kind, value: string): nat {
    if kind == PotentKey then 90
    else if kind == Url && (HasInfix(value, "api") || HasInfix(value, "secret")) then 80
    else 50
  }

  function HitOf(kind: Kind, m: Match, reg: Region, off: int): Finding {
    Finding(kind, m.value, (reg.start + off + m.at) % WIDTH, reg.name, Score(kind, m.value))
  }

  function HitsOfKind(kind: Kind, ms: seq<Match>, reg: Region, off: int): seq<Finding> {
    seq(|ms|, i requires 0 <= i < |ms| => HitOf(kind, ms[i], reg, off))
  }

  /** All the patterns find in the bytes of a chunk, in the order of the patterns. */
  function DataHits(reg: Region, off: int, d: Read): seq<Finding>
    requires d.Data?
  {
    HitsOfKind(IpAddr, d.ips, reg, off) + HitsOfKind(Url, d.urls, reg, off) +
    HitsOfKind(SensPath, d.paths, reg, off) + HitsOfKind(PotentKey, d.keys, reg, off)
  }

  function Hits(v: Visit): seq<Finding> {
    if v.read.Failed? then [] else DataHits(v.region, v.chunk.off, v.read)
  }

  function AllHits(visits: seq<Visit>): seq<Finding> {
    if visits == [] then [] else AllHits(visits[..|visits| - 1]) + Hits(visits[|visits| - 1])
  }

  function Values(fs: seq<Finding>): set<string> {
    set f | f in fs :: f.value
  }

  /** The hits whose value did not occur before. */
  function FirstHits(fs: seq<Finding>): seq<Finding> {
    if fs == [] then [] else
      var last := |fs| - 1;
      FirstHits(fs[..last]) + if fs[last].value in Values(fs[..last]) then [] else [fs[last]]
  }

  ghost predicate DistinctValues(fs: seq<Finding>) {
    forall i, j :: 0 <= i < j < |fs| ==> fs[i].value != fs[j].value
  }

  /** Finding f is the k-th hit, and the first with its value. */
  ghost predicate FirstAt(fs: seq<Finding>, f: Finding, k: int) {
    0 <= k < |fs| && fs[k] == f && f.value !in Values(fs[..k])
  }

  /** No value is reported twice, none is missed, and each is reported as it was first found. */
  lemma {:induction false} FirstHitsExact(fs: seq<Finding>)
    ensures Values(FirstHits(fs)) == Values(fs) && DistinctValues(FirstHits(fs))
    ensures forall f :: f in FirstHits(fs) ==> exists k :: FirstAt(fs, f, k)
  {
    hide Values, DistinctValues, FirstAt;
    if fs != [] {
      var last := fs[|fs| - 1];
      var init := fs[..|fs| - 1];
      FirstHitsExact(init);
      assert fs == init + [last];
      ValuesSnoc(init, last);
      ValuesSnoc(FirstHits(init), last);
      FirstAtSnoc(init, last);
      assert FirstHits(fs) == if last.value in Values(init) then FirstHits(init) else FirstHits(init) + [last];
      assert last.value in Values(init) ==> Values(init) + {last.value} == Values(init);
    } else {
      NoFindings();
    }
  }

  lemma NoFindings()
    ensures DistinctValues([]) && Values([]) == {}
  {
  }

  lemma ValuesSnoc(fs: seq<Finding>, f: Finding)
    ensures Values(fs + [f]) == Values(fs) + {f.value}
    ensures DistinctValues(fs) && f.value !in Values(fs) ==> DistinctValues(fs + [f])
  {
    assert forall i :: 0 <= i < |fs| ==> fs[i] in fs;
  }

  lemma FirstAtSnoc(fs: seq<Finding>, f: Finding)
    ensures forall g, k :: FirstAt(fs, g, k) ==> FirstAt(fs + [f], g, k)
    ensures f.value !in Values(fs) ==> FirstAt(fs + [f], f, |fs|)
  {
    forall g, k | FirstAt(fs, g, k) ensures FirstAt(fs + [f], g, k) {
      assert (fs + [f])[..k] == fs[..k];
    }
    assert (fs + [f])[..|fs|] == fs;
  }

  /** What a scan keeps up to date: its counters, the values found, and the findings reported. */
  datatype Scan = Scan(stats: Stats, foundMap: set<string>, findings: seq<Finding>)

  /** The values in hits are found, and what is reported after prefix are the first hits. */
  ghost predicate Found(hits: seq<Finding>, prefix: seq<Finding>, s: Scan) {
    s.foundMap == Values(hits) && s.findings == prefix + FirstHits(hits) && s.stats.findingsTotal == |FirstHits(hits)|
  }

  /** addFinding, for all matches of one pattern. */
  method AddFindings(kind: Kind, ms: seq<Match>, reg: Region, off: int, ghost hits: seq<Finding>,
          ghost prefix: seq<Finding>, s: Scan) returns (r: Scan)
    requires Found(hits, prefix, s)
    ensures Found(hits + HitsOfKind(kind, ms, reg, off), prefix, r)
    ensures r.stats == s.stats.(findingsTotal := r.stats.findingsTotal)
  {
    hide FirstHits, Values, HitOf;
    r := s;
    ghost var more := HitsOfKind(kind, ms, reg, off);
    assert hits + more[..0] == hits;
    for i := 0 to |ms|
      invariant Found(hits + more[..i], prefix, r)
      invariant r.stats == s.stats.(findingsTotal := r.stats.findingsTotal)
    {
      var f := HitOf(kind, ms[i], reg, off);
      HitHasValue(kind, ms[i], reg, off);
      OneMoreHit(hits + more[..i], f);
      assert hits + more[..i + 1] == hits + more[..i] + [f];
      if ms[i].value !in r.foundMap {
        r := Scan(r.stats.(findingsTotal := r.stats.findingsTotal + 1), r.foundMap + {ms[i].value}, r.findings + [f]);
      }
    }
    assert more[..|ms|] == more;
  }

  lemma HitHasValue(kind: Kind, m: Match, reg: Region, off: int)
    ensures HitOf(kind, m, reg, off).value == m.value
  {
  }

  lemma OneMoreHit(fs: seq<Finding>, f: Finding)
    ensures Values(fs + [f]) == Values(fs) + {f.value}
    ensures FirstHits(fs + [f]) == FirstHits(fs) + if f.value in Values(fs) then [] else [f]
  {
    assert (fs + [f])[..|fs|] == fs;
  }

  // ---------------------------------------------------------------- the scan

  /** The chunks of a region that are worth a read, with what reading them gives. */
  function ChunkVisits(i: nat, reg: Region, chunks: seq<Chunk>, memory: Memory): seq<Visit> {
    if chunks == [] then [] else
      var last := chunks[|chunks| - 1];
      ChunkVisits(i, reg, chunks[..|chunks| - 1], memory) +
      if last.size <= 0 then [] else [Visit(i, reg, last, memory(i, last))]
  }

  /** All reads of a scan that is not cut short. */
  function Planned(regions: seq<Region>, deep: bool, memory: Memory): seq<Visit> {
    if regions == [] then [] else
      var last := |regions| - 1;
      Planned(regions[..last], deep, memory) +
      ChunkVisits(last, regions[last], Plan(regions[last].size, deep), memory)
  }

  function Bytes(visits: seq<Visit>): nat {
    if visits == [] then 0 else
      var last := visits[|visits| - 1];
      Bytes(visits[..|visits| - 1]) + if last.read.Data? then last.read.len else 0
  }

  function Failures(visits: seq<Visit>): nat {
    if visits == [] then 0 else
      Failures(visits[..|visits| - 1]) + if visits[|visits| - 1].read.Failed? then 1 else 0
  }

  predicate AnyLarge(regions: seq<Region>) {
    exists i :: 0 <= i < |regions| && regions[i].size >= 2 * MIB
  }

  ghost predicate Continues(visits: seq<Visit>) {
    |FirstHits(AllHits(visits))| <= LIMIT
  }

  /** How far a scan has come: what follows from the reads made. */
  ghost predicate Progress(visits: seq<Visit>, attached: bool, prefix: seq<Finding>, s: Scan) {
    Found(AllHits(visits), prefix, s) && s.stats.bytesRead == Bytes(visits) &&
    s.stats.readErrors == Failures(visits) + if attached then 0 else 1
  }

  ghost predicate ContinuesBefore(visits: seq<Visit>) {
    forall n :: 0 <= n < |visits| ==> Continues(visits[..n])
  }

  function AttachFinding(attached: bool, error: string): seq<Finding> {
    if attached then [] else [Finding(PtraceFailed, error, 0, "", 0)]
  }

  /**
   * What a scan is: the planned reads in order, until more than LIMIT values are found. Truncated says that this
   * happened, or that a large region was read by its ends only.
   */
  ghost predicate IsScan(regions: seq<Region>, deep: bool, attached: bool, error: string, memory: Memory,
                         visits: seq<Visit>, s: Scan)
  {
    var planned := Planned(regions, deep, memory);
    visits <= planned && (Continues(visits) ==> visits == planned) && ContinuesBefore(visits) &&
    Progress(visits, attached, AttachFinding(attached, error), s) &&
    (s.stats.truncated <==> !Continues(visits) || (!deep && AnyLarge(regions))) &&
    s.stats.regionsScanned == |regions|
  }

  /** The loops of ScanHeap over the filtered regions. */
  method ScanHeap(regions: seq<Region>, deep: bool, attached: bool, error: string, memory: Memory)
    returns (s: Scan)
    ensures exists visits :: IsScan(regions, deep, attached, error, memory, visits, s)
  {
    hide AllHits, FirstHits, Values, Planned, ChunkVisits, Plan, Bytes, Failures, AnyLarge;
    ghost var prefix := AttachFinding(attached, error);
    ghost var visits: seq<Visit> := [];
    s := Scan(Stats(|regions|, 0, 0, false, 0), {}, []);
    if !attached {
      var failure := Finding(PtraceFailed, error, 0, "", 0);
      s := s.(stats := s.stats.(readErrors := s.stats.readErrors + 1), findings := s.findings + [failure]);
    }
    NothingYet(regions, deep, memory);
    var i := 0;
    while i < |regions|
      invariant 0 <= i <= |regions| && s.stats.regionsScanned == |regions|
      invariant visits == Planned(regions[..i], deep, memory)
      invariant Progress(visits, attached, prefix, s) && Continues(visits) && ContinuesBefore(visits)
      invariant s.stats.truncated <==> !deep && AnyLarge(regions[..i])
    {
      var reg := regions[i];
      var chunks := PlanChunks(reg.size, deep);
      if !deep && reg.size >= 2 * MIB { s := s.(stats := s.stats.(truncated := true)); }
      RegionPlanned(regions, i, deep, memory);
      s, visits := ScanRegion(i, reg, chunks, memory, attached, prefix, s, visits);
      if s.stats.findingsTotal > LIMIT {
        assert IsScan(regions, deep, attached, error, memory, visits, s);
        return;
      }
      i := i + 1;
    }
    assert regions[..|regions|] == regions;
    assert IsScan(regions, deep, attached, error, memory, visits, s);
  }

  /** The loop over the chunks of a region, which more than LIMIT findings end. */
  method ScanRegion(i: nat, reg: Region, chunks: seq<Chunk>, memory: Memory, ghost attached: bool,
          ghost prefix: seq<Finding>, start: Scan, ghost before: seq<Visit>)
    returns (s: Scan, ghost visits: seq<Visit>)
    requires Progress(before, attached, prefix, start) && Continues(before) && ContinuesBefore(before)
    ensures Progress(visits, attached, prefix, s) && ContinuesBefore(visits)
    ensures s.stats.findingsTotal <= LIMIT <==> Continues(visits)
    ensures visits <= before + ChunkVisits(i, reg, chunks, memory)
    ensures Continues(visits) ==> visits == before + ChunkVisits(i, reg, chunks, memory)
    ensures s.stats.truncated <==> start.stats.truncated || !Continues(visits)
    ensures s.stats.regionsScanned == start.stats.regionsScanned
  {
    hide AllHits, FirstHits, Values, ChunkVisits, Bytes, Failures;
    s, visits := start, before;
    NoChunks(i, reg, chunks, memory);
    assert before + [] == before;
    for c := 0 to |chunks|
      invariant Progress(visits, attached, prefix, s) && Continues(visits) && ContinuesBefore(visits)
      invariant visits == before + ChunkVisits(i, reg, chunks[..c], memory)
      invariant s.stats.truncated == start.stats.truncated && s.stats.regionsScanned == start.stats.regionsScanned
    {
      var chk := chunks[c];
      ChunkStep(i, reg, chunks, c, memory);
      ChunkPrefix(i, reg, chunks, c + 1, memory);
      if chk.size <= 0 { continue; }
      var read := memory(i, chk);
      ghost var was := visits;
      visits := visits + [Visit(i, reg, chk, read)];
      Snoc(was, Visit(i, reg, chk, read));
      assert visits == before + ChunkVisits(i, reg, chunks[..c + 1], memory);
      if read.Failed? {
        s := s.(stats := s.stats.(readErrors := s.stats.readErrors + 1));
        continue;
      }
      s := s.(stats := s.stats.(bytesRead := s.stats.bytesRead + read.len));
      s := AddHits(reg, chk.off, read, AllHits(was), prefix, s);
      if s.stats.findingsTotal > LIMIT {
        s := s.(stats := s.stats.(truncated := true));
        return;
      }
    }
    assert chunks[..|chunks|] == chunks;
  }

  method AddHits(reg: Region, off: int, read: Read, ghost hits: seq<Finding>, ghost prefix: seq<Finding>, s: Scan)
    returns (r: Scan)
    requires read.Data? && Found(hits, prefix, s)
    ensures Found(hits + DataHits(reg, off, read), prefix, r)
    ensures r.stats == s.stats.(findingsTotal := r.stats.findingsTotal)
  {
    hide Found, HitsOfKind;
    r := AddFindings(IpAddr, read.ips, reg, off, hits, prefix, s);
    ghost var all := hits + HitsOfKind(IpAddr, read.ips, reg, off);
    r := AddFindings(Url, read.urls, reg, off, all, prefix, r);
    all := all + HitsOfKind(Url, read.urls, reg, off);
    r := AddFindings(SensPath, read.paths, reg, off, all, prefix, r);
    all := all + HitsOfKind(SensPath, read.paths, reg, off);
    r := AddFindings(PotentKey, read.keys, reg, off, all, prefix, r);
    all := all + HitsOfKind(PotentKey, read.keys, reg, off);
    assert all == hits + DataHits(reg, off, read);
  }

  lemma NothingYet(regions: seq<Region>, deep: bool, memory: Memory)
    ensures AllHits([]) == [] && FirstHits([]) == [] && Values([]) == {} && Bytes([]) == 0 && Failures([]) == 0
    ensures Planned(regions[..0], deep, memory) == [] && !AnyLarge(regions[..0])
  {
  }

  lemma NoChunks(i: nat, reg: Region, chunks: seq<Chunk>, memory: Memory)
    ensures ChunkVisits(i, reg, chunks[..0], memory) == []
  {
  }

  lemma Snoc(visits: seq<Visit>, v: Visit)
    ensures var w := visits + [v];
            AllHits(w) == AllHits(visits) + Hits(v) &&
            Bytes(w) == Bytes(visits) + (if v.read.Data? then v.read.len else 0) &&
            Failures(w) == Failures(visits) + (if v.read.Failed? then 1 else 0) &&
            (Continues(visits) && ContinuesBefore(visits) ==> ContinuesBefore(w))
    ensures v.read.Failed? ==> AllHits(visits + [v]) == AllHits(visits)
  {
    var w := visits + [v];
    assert w[..|visits|] == visits;
    forall n | 0 <= n < |w| && Continues(visits) && ContinuesBefore(visits) ensures Continues(w[..n]) {
      assert n < |visits| ==> w[..n] == visits[..n];
    }
  }

  lemma ChunkStep(i: nat, reg: Region, chunks: seq<Chunk>, c: nat, memory: Memory)
    requires c < |chunks|
    ensures ChunkVisits(i, reg, chunks[..c + 1], memory) ==
            ChunkVisits(i, reg, chunks[..c], memory) +
              if chunks[c].size <= 0 then [] else [Visit(i, reg, chunks[c], memory(i, chunks[c]))]
  {
    assert chunks[..c + 1][..c] == chunks[..c];
  }

  lemma {:induction false} ChunkPrefix(i: nat, reg: Region, chunks: seq<Chunk>, c: nat, memory: Memory)
    requires c <= |chunks|
    ensures ChunkVisits(i, reg, chunks[..c], memory) <= ChunkVisits(i, reg, chunks, memory)
    decreases |chunks| - c
  {
    assert chunks[..|chunks|] == chunks;
    if c < |chunks| {
      ChunkStep(i, reg, chunks, c, memory);
      ChunkPrefix(i, reg, chunks, c + 1, memory);
    }
  }

  lemma PlannedStep(regions: seq<Region>, i: nat, deep: bool, memory: Memory)
    requires i < |regions|
    ensures Planned(regions[..i + 1], deep, memory) ==
            Planned(regions[..i], deep, memory) + ChunkVisits(i, regions[i], Plan(regions[i].size, deep), memory)
  {
    assert regions[..i + 1][..i] == regions[..i];
  }

  lemma {:induction false} PlannedPrefix(regions: seq<Region>, i: nat, deep: bool, memory: Memory)
    requires i <= |regions|
    ensures Planned(regions[..i], deep, memory) <= Planned(regions, deep, memory)
    decreases |regions| - i
  {
    hide ChunkVisits, Plan;
    assert regions[..|regions|] == regions;
    if i < |regions| {
      PlannedStep(regions, i, deep, memory);
      PlannedPrefix(regions, i + 1, deep, memory);
    }
  }

  lemma RegionPlanned(regions: seq<Region>, i: nat, deep: bool, memory: Memory)
    requires i < |regions|
    ensures Planned(regions[..i + 1], deep, memory) ==
            Planned(regions[..i], deep, memory) + ChunkVisits(i, regions[i], Plan(regions[i].size, deep), memory)
    ensures Planned(regions[..i + 1], deep, memory) <= Planned(regions, deep, memory)
    ensures AnyLarge(regions[..i + 1]) <==> AnyLarge(regions[..i]) || regions[i].size >= 2 * MIB
    ensures AnyLarge(regions[..i + 1]) ==> AnyLarge(regions)
  {
    hide Planned, ChunkVisits, Plan, AnyLarge;
    PlannedStep(regions, i, deep, memory);
    PlannedPrefix(regions, i + 1, deep, memory);
    LargeStep(regions, i);
  }

  lemma LargeStep(regions: seq<Region>, i: nat)
    requires i < |regions|
    ensures AnyLarge(regions[..i + 1]) <==> AnyLarge(regions[..i]) || regions[i].size >= 2 * MIB
    ensures AnyLarge(regions[..i + 1]) ==> AnyLarge(regions)
  {
    var a, b := regions[..i + 1], regions[..i];
    if k :| 0 <= k < |b| && b[k].size >= 2 * MIB { assert a[k].size >= 2 * MIB; }
    if k :| 0 <= k < |a| && a[k].size >= 2 * MIB { assert k < i ==> b[k].size >= 2 * MIB; }
    if regions[i].size >= 2 * MIB { assert a[i].size >= 2 * MIB; }
  }

  // ---------------------------------------------------------------- what a scan has covered

  /** Byte b of region i is among the bytes read. */
  ghost predicate Covered(visits: seq<Visit>, i: nat, b: int) {
    exists v :: v in visits && v.index == i && v.read.Data? && v.chunk.off <= b < v.chunk.off + v.read.len
  }

  /** Every read that did not fail gave all bytes it was asked for. */
  ghost predicate FullReads(visits: seq<Visit>) {
    forall v :: v in visits && v.read.Data? ==> v.read.len == v.chunk.size
  }

  ghost predicate AllCovered(visits: seq<Visit>, regions: seq<Region>) {
    forall i, b :: 0 <= i < |regions| && 0 <= b < regions[i].size ==> Covered(visits, i, b)
  }

  lemma {:induction false} InChunkVisits(i: nat, reg: Region, chunks: seq<Chunk>, memory: Memory, v: Visit)
    ensures v in ChunkVisits(i, reg, chunks, memory) <==>
        v.chunk in chunks && v.chunk.size > 0 && v == Visit(i, reg, v.chunk, memory(i, v.chunk))
  {
    if chunks != [] {
      var n := |chunks| - 1;
      InChunkVisits(i, reg, chunks[..n], memory, v);
      assert chunks == chunks[..n] + [chunks[n]];
    }
  }

  /** The planned reads are those of all chunks of all regions that are not empty. */
  lemma {:induction false} InPlanned(regions: seq<Region>, deep: bool, memory: Memory, v: Visit)
    ensures v in Planned(regions, deep, memory) <==>
            v.index < |regions| && v.chunk in Plan(regions[v.index].size, deep) && v.chunk.size > 0 &&
            v == Visit(v.index, regions[v.index], v.chunk, memory(v.index, v.chunk))
  {
    hide ChunkVisits, Plan;
    if regions != [] {
      var n := |regions| - 1;
      InPlanned(regions[..n], deep, memory, v);
      InChunkVisits(n, regions[n], Plan(regions[n].size, deep), memory, v);
    }
  }

  lemma {:induction false} NoFailures(visits: seq<Visit>)
    requires Failures(visits) == 0
    ensures forall v :: v in visits ==> v.read.Data?
  {
    if visits != [] { NoFailures(visits[..|visits| - 1]); }
  }

  /** Which bytes of a region a scan that was not cut short has read. */
  lemma CoveredIff(regions: seq<Region>, deep: bool, memory: Memory, i: nat, b: int)
    requires i < |regions| && FullReads(Planned(regions, deep, memory)) && Failures(Planned(regions, deep, memory)) == 0
    ensures Covered(Planned(regions, deep, memory), i, b) <==> Touched(Plan(regions[i].size, deep), b)
  {
    hide Planned, Plan, Failures;
    var visits := Planned(regions, deep, memory);
    NoFailures(visits);
    if Covered(visits, i, b) {
      var v :| v in visits && v.index == i && v.chunk.off <= b < v.chunk.off + v.read.len;
      InPlanned(regions, deep, memory, v);
      assert Within(v.chunk, b);
    }
    if Touched(Plan(regions[i].size, deep), b) {
      var c :| c in Plan(regions[i].size, deep) && Within(c, b);
      var v := Visit(i, regions[i], c, memory(i, c));
      InPlanned(regions, deep, memory, v);
    }
  }

  /**
   * When a scan reports no truncation and no read error, and its reads were full, then a quick scan has read every
   * byte of every region; a deep scan has done so only if there was no large region, though it never reports it.
   */
  lemma UntruncatedIff(regions: seq<Region>, deep: bool, attached: bool, error: string, memory: Memory,
          visits: seq<Visit>, s: Scan)
    requires IsScan(regions, deep, attached, error, memory, visits, s)
    requires !s.stats.truncated && s.stats.readErrors == 0 && FullReads(visits)
    ensures AllCovered(visits, regions) <==> !deep || !AnyLarge(regions)
  {
    hide Planned, Plan, Failures, Covered, Touched, Found, Continues, FullReads;
    forall i: nat, b | i < |regions| ensures Covered(visits, i, b) <==> Touched(Plan(regions[i].size, deep), b) {
      CoveredIff(regions, deep, memory, i, b);
    }
    forall i: nat | i < |regions|
      ensures (forall b :: 0 <= b < regions[i].size ==> Covered(visits, i, b)) <==> Whole(regions[i].size, deep)
    {
      PlanCoversIff(regions[i].size, deep);
    }
  }

  // ---------------------------------------------------------------- what a scan has found

  /** Matches lie in the bytes they were found in, and reads give at most the bytes asked for. */
  ghost predicate InBounds(v: Visit) {
    v.read.Data? ==>
      v.read.len <= v.chunk.size &&
      forall m :: m in v.read.ips + v.read.urls + v.read.paths + v.read.keys ==> m.at + |m.value| <= v.read.len
  }

  ghost predicate InRegion(f: Finding, r: Region) {
    r.start <= f.address && f.address + |f.value| <= r.start + r.size && f.region == r.name
  }

  /** The matches of the pattern for a kind of finding. */
  function MatchesOf(d: Read, kind: Kind): seq<Match>
    requires d.Data?
  {
    match kind
    case IpAddr => d.ips
    case Url => d.urls
    case SensPath => d.paths
    case PotentKey => d.keys
    case PtraceFailed => []
  }

  /** A possible key scores most, then a URL that names an API or a secret, then anything else. */
  ghost predicate Scored(f: Finding) {
    && (f.score == 90 || f.score == 80 || f.score == 50) && (f.score == 90 <==> f.kind == PotentKey)
    && (f.score == 80 <==> f.kind == Url && exists i :: InfixAt(f.value, "api", i) || InfixAt(f.value, "secret", i))
  }

  /** The finding is a match of its kind's pattern in the bytes read, at the address where those bytes come from. */
  ghost predicate FoundIn(f: Finding, v: Visit) {
    && Scored(f) && v.read.Data? && SomeMatch(MatchesOf(v.read, f.kind), f, v.region.start + v.chunk.off)
    && v.region.start + v.chunk.off <= f.address
    && f.address + |f.value| <= v.region.start + v.chunk.off + v.chunk.size
  }

  ghost predicate SomeMatch(ms: seq<Match>, f: Finding, base: int) {
    exists m :: m in ms && f.value == m.value && f.address == base + m.at
  }

  lemma HitsInRegion(v: Visit, f: Finding)
    requires InBounds(v) && f in Hits(v) && 0 <= v.chunk.off && v.chunk.off + v.chunk.size <= v.region.size
    requires v.region.start + v.region.size < WIDTH
    ensures InRegion(f, v.region) && FoundIn(f, v)
  {
    hide HitsOfKind, HasInfix, SomeMatch, Scored;
    var d, off := v.read, v.chunk.off;
    MatchesInRegion(IpAddr, d.ips, v.region, v.chunk, f);
    MatchesInRegion(Url, d.urls, v.region, v.chunk, f);
    MatchesInRegion(SensPath, d.paths, v.region, v.chunk, f);
    MatchesInRegion(PotentKey, d.keys, v.region, v.chunk, f);
  }

  lemma MatchesInRegion(kind: Kind, ms: seq<Match>, reg: Region, chunk: Chunk, f: Finding)
    requires forall m :: m in ms ==> m.at + |m.value| <= chunk.size
    requires 0 <= chunk.off && chunk.off + chunk.size <= reg.size && reg.start + reg.size < WIDTH
    ensures f in HitsOfKind(kind, ms, reg, chunk.off) ==>
      f.kind == kind && f.region == reg.name && reg.start + chunk.off <= f.address
      && f.address + |f.value| <= reg.start + chunk.off + chunk.size
      && SomeMatch(ms, f, reg.start + chunk.off) && Scored(f)
  {
    HasInfixIff(f.value, "api");
    HasInfixIff(f.value, "secret");
    if f in HitsOfKind(kind, ms, reg, chunk.off) {
      var i :| 0 <= i < |ms| && HitsOfKind(kind, ms, reg, chunk.off)[i] == f;
      assert ms[i] in ms;
    }
  }

  /** Every match of any of the four patterns in bytes that were read is found: its value is among those reported. */
  lemma NothingMissed(visits: seq<Visit>, v: Visit, kind: Kind, m: Match)
    requires v in visits && v.read.Data? && m in MatchesOf(v.read, kind)
    ensures m.value in Values(FirstHits(AllHits(visits)))
  {
    hide FirstHits, HitOf;
    FirstHitsExact(AllHits(visits));
    var i :| 0 <= i < |MatchesOf(v.read, kind)| && MatchesOf(v.read, kind)[i] == m;
    var hits := HitsOfKind(kind, MatchesOf(v.read, kind), v.region, v.chunk.off);
    HitHasValue(kind, m, v.region, v.chunk.off);
    assert hits[i] in hits;
    assert hits[i] in DataHits(v.region, v.chunk.off, v.read);
    VisitsHits(visits, v, hits[i]);
  }

  lemma {:induction false} VisitsHits(visits: seq<Visit>, v: Visit, f: Finding)
    requires v in visits && f in Hits(v)
    ensures f in AllHits(visits)
  {
    var n := |visits| - 1;
    if v != visits[n] {
      assert v in visits[..n];
      VisitsHits(visits[..n], v, f);
    }
  }

  lemma {:induction false} FromVisit(visits: seq<Visit>, f: Finding)
    requires f in AllHits(visits)
    ensures exists v :: v in visits && f in Hits(v)
  {
    var n := |visits| - 1;
    if f !in Hits(visits[n]) { FromVisit(visits[..n], f); }
  }

  /**
   * Every finding is a match in a chunk that was read, of the pattern for its kind. Its whole value lies in that
   * chunk of a region that was to be scanned, and it names that region.
   */
  lemma FindingsInRegions(regions: seq<Region>, deep: bool, memory: Memory, visits: seq<Visit>, f: Finding)
    requires visits <= Planned(regions, deep, memory) && forall v :: v in visits ==> InBounds(v)
    requires forall r :: r in regions ==> r.start + r.size < WIDTH
    requires f in FirstHits(AllHits(visits))
    ensures exists v :: v in visits && v.region in regions && FoundIn(f, v) && InRegion(f, v.region)
  {
    hide Planned, Plan, Hits, InBounds, InRegion, FirstHits, FoundIn;
    FirstHitsExact(AllHits(visits));
    FromVisit(visits, f);
    var v :| v in visits && f in Hits(v);
    InPlanned(regions, deep, memory, v);
    PlanApart(v.region.size, deep);
    HitsInRegion(v, f);
  }
}
