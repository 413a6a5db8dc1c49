/** Batch conflict detection: group artifact paths, then compare the uses of each path in pairs. */
module ConflictDetection {
  import opened Prelude
  import opened TaskGraphs

  datatype Mode = Read | Write
  datatype Use = Use(task: Id, path: Path, mode: Mode)
  datatype Kind = ReadWrite | WriteWrite
  datatype Report = Report(taskA: Id, taskB: Id, path: Path, kind: Kind)

  predicate IsRead(listed: Path) {
    |listed| >= 2 && listed[..2] == "r:"
  }

  /** A listed path marks its mode by prefix: "r:" reads, anything else writes. */
  function UseOf(task: Id, listed: Path): Use {
    if IsRead(listed) then Use(task, listed[2..], Read) else Use(task, listed, Write)
  }

  function UsesOf(task: Id, listed: seq<Path>): (u: seq<Use>)
    ensures |u| == |listed|
    ensures forall i :: 0 <= i < |listed| ==> u[i] == UseOf(task, listed[i])
  {
    seq(|listed|, i requires 0 <= i < |listed| => UseOf(task, listed[i]))
  }

  /** Every use of every path, task by task. */
  function Uses(tasks: seq<TaskNode>): seq<Use> {
    if tasks == [] then []
    else Uses(tasks[..|tasks| - 1]) + UsesOf(tasks[|tasks| - 1].id, tasks[|tasks| - 1].artifactPaths)
  }

  // ----- the pairwise specification -----

  /** What an earlier and a later use have to be reported as, if they conflict. */
  function Clash(a: Use, b: Use): Option<Report> {
    if a.path != b.path || (a.mode == Read && b.mode == Read) then None
    else Some(Report(a.task, b.task, a.path, if a.mode == Read || b.mode == Read then ReadWrite else WriteWrite))
  }

  /** The pairs of uses that call for the report `r`. */
  ghost function Pairs(uses: seq<Use>, r: Report): set<(nat, nat)> {
    set i: nat, j: nat | i < j < |uses| && Clash(uses[i], uses[j]) == Some(r) :: (i, j)
  }

  ghost predicate ReportsPairs(reports: seq<Report>, uses: seq<Use>) {
    forall r :: multiset(reports)[r] == |Pairs(uses, r)|
  }

  // ----- grouping by path loses no pair -----

  function On(uses: seq<Use>, path: Path): seq<Use> {
    if uses == [] then []
    else
      var last := uses[|uses| - 1];
      On(uses[..|uses| - 1], path) + if last.path == path then [last] else []
  }

  /** How many of `uses` clash with the later `x` into `r`. */
  ghost function ClashesWith(uses: seq<Use>, x: Use, r: Report): nat {
    if uses == [] then 0
    else ClashesWith(uses[..|uses| - 1], x, r) + if Clash(uses[|uses| - 1], x) == Some(r) then 1 else 0
  }

  ghost function PairsInto(uses: seq<Use>, x: Use, r: Report, j: nat): set<(nat, nat)> {
    set i: nat | i < |uses| && Clash(uses[i], x) == Some(r) :: (i, j)
  }

  lemma {:induction false} PairsIntoCount(uses: seq<Use>, x: Use, r: Report, j: nat)
    ensures |PairsInto(uses, x, r, j)| == ClashesWith(uses, x, r)
  {
    if uses == [] {
      assert PairsInto(uses, x, r, j) == {};
    } else {
      var n := |uses| - 1;
      PairsIntoCount(uses[..n], x, r, j);
      assert PairsInto(uses, x, r, j)
          == PairsInto(uses[..n], x, r, j) + if Clash(uses[n], x) == Some(r) then {(n, j)} else {};
    }
  }

  lemma PairMeaning(uses: seq<Use>, p: (nat, nat), r: Report)
    ensures p in Pairs(uses, r) <==> p.0 < p.1 < |uses| && Clash(uses[p.0], uses[p.1]) == Some(r)
  {
  }

  lemma PairIntoMeaning(uses: seq<Use>, x: Use, r: Report, j: nat, p: (nat, nat))
    ensures p in PairsInto(uses, x, r, j) <==> p.0 < |uses| && p.1 == j && Clash(uses[p.0], x) == Some(r)
  {
  }

  lemma {:induction false} PairsSnoc(uses: seq<Use>, x: Use, r: Report)
    ensures |Pairs(uses + [x], r)| == |Pairs(uses, r)| + ClashesWith(uses, x, r)
  {
    hide Pairs, PairsInto, Clash, ClashesWith;
    var before, into, after := Pairs(uses, r), PairsInto(uses, x, r, |uses|), Pairs(uses + [x], r);
    PairsIntoCount(uses, x, r, |uses|);
    forall p: (nat, nat)
      ensures p in after <==> p in before || p in into
      ensures !(p in before && p in into) {
      PairMeaning(uses, p, r);
      PairMeaning(uses + [x], p, r);
      PairIntoMeaning(uses, x, r, |uses|, p);
    }
    assert after == before + into;
    assert before !! into;
  }

  lemma {:induction false} OnlyThePathMatters(uses: seq<Use>, x: Use, r: Report)
    requires x.path == r.path
    ensures ClashesWith(uses, x, r) == ClashesWith(On(uses, r.path), x, r)
  {
    if uses != [] {
      var n := |uses| - 1;
      OnlyThePathMatters(uses[..n], x, r);
      if uses[n].path == r.path {
        var group := On(uses, r.path);
        assert group[..|group| - 1] == On(uses[..n], r.path) && group[|group| - 1] == uses[n];
      } else {
        assert On(uses, r.path) == On(uses[..n], r.path);
      }
    }
  }

  lemma {:induction false} OtherPathsNeverClash(uses: seq<Use>, x: Use, r: Report)
    requires x.path != r.path
    ensures ClashesWith(uses, x, r) == 0
  {
    if uses != [] {
      OtherPathsNeverClash(uses[..|uses| - 1], x, r);
    }
  }

  /** A report's pairs all lie in the group of its path. */
  lemma {:induction false} GroupingKeepsPairs(uses: seq<Use>, r: Report)
    ensures |Pairs(uses, r)| == |Pairs(On(uses, r.path), r)|
  {
    if uses != [] {
      var n := |uses| - 1;
      var x := uses[n];
      assert uses == uses[..n] + [x];
      GroupingKeepsPairs(uses[..n], r);
      PairsSnoc(uses[..n], x, r);
      if x.path == r.path {
        PairsSnoc(On(uses[..n], r.path), x, r);
        OnlyThePathMatters(uses[..n], x, r);
      } else {
        OtherPathsNeverClash(uses[..n], x, r);
        assert On(uses, r.path) == On(uses[..n], r.path);
      }
    }
  }

  // ----- the detector -----

  /** The path map: its keys in the order they were first seen, and under each key its uses. */
  ghost predicate Grouped(paths: seq<Path>, pathMap: map<Path, seq<Use>>, uses: seq<Use>) {
    && NoDup(paths)
    && (forall p :: p in paths <==> p in pathMap)
    && (forall p :: On(uses, p) == if p in pathMap then pathMap[p] else [])
  }

  method AddUse(paths: seq<Path>, pathMap: map<Path, seq<Use>>, x: Use, ghost uses: seq<Use>)
    returns (paths': seq<Path>, pathMap': map<Path, seq<Use>>)
    requires Grouped(paths, pathMap, uses)
    ensures Grouped(paths', pathMap', uses + [x])
  {
    paths', pathMap' := paths, pathMap;
    if x.path !in pathMap {
      paths', pathMap' := paths + [x.path], pathMap[x.path := []];
    }
    pathMap' := pathMap'[x.path := pathMap'[x.path] + [x]];
    assert (uses + [x])[..|uses|] == uses;
    forall p ensures On(uses + [x], p) == On(uses, p) + if x.path == p then [x] else [] {
    }
  }

  method AddTask(paths: seq<Path>, pathMap: map<Path, seq<Use>>, task: TaskNode, ghost uses: seq<Use>)
    returns (paths': seq<Path>, pathMap': map<Path, seq<Use>>)
    requires Grouped(paths, pathMap, uses)
    ensures Grouped(paths', pathMap', uses + UsesOf(task.id, task.artifactPaths))
  {
    paths', pathMap' := paths, pathMap;
    ghost var all := UsesOf(task.id, task.artifactPaths);
    assert uses + all[..0] == uses;
    for j := 0 to |task.artifactPaths|
      invariant Grouped(paths', pathMap', uses + all[..j])
    {
      paths', pathMap' := AddUse(paths', pathMap', UseOf(task.id, task.artifactPaths[j]), uses + all[..j]);
      assert uses + all[..j] + [all[j]] == uses + all[..j + 1];
    }
    assert all[..|all|] == all;
  }

  method GroupByPath(tasks: seq<TaskNode>) returns (paths: seq<Path>, pathMap: map<Path, seq<Use>>)
    ensures Grouped(paths, pathMap, Uses(tasks))
  {
    paths, pathMap := [], map[];
    for i := 0 to |tasks|
      invariant Grouped(paths, pathMap, Uses(tasks[..i]))
    {
      paths, pathMap := AddTask(paths, pathMap, tasks[i], Uses(tasks[..i]));
      assert tasks[..i + 1][..i] == tasks[..i];
    }
    assert tasks[..|tasks|] == tasks;
  }

  /** The pairs reached before row `i`, column `j` of the double loop. */
  ghost function PairsBefore(entries: seq<Use>, i: nat, j: nat, r: Report): set<(nat, nat)> {
    set p | p in Pairs(entries, r) && (p.0 < i || (p.0 == i && p.1 < j))
  }

  /** `more` extends `reports` by the reports of the pairs reached so far. */
  ghost predicate Reached(more: seq<Report>, reports: seq<Report>, entries: seq<Use>, i: nat, j: nat) {
    forall r :: multiset(more)[r] == multiset(reports)[r] + |PairsBefore(entries, i, j, r)|
  }

  lemma NextPairCount(entries: seq<Use>, i: nat, j: nat, r: Report)
    requires i < j < |entries|
    ensures |PairsBefore(entries, i, j + 1, r)|
         == |PairsBefore(entries, i, j, r)| + if Clash(entries[i], entries[j]) == Some(r) then 1 else 0
  {
    hide Pairs, Clash;
    var before := PairsBefore(entries, i, j, r);
    PairMeaning(entries, (i, j), r);
    if Clash(entries[i], entries[j]) == Some(r) {
      assert PairsBefore(entries, i, j + 1, r) == before + {(i, j)};
    } else {
      assert PairsBefore(entries, i, j + 1, r) == before;
    }
  }

  lemma NextPair(more: seq<Report>, reports: seq<Report>, entries: seq<Use>, i: nat, j: nat)
    requires i < j < |entries| && Reached(more, reports, entries, i, j)
    ensures var clash := Clash(entries[i], entries[j]);
            Reached(more + if clash.Some? then [clash.value] else [], reports, entries, i, j + 1)
  {
    hide PairsBefore, Clash;
    forall r ensures |PairsBefore(entries, i, j + 1, r)|
                  == |PairsBefore(entries, i, j, r)| + if Clash(entries[i], entries[j]) == Some(r) then 1 else 0 {
      NextPairCount(entries, i, j, r);
    }
  }

  lemma NextRow(more: seq<Report>, reports: seq<Report>, entries: seq<Use>, i: nat)
    requires i < |entries| && Reached(more, reports, entries, i, |entries|)
    ensures Reached(more, reports, entries, i + 1, i + 2)
  {
    forall r ensures PairsBefore(entries, i, |entries|, r) == PairsBefore(entries, i + 1, i + 2, r) {
    }
  }

  lemma NothingReached(reports: seq<Report>, entries: seq<Use>)
    ensures Reached(reports, reports, entries, 0, 1)
  {
  }

  lemma AllReached(more: seq<Report>, reports: seq<Report>, entries: seq<Use>, r: Report)
    requires Reached(more, reports, entries, |entries|, |entries| + 1) || (|entries| < 2 && more == reports)
    ensures multiset(more)[r] == multiset(reports)[r] + |Pairs(entries, r)|
  {
    if |entries| < 2 {
      assert Pairs(entries, r) == {} == PairsBefore(entries, |entries|, |entries| + 1, r);
    } else {
      assert PairsBefore(entries, |entries|, |entries| + 1, r) == Pairs(entries, r);
    }
  }

  method ComparePath(path: Path, entries: seq<Use>, reports: seq<Report>) returns (more: seq<Report>)
    requires forall u :: u in entries ==> u.path == path
    ensures forall r :: multiset(more)[r] == multiset(reports)[r] + |Pairs(entries, r)|
  {
    hide Reached, Pairs;
    more := reports;
    if |entries| >= 2 {
      NothingReached(reports, entries);
      for i := 0 to |entries|
        invariant Reached(more, reports, entries, i, i + 1)
      {
        for j := i + 1 to |entries|
          invariant Reached(more, reports, entries, i, j)
        {
          var a, b := entries[i], entries[j];
          NextPair(more, reports, entries, i, j);
          if a.mode == Read && b.mode == Read {
            assert more + [] == more;
            continue;
          }
          var kind := if a.mode == Read || b.mode == Read then ReadWrite else WriteWrite;
          more := more + [Report(a.task, b.task, path, kind)];
        }
        NextRow(more, reports, entries, i);
      }
    }
    forall r ensures multiset(more)[r] == multiset(reports)[r] + |Pairs(entries, r)| {
      AllReached(more, reports, entries, r);
    }
  }

  lemma {:induction false} OnItsPath(uses: seq<Use>, path: Path)
    ensures forall u :: u in On(uses, path) ==> u.path == path
  {
    if uses != [] {
      OnItsPath(uses[..|uses| - 1], path);
    }
  }

  /** Exactly the pairs on the given paths have been reported. */
  ghost predicate Covers(reports: seq<Report>, uses: seq<Use>, paths: seq<Path>) {
    forall r :: multiset(reports)[r] == if r.path in paths then |Pairs(On(uses, r.path), r)| else 0
  }

  lemma {:induction false} CoversNext(
      reports: seq<Report>, more: seq<Report>, uses: seq<Use>, paths: seq<Path>, path: Path)
    requires Covers(reports, uses, paths) && path !in paths
    requires forall r :: multiset(more)[r] == multiset(reports)[r] + |Pairs(On(uses, path), r)|
    ensures Covers(more, uses, paths + [path])
  {
    OnItsPath(uses, path);
    forall r: Report | r.path != path ensures Pairs(On(uses, path), r) == {} {
    }
  }

  method DetectConflicts(tasks: seq<TaskNode>) returns (reports: seq<Report>)
    ensures ReportsPairs(reports, Uses(tasks))
  {
    hide Pairs, Covers;
    reports := [];
    var paths, pathMap := GroupByPath(tasks);
    ghost var uses := Uses(tasks);
    CoversNothing(uses);
    for k := 0 to |paths|
      invariant Covers(reports, uses, paths[..k])
    {
      OnItsPath(uses, paths[k]);
      var more := ComparePath(paths[k], pathMap[paths[k]], reports);
      CoversNext(reports, more, uses, paths[..k], paths[k]);
      assert paths[..k + 1] == paths[..k] + [paths[k]];
      reports := more;
    }
    assert paths[..|paths|] == paths;
    CoversAll(reports, uses, paths, pathMap);
  }

  lemma CoversNothing(uses: seq<Use>)
    ensures Covers([], uses, [])
  {
  }

  lemma {:induction false} CoversAll(
      reports: seq<Report>, uses: seq<Use>, paths: seq<Path>, pathMap: map<Path, seq<Use>>)
    requires Covers(reports, uses, paths) && Grouped(paths, pathMap, uses)
    ensures ReportsPairs(reports, uses)
  {
    forall r ensures multiset(reports)[r] == |Pairs(uses, r)| {
      GroupingKeepsPairs(uses, r);
      if r.path !in paths {
        assert Pairs(On(uses, r.path), r) == {};
      }
    }
  }

  // ----- how many reports a path gets -----

  function ClashList(uses: seq<Use>, x: Use): seq<Report> {
    if uses == [] then []
    else
      var clash := Clash(uses[|uses| - 1], x);
      ClashList(uses[..|uses| - 1], x) + if clash.Some? then [clash.value] else []
  }

  /** The reports of comparing every two uses, without any grouping. */
  function AllClashes(uses: seq<Use>): seq<Report> {
    if uses == [] then []
    else AllClashes(uses[..|uses| - 1]) + ClashList(uses[..|uses| - 1], uses[|uses| - 1])
  }

  lemma {:induction false} ClashListCount(uses: seq<Use>, x: Use, r: Report)
    ensures multiset(ClashList(uses, x))[r] == ClashesWith(uses, x, r)
  {
    if uses != [] {
      ClashListCount(uses[..|uses| - 1], x, r);
    }
  }

  lemma {:induction false} AllClashesCount(uses: seq<Use>, r: Report)
    ensures multiset(AllClashes(uses))[r] == |Pairs(uses, r)|
  {
    if uses == [] {
      assert Pairs(uses, r) == {};
    } else {
      var n := |uses| - 1;
      assert uses == uses[..n] + [uses[n]];
      AllClashesCount(uses[..n], r);
      ClashListCount(uses[..n], uses[n], r);
      PairsSnoc(uses[..n], uses[n], r);
    }
  }

  function ReportsOn(reports: seq<Report>, path: Path): nat {
    if reports == [] then 0
    else ReportsOn(reports[..|reports| - 1], path) + if reports[|reports| - 1].path == path then 1 else 0
  }

  function Readers(uses: seq<Use>): nat {
    if uses == [] then 0
    else Readers(uses[..|uses| - 1]) + if uses[|uses| - 1].mode == Read then 1 else 0
  }

  lemma {:induction false} ReportsOnConcat(a: seq<Report>, b: seq<Report>, path: Path)
    ensures ReportsOn(a + b, path) == ReportsOn(a, path) + ReportsOn(b, path)
  {
    if b == [] {
      assert a + b == a;
    } else {
      assert (a + b)[..|a + b| - 1] == a + b[..|b| - 1];
      ReportsOnConcat(a, b[..|b| - 1], path);
    }
  }

  lemma {:induction false} ReportsOnPermuted(a: seq<Report>, b: seq<Report>, path: Path)
    requires multiset(a) == multiset(b)
    ensures ReportsOn(a, path) == ReportsOn(b, path)
    decreases |a|
  {
    if a == [] {
      assert |b| == |multiset(b)| == 0;
    } else {
      var i := RemoveOne(a, b);
      ReportsOnPermuted(a[1..], b[..i] + b[i + 1..], path);
      assert a == [a[0]] + a[1..] && b == b[..i] + ([b[i]] + b[i + 1..]);
      ReportsOnConcat([a[0]], a[1..], path);
      ReportsOnConcat(b[..i], [b[i]] + b[i + 1..], path);
      ReportsOnConcat([b[i]], b[i + 1..], path);
      ReportsOnConcat(b[..i], b[i + 1..], path);
    }
  }

  lemma {:induction false} ClashListOn(uses: seq<Use>, x: Use, path: Path)
    ensures ReportsOn(ClashList(uses, x), path)
         == if x.path != path then 0
            else |On(uses, path)| - if x.mode == Read then Readers(On(uses, path)) else 0
  {
    if uses != [] {
      var n := |uses| - 1;
      ClashListOn(uses[..n], x, path);
      var clash := Clash(uses[n], x);
      ReportsOnConcat(ClashList(uses[..n], x), if clash.Some? then [clash.value] else [], path);
      OnSnoc(uses, path);
    }
  }

  lemma {:induction false} OnSnoc(uses: seq<Use>, path: Path)
    requires uses != []
    ensures var front, last := On(uses[..|uses| - 1], path), uses[|uses| - 1];
            && |On(uses, path)| == |front| + (if last.path == path then 1 else 0)
            && Readers(On(uses, path)) == Readers(front) + (if last.path == path && last.mode == Read then 1 else 0)
  {
    var front, last := On(uses[..|uses| - 1], path), uses[|uses| - 1];
    assert (front + [last])[..|front|] == front;
    assert front + [] == front;
  }

  lemma {:induction false} AllClashesOn(uses: seq<Use>, path: Path)
    ensures var n, r := |On(uses, path)|, Readers(On(uses, path));
            2 * ReportsOn(AllClashes(uses), path) == n * (n - 1) - r * (r - 1)
  {
    if uses != [] {
      var last := uses[|uses| - 1];
      AllClashesOn(uses[..|uses| - 1], path);
      ReportsOnConcat(AllClashes(uses[..|uses| - 1]), ClashList(uses[..|uses| - 1], last), path);
      ClashListOn(uses[..|uses| - 1], last, path);
      OnSnoc(uses, path);
      var n: int, r: int := |On(uses[..|uses| - 1], path)|, Readers(On(uses[..|uses| - 1], path));
      assert (n + 1) * n == n * (n - 1) + 2 * n && (r + 1) * r == r * (r - 1) + 2 * r;
    }
  }

  /** A path used n times, r of them reading, gets n(n-1)/2 - r(r-1)/2 reports. */
  lemma {:induction false} ReportsPerPath(reports: seq<Report>, uses: seq<Use>, path: Path)
    requires ReportsPairs(reports, uses)
    ensures var n, r := |On(uses, path)|, Readers(On(uses, path));
            ReportsOn(reports, path) == n * (n - 1) / 2 - r * (r - 1) / 2
  {
    forall r ensures multiset(AllClashes(uses))[r] == multiset(reports)[r] {
      AllClashesCount(uses, r);
    }
    assert multiset(AllClashes(uses)) == multiset(reports);
    ReportsOnPermuted(AllClashes(uses), reports, path);
    AllClashesOn(uses, path);
    EvenProduct(|On(uses, path)|);
    EvenProduct(Readers(On(uses, path)));
  }

  lemma {:induction false} EvenProduct(n: nat)
    ensures n * (n - 1) % 2 == 0
  {
    if n > 0 {
      EvenProduct(n - 1);
      assert n * (n - 1) == (n - 1) * (n - 2) + 2 * (n - 1);
    }
  }

  // ----- what a report says about two tasks -----

  lemma {:induction false} UseAt(tasks: seq<TaskNode>, i: nat, k: nat) returns (a: nat)
    requires i < |tasks| && k < |tasks[i].artifactPaths|
    ensures |Uses(tasks[..i])| <= a < |Uses(tasks[..i + 1])| <= |Uses(tasks)|
    ensures Uses(tasks)[a] == UseOf(tasks[i].id, tasks[i].artifactPaths[k])
  {
    var n := |tasks| - 1;
    if i == n {
      assert tasks[..i + 1] == tasks;
      a := |Uses(tasks[..n])| + k;
    } else {
      a := UseAt(tasks[..n], i, k);
      assert tasks[..n][..i] == tasks[..i] && tasks[..n][..i + 1] == tasks[..i + 1];
    }
  }

  lemma {:induction false} UseFrom(tasks: seq<TaskNode>, a: nat) returns (i: nat, k: nat)
    requires a < |Uses(tasks)|
    ensures i < |tasks| && k < |tasks[i].artifactPaths|
    ensures |Uses(tasks[..i])| <= a < |Uses(tasks[..i + 1])|
    ensures Uses(tasks)[a] == UseOf(tasks[i].id, tasks[i].artifactPaths[k])
  {
    var n := |tasks| - 1;
    if a < |Uses(tasks[..n])| {
      i, k := UseFrom(tasks[..n], a);
      assert tasks[..n][..i] == tasks[..i] && tasks[..n][..i + 1] == tasks[..i + 1];
    } else {
      i, k := n, a - |Uses(tasks[..n])|;
      assert tasks[..n + 1] == tasks;
    }
  }

  lemma {:induction false} UsesGrow(tasks: seq<TaskNode>, i: nat, j: nat)
    requires i <= j <= |tasks|
    ensures |Uses(tasks[..i])| <= |Uses(tasks[..j])|
  {
    if i < j {
      UsesGrow(tasks, i, j - 1);
      assert tasks[..j][..j - 1] == tasks[..j - 1];
    }
  }

  predicate PathsClash(t: TaskNode, u: TaskNode) {
    exists p, q :: p in t.artifactPaths && q in u.artifactPaths && Clash(UseOf(t.id, p), UseOf(u.id, q)).Some?
  }

  predicate Reported(reports: seq<Report>, t: TaskNode, u: TaskNode) {
    exists r :: r in reports && r.taskA == t.id && r.taskB == u.id
  }

  lemma {:induction false} ReportComesFromAClash(tasks: seq<TaskNode>, i: nat, j: nat, r: Report)
    requires UniqueIds(tasks) && i < j < |tasks| && Pairs(Uses(tasks), r) != {}
    requires r.taskA == tasks[i].id && r.taskB == tasks[j].id
    ensures PathsClash(tasks[i], tasks[j])
  {
    var a: nat, b: nat :| (a, b) in Pairs(Uses(tasks), r);
    var i', k := UseFrom(tasks, a);
    var j', l := UseFrom(tasks, b);
    assert i' == i && j' == j;
    assert tasks[i].artifactPaths[k] in tasks[i].artifactPaths && tasks[j].artifactPaths[l] in tasks[j].artifactPaths;
  }

  lemma {:induction false} ClashIsReported(tasks: seq<TaskNode>, i: nat, j: nat, p: Path, q: Path)
    requires i < j < |tasks| && p in tasks[i].artifactPaths && q in tasks[j].artifactPaths
    requires Clash(UseOf(tasks[i].id, p), UseOf(tasks[j].id, q)).Some?
    ensures Pairs(Uses(tasks), Clash(UseOf(tasks[i].id, p), UseOf(tasks[j].id, q)).value) != {}
  {
    hide Uses, UseOf, Clash;
    var k :| 0 <= k < |tasks[i].artifactPaths| && tasks[i].artifactPaths[k] == p;
    var l :| 0 <= l < |tasks[j].artifactPaths| && tasks[j].artifactPaths[l] == q;
    var a := UseAt(tasks, i, k);
    var b := UseAt(tasks, j, l);
    UsesGrow(tasks, i + 1, j);
    assert (a, b) in Pairs(Uses(tasks), Clash(UseOf(tasks[i].id, p), UseOf(tasks[j].id, q)).value);
  }

  /** An earlier and a later task are reported exactly when some two of their paths clash. */
  lemma {:induction false} ReportedIffPathsClash(tasks: seq<TaskNode>, reports: seq<Report>, i: nat, j: nat)
    requires UniqueIds(tasks) && ReportsPairs(reports, Uses(tasks)) && i < j < |tasks|
    ensures Reported(reports, tasks[i], tasks[j]) <==> PathsClash(tasks[i], tasks[j])
  {
    hide Uses, Pairs, UseOf;
    var uses := Uses(tasks);
    if r :| r in reports && r.taskA == tasks[i].id && r.taskB == tasks[j].id {
      assert r in multiset(reports) && |Pairs(uses, r)| > 0;
      ReportComesFromAClash(tasks, i, j, r);
    }
    if p, q :| p in tasks[i].artifactPaths && q in tasks[j].artifactPaths
               && Clash(UseOf(tasks[i].id, p), UseOf(tasks[j].id, q)).Some? {
      ClashIsReported(tasks, i, j, p, q);
      var r := Clash(UseOf(tasks[i].id, p), UseOf(tasks[j].id, q)).value;
      assert multiset(reports)[r] > 0;
      assert r in reports;
      UseNames(tasks[i].id, p);
      UseNames(tasks[j].id, q);
    }
  }

  lemma UseNames(task: Id, listed: Path)
    ensures UseOf(task, listed).task == task
  {
  }

  // ----- reports against locks -----

  predicate BothWrite(t: TaskNode, u: TaskNode) {
    exists p :: p in t.artifactPaths && p in u.artifactPaths && !IsRead(p)
  }

  predicate BothRead(t: TaskNode, u: TaskNode) {
    exists p :: p in t.artifactPaths && p in u.artifactPaths && IsRead(p)
  }

  /** `t` writes a path that `u` reads. */
  predicate WritesWhatReads(t: TaskNode, u: TaskNode) {
    exists p :: p in t.artifactPaths && !IsRead(p) && "r:" + p in u.artifactPaths
  }

  predicate Mixed(t: TaskNode, u: TaskNode) {
    WritesWhatReads(t, u) || WritesWhatReads(u, t)
  }

  lemma ReadOf(task: Id, p: Path)
    ensures IsRead("r:" + p) && UseOf(task, "r:" + p) == Use(task, p, Read)
  {
    assert ("r:" + p)[..2] == "r:" && ("r:" + p)[2..] == p;
  }

  lemma ReadShape(task: Id, listed: Path)
    requires IsRead(listed)
    ensures listed == "r:" + UseOf(task, listed).path
  {
    assert listed == listed[..2] + listed[2..];
  }

  lemma ClashShape(t: TaskNode, u: TaskNode, p: Path, q: Path)
    requires p in t.artifactPaths && q in u.artifactPaths && Clash(UseOf(t.id, p), UseOf(u.id, q)).Some?
    ensures BothWrite(t, u) || Mixed(t, u)
  {
    if IsRead(p) {
      ReadShape(t.id, p);
    } else if IsRead(q) {
      ReadShape(u.id, q);
    }
  }

  /** Two tasks clash when both write a path or one writes what the other reads. */
  lemma PathsClashIff(t: TaskNode, u: TaskNode)
    ensures PathsClash(t, u) <==> BothWrite(t, u) || Mixed(t, u)
  {
    if p, q :| p in t.artifactPaths && q in u.artifactPaths && Clash(UseOf(t.id, p), UseOf(u.id, q)).Some? {
      ClashShape(t, u, p, q);
    }
    if p :| p in t.artifactPaths && p in u.artifactPaths && !IsRead(p) {
      assert Clash(UseOf(t.id, p), UseOf(u.id, p)).Some?;
    }
    if p :| p in t.artifactPaths && !IsRead(p) && "r:" + p in u.artifactPaths {
      ReadOf(u.id, p);
      assert Clash(UseOf(t.id, p), UseOf(u.id, "r:" + p)).Some?;
    }
    if p :| p in u.artifactPaths && !IsRead(p) && "r:" + p in t.artifactPaths {
      ReadOf(t.id, p);
      assert Clash(UseOf(t.id, "r:" + p), UseOf(u.id, p)).Some?;
    }
  }

  /** Which two listings make which report. */
  lemma ClashKinds(a: Id, b: Id, x: Path, y: Path, p: Path)
    ensures Clash(UseOf(a, x), UseOf(b, y)) == Some(Report(a, b, p, WriteWrite))
            <==> !IsRead(p) && x == p && y == p
    ensures Clash(UseOf(a, x), UseOf(b, y)) == Some(Report(a, b, p, ReadWrite))
            <==> (!IsRead(p) && x == p && y == "r:" + p) || (!IsRead(p) && x == "r:" + p && y == p)
  {
    ReadOf(a, p);
    ReadOf(b, p);
    if IsRead(x) {
      ReadShape(a, x);
    }
    if IsRead(y) {
      ReadShape(b, y);
    }
  }

  lemma {:induction false} ReportComesFromListings(tasks: seq<TaskNode>, i: nat, j: nat, r: Report)
    returns (x: Path, y: Path)
    requires UniqueIds(tasks) && i < |tasks| && j < |tasks| && Pairs(Uses(tasks), r) != {}
    requires r.taskA == tasks[i].id && r.taskB == tasks[j].id
    ensures i <= j && x in tasks[i].artifactPaths && y in tasks[j].artifactPaths
    ensures Clash(UseOf(tasks[i].id, x), UseOf(tasks[j].id, y)) == Some(r)
  {
    var a: nat, b: nat :| (a, b) in Pairs(Uses(tasks), r);
    var i', k := UseFrom(tasks, a);
    var j', l := UseFrom(tasks, b);
    assert i' == i && j' == j;
    x, y := tasks[i].artifactPaths[k], tasks[j].artifactPaths[l];
    if j < i {
      UsesGrow(tasks, j + 1, i);
    }
  }

  /**
   * The reports about an earlier and a later task, path and kind: "write-write" on exactly the
   * unprefixed paths both list, "read-write" on exactly those one lists bare and the other as a
   * read. The earlier task is always named first.
   */
  lemma {:induction false} ReportedKinds(tasks: seq<TaskNode>, reports: seq<Report>, i: nat, j: nat, p: Path)
    requires UniqueIds(tasks) && ReportsPairs(reports, Uses(tasks)) && i < j < |tasks|
    ensures var t, u := tasks[i], tasks[j];
            Report(t.id, u.id, p, WriteWrite) in reports
            <==> !IsRead(p) && p in t.artifactPaths && p in u.artifactPaths
    ensures var t, u := tasks[i], tasks[j];
            Report(t.id, u.id, p, ReadWrite) in reports
            <==> !IsRead(p) && ((p in t.artifactPaths && "r:" + p in u.artifactPaths)
                                || ("r:" + p in t.artifactPaths && p in u.artifactPaths))
    ensures forall kind :: Report(tasks[j].id, tasks[i].id, p, kind) !in reports
  {
    hide Uses, Pairs, UseOf, Clash, IsRead, UniqueIds;
    var t, u := tasks[i], tasks[j];
    forall kind ensures Report(u.id, t.id, p, kind) !in reports {
      var r := Report(u.id, t.id, p, kind);
      assert r in reports <==> multiset(reports)[r] > 0;
      if r in reports {
        var x, y := ReportComesFromListings(tasks, j, i, r);
      }
    }
    forall kind ensures Report(t.id, u.id, p, kind) in reports <==> Calls(t, u, p, kind) {
      var r := Report(t.id, u.id, p, kind);
      assert r in reports <==> multiset(reports)[r] > 0;
      if r in reports {
        var x, y := ReportComesFromListings(tasks, i, j, r);
      }
      if x, y :| x in t.artifactPaths && y in u.artifactPaths && Clash(UseOf(t.id, x), UseOf(u.id, y)) == Some(r) {
        ClashIsReported(tasks, i, j, x, y);
      }
    }
    CallsMeaning(t, u, p);
  }

  ghost predicate Calls(t: TaskNode, u: TaskNode, p: Path, kind: Kind) {
    exists x, y :: x in t.artifactPaths && y in u.artifactPaths
                   && Clash(UseOf(t.id, x), UseOf(u.id, y)) == Some(Report(t.id, u.id, p, kind))
  }

  lemma CallsMeaning(t: TaskNode, u: TaskNode, p: Path)
    ensures Calls(t, u, p, WriteWrite) <==> !IsRead(p) && p in t.artifactPaths && p in u.artifactPaths
    ensures Calls(t, u, p, ReadWrite)
            <==> !IsRead(p) && ((p in t.artifactPaths && "r:" + p in u.artifactPaths)
                                || ("r:" + p in t.artifactPaths && p in u.artifactPaths))
  {
    hide UseOf, Clash, IsRead;
    forall x, y
      ensures Clash(UseOf(t.id, x), UseOf(u.id, y)) == Some(Report(t.id, u.id, p, WriteWrite))
              <==> !IsRead(p) && x == p && y == p
      ensures Clash(UseOf(t.id, x), UseOf(u.id, y)) == Some(Report(t.id, u.id, p, ReadWrite))
              <==> (!IsRead(p) && x == p && y == "r:" + p) || (!IsRead(p) && x == "r:" + p && y == p)
    {
      ClashKinds(t.id, u.id, x, y, p);
    }
  }

  lemma SharesPathIff(t: TaskNode, u: TaskNode)
    ensures SharesPath(t, u) <==> BothWrite(t, u) || BothRead(t, u)
  {
    if p :| p in t.artifactPaths && p in u.artifactPaths {
      assert if IsRead(p) then BothRead(t, u) else BothWrite(t, u);
    }
  }

  /**
   * The detector and the locks agree on two tasks exactly when both write some path, or when
   * they share a read path if and only if one of them writes what the other reads.
   */
  lemma {:induction false} ReportsMatchLocksIff(tasks: seq<TaskNode>, reports: seq<Report>, i: nat, j: nat)
    requires UniqueIds(tasks) && ReportsPairs(reports, Uses(tasks)) && i < j < |tasks|
    ensures var t, u := tasks[i], tasks[j];
            (Reported(reports, t, u) <==> SharesPath(t, u)) <==> BothWrite(t, u) || (BothRead(t, u) <==> Mixed(t, u))
  {
    hide BothWrite, BothRead, Mixed, SharesPath, PathsClash, Reported;
    ReportedIffPathsClash(tasks, reports, i, j);
    PathsClashIff(tasks[i], tasks[j]);
    SharesPathIff(tasks[i], tasks[j]);
  }

  predicate NoReadPrefix(t: TaskNode) {
    forall p :: p in t.artifactPaths ==> !IsRead(p)
  }

  /** In particular they agree on tasks that list no read path. */
  lemma {:induction false} ReportsAreLockConflicts(tasks: seq<TaskNode>, reports: seq<Report>, i: nat, j: nat)
    requires UniqueIds(tasks) && ReportsPairs(reports, Uses(tasks)) && i < j < |tasks|
    requires NoReadPrefix(tasks[i]) && NoReadPrefix(tasks[j])
    ensures Reported(reports, tasks[i], tasks[j]) <==> SharesPath(tasks[i], tasks[j])
  {
    var t, u := tasks[i], tasks[j];
    ReportsMatchLocksIff(tasks, reports, i, j);
    if p :| p in t.artifactPaths && !IsRead(p) && "r:" + p in u.artifactPaths {
      ReadOf(u.id, p);
    }
    if p :| p in u.artifactPaths && !IsRead(p) && "r:" + p in t.artifactPaths {
      ReadOf(t.id, p);
    }
  }

  /** Both ways of disagreeing occur: two readers of one path, and a reader next to a writer. */
  lemma ReadPrefixesDisagreeWithLocks()
    ensures var readers := [TaskNode("a", [], ["r:x"], 2), TaskNode("b", [], ["r:x"], 2)];
            SharesPath(readers[0], readers[1]) && !PathsClash(readers[0], readers[1])
    ensures var mixed := [TaskNode("a", [], ["x"], 2), TaskNode("b", [], ["r:x"], 2)];
            PathsClash(mixed[0], mixed[1]) && !SharesPath(mixed[0], mixed[1])
  {
    var a, b, c := TaskNode("a", [], ["x"], 2), TaskNode("b", [], ["r:x"], 2), TaskNode("a", [], ["r:x"], 2);
    assert "r:" + "x" == "r:x";
    ReadOf("b", "x");
    assert "x" in a.artifactPaths && "r:x" in b.artifactPaths && "r:x" in c.artifactPaths;
    assert Clash(UseOf("a", "x"), UseOf("b", "r:x")).Some?;
  }
}
