/**
 * Local cleanup on an agent: log files that reached the bucket are deleted when they are old, and
 * then, oldest first, until the rest fits a budget; the table of finished jobs is cut to a size.
 * With every log goes its marker, uncounted; the marker of an agent log is an entry itself.
 */
module Cleanup {
  import opened Base
  import LogDelivery
  import LogKeys
  import LogPipeline
  import opened Sorting

  /** One entry of the directory scan; a marker that is absent or does not parse is `None`. */
  datatype LogFile = LogFile(name: string, stem: string, size: nat, modified: int, agentLog: bool, marker: Option<nat>)

  datatype Policy = Policy(retention: nat, maxTotalBytes: nat)

  /** What one cleanup goes by: the running jobs and the clock, both sampled once. */
  datatype Moment = Moment(running: set<string>, now: int)

  const ACTIVE_SECS := 3600

  function Modified(f: LogFile): int { f.modified }

  /** A modification time in the future counts as no age at all. */
  function Age(f: LogFile, now: int): nat {
    if f.modified < now then now - f.modified else 0
  }

  predicate Uploaded(f: LogFile) {
    f.marker.GetOr(0) >= f.size
  }

  /** Files neither pass takes. */
  predicate Protected(f: LogFile, s: Moment) {
    !Uploaded(f) || f.stem in s.running || (f.agentLog && Age(f, s.now) < ACTIVE_SECS)
  }

  predicate Expired(f: LogFile, s: Moment, p: Policy) {
    Age(f, s.now) >= p.retention
  }

  function CompanionOf(f: LogFile): string {
    LogKeys.MarkerName(f.name)
  }

  /** No two entries of a directory have the same name. */
  ghost predicate Directory(files: seq<LogFile>) {
    forall i, j | 0 <= i < j < |files| :: files[i].name != files[j].name
  }

  // ---- Totals over entries ----

  function Size(f: LogFile): nat { f.size }

  function One(f: LogFile): nat { 1 }

  function Total(files: seq<LogFile>, w: LogFile -> nat): nat {
    if files == [] then 0 else Total(files[..|files| - 1], w) + w(files[|files| - 1])
  }

  /** The total over the entries with certain names. */
  function TotalIn(files: seq<LogFile>, names: set<string>, w: LogFile -> nat): nat {
    if files == [] then 0
    else
      var f := files[|files| - 1];
      TotalIn(files[..|files| - 1], names, w) + if f.name in names then w(f) else 0
  }

  /** The entries whose names are not among `gone`. */
  function Left(files: seq<LogFile>, gone: set<string>): seq<LogFile> {
    if files == [] then []
    else
      var f, rest := files[|files| - 1], Left(files[..|files| - 1], gone);
      if f.name in gone then rest else rest + [f]
  }

  lemma TotalSnoc(files: seq<LogFile>, f: LogFile, w: LogFile -> nat)
    ensures Total(files + [f], w) == Total(files, w) + w(f)
  {
    assert (files + [f])[..|files|] == files;
  }

  lemma {:induction false} TotalOne(files: seq<LogFile>)
    ensures Total(files, One) == |files|
  {
    if files != [] { TotalOne(files[..|files| - 1]); }
  }

  lemma {:induction false} LeftTotal(files: seq<LogFile>, gone: set<string>, w: LogFile -> nat)
    ensures Total(Left(files, gone), w) + TotalIn(files, gone, w) == Total(files, w)
    ensures forall f :: f in Left(files, gone) <==> f in files && f.name !in gone
  {
    if files != [] {
      var n := |files| - 1;
      LeftTotal(files[..n], gone, w);
      assert files == files[..n] + [files[n]];
      TotalSnoc(Left(files[..n], gone), files[n], w);
    }
  }

  lemma {:induction false} TotalInSum(files: seq<LogFile>, a: set<string>, b: set<string>, w: LogFile -> nat)
    requires a !! b
    ensures TotalIn(files, a + b, w) == TotalIn(files, a, w) + TotalIn(files, b, w)
  {
    if files != [] { TotalInSum(files[..|files| - 1], a, b, w); }
  }

  lemma {:induction false} TotalInNothing(files: seq<LogFile>, names: set<string>, w: LogFile -> nat)
    ensures TotalIn(files, names, w) == 0 <==> forall f | f in files && f.name in names :: w(f) == 0
  {
    if files != [] {
      TotalInNothing(files[..|files| - 1], names, w);
      assert files == files[..|files| - 1] + [files[|files| - 1]];
    }
  }

  lemma {:induction false} TotalOfOne(files: seq<LogFile>, f: LogFile, w: LogFile -> nat)
    requires Directory(files) && f in files
    ensures TotalIn(files, {f.name}, w) == w(f)
  {
    var n := |files| - 1;
    assert files == files[..n] + [files[n]];
    if files[n] == f {
      forall g | g in files[..n] ensures g.name != f.name {
        var i :| 0 <= i < n && files[i] == g;
      }
      TotalInNothing(files[..n], {f.name}, w);
    } else {
      TotalOfOne(files[..n], f, w);
      var i :| 0 <= i < n && files[i] == f;
    }
  }

  lemma {:induction false} InsertTotal(files: seq<LogFile>, f: LogFile)
    ensures Total(Insert(files, f, Modified), Size) == Total(files, Size) + f.size
  {
    if files != [] && Modified(files[0]) <= Modified(f) {
      InsertTotal(files[1..], f);
      TotalFirst(files, Size);
      TotalFirst(Insert(files, f, Modified), Size);
      assert Insert(files, f, Modified)[1..] == Insert(files[1..], f, Modified);
    } else {
      TotalFirst([f] + files, Size);
      assert ([f] + files)[1..] == files;
    }
  }

  lemma {:induction false} TotalFirst(files: seq<LogFile>, w: LogFile -> nat)
    requires files != []
    ensures Total(files, w) == w(files[0]) + Total(files[1..], w)
  {
    var n := |files| - 1;
    if n == 0 {
      assert files[..0] == [] && files[1..] == [];
    } else {
      TotalFirst(files[..n], w);
      assert files[..n][1..] == files[1..][..n - 1] && files[1..][n - 1] == files[n];
    }
  }

  lemma {:induction false} SortTotal(files: seq<LogFile>)
    ensures Total(SortBy(files, Modified), Size) == Total(files, Size)
  {
    if files != [] {
      SortTotal(files[..|files| - 1]);
      InsertTotal(SortBy(files[..|files| - 1], Modified), files[|files| - 1]);
    }
  }

  // ---- What a cleanup removes ----

  /**
   * What is gone so far: `removed` were counted, with `bytes` in all; `companions` are the markers
   * deleted along with them, which nothing counts.
   */
  datatype Tally = Tally(removed: set<string>, companions: set<string>, bytes: nat) {
    function Gone(): set<string> { removed + companions }
  }

  const NOTHING := Tally({}, {}, 0)

  /** A log is removed and counted, then its marker is deleted if that works. */
  function Drop(t: Tally, f: LogFile, ok: string -> bool): Tally {
    var marker := CompanionOf(f);
    Tally(t.removed + {f.name}, if ok(marker) && marker !in t.Gone() then t.companions + {marker} else t.companions,
          t.bytes + f.size)
  }

  /** Whether a file is still there and its removal succeeds. */
  predicate Goes(f: LogFile, t: Tally, ok: string -> bool) {
    f.name !in t.Gone() && ok(f.name)
  }

  /** The first pass, in the order of the listing. */
  function RetentionTally(files: seq<LogFile>, s: Moment, p: Policy, ok: string -> bool): Tally {
    if files == [] then NOTHING
    else
      var f, t := files[|files| - 1], RetentionTally(files[..|files| - 1], s, p, ok);
      if !Protected(f, s) && Expired(f, s, p) && Goes(f, t, ok) then Drop(t, f, ok) else t
  }

  /** Everything removable is removed, whatever the budget. */
  function Purge(files: seq<LogFile>, t0: Tally, s: Moment, ok: string -> bool): Tally {
    if files == [] then t0
    else
      var f, t := files[|files| - 1], Purge(files[..|files| - 1], t0, s, ok);
      if !Protected(f, s) && Goes(f, t, ok) then Drop(t, f, ok) else t
  }

  /** The total the second pass keeps: it started at `total` and only counted files came off it. */
  function Running(total: nat, t0: Tally, t: Tally): int {
    total + t0.bytes - t.bytes
  }

  /** The second pass; once within budget it changes nothing any more. */
  function SizeTally(files: seq<LogFile>, total: nat, t0: Tally, s: Moment, budget: nat, ok: string -> bool): Tally {
    if files == [] then t0
    else
      var f, t := files[|files| - 1], SizeTally(files[..|files| - 1], total, t0, s, budget, ok);
      if Running(total, t0, t) > budget && !Protected(f, s) && Goes(f, t, ok) then Drop(t, f, ok) else t
  }

  /** What the second pass goes over: what the first left, oldest first. */
  function Remaining(files: seq<LogFile>, s: Moment, p: Policy, ok: string -> bool): seq<LogFile> {
    SortBy(Left(files, RetentionTally(files, s, p, ok).Gone()), Modified)
  }

  /** Everything a cleanup removes. */
  function Cleaned(files: seq<LogFile>, s: Moment, p: Policy, ok1: string -> bool, ok2: string -> bool): Tally {
    var rest := Remaining(files, s, p, ok1);
    SizeTally(rest, Total(rest, Size), RetentionTally(files, s, p, ok1), s, p.maxTotalBytes, ok2)
  }

  /** What holds of everything removed so far. */
  ghost predicate Accounted(files: seq<LogFile>, t: Tally, s: Moment) {
    && t.removed !! t.companions
    && t.bytes == TotalIn(files, t.removed, Size) && |t.removed| == TotalIn(files, t.removed, One)
    && (forall n | n in t.removed :: exists f :: f in files && f.name == n && !Protected(f, s))
    && (forall n | n in t.companions :: exists f :: f in files && f.name in t.removed && n == CompanionOf(f))
  }

  lemma NothingIsAccounted(files: seq<LogFile>, s: Moment)
    ensures Accounted(files, NOTHING, s)
  {
    TotalInNothing(files, {}, Size);
    TotalInNothing(files, {}, One);
  }

  lemma DropAddsUp(files: seq<LogFile>, removed: set<string>, f: LogFile, w: LogFile -> nat)
    requires Directory(files) && f in files && f.name !in removed
    ensures TotalIn(files, removed + {f.name}, w) == TotalIn(files, removed, w) + w(f)
  {
    TotalInSum(files, removed, {f.name}, w);
    TotalOfOne(files, f, w);
  }

  lemma DropNames(files: seq<LogFile>, t: Tally, s: Moment, f: LogFile, ok: string -> bool)
    requires Accounted(files, t, s) && f in files && !Protected(f, s) && Goes(f, t, ok)
    ensures var d := Drop(t, f, ok);
      && d.removed !! d.companions
      && (forall n | n in d.removed :: exists g :: g in files && g.name == n && !Protected(g, s))
      && (forall n | n in d.companions :: exists g :: g in files && g.name in d.removed && n == CompanionOf(g))
  {
    hide Protected, TotalIn;
    assert |CompanionOf(f)| > |f.name|;
    var d := Drop(t, f, ok);
    hide CompanionOf;
    forall n | n in d.removed ensures exists g :: g in files && g.name == n && !Protected(g, s) {
      if n == f.name { assert f in files && f.name == n; }
    }
  }

  lemma DropIsAccounted(files: seq<LogFile>, t: Tally, s: Moment, f: LogFile, ok: string -> bool)
    requires Directory(files) && Accounted(files, t, s)
    requires f in files && !Protected(f, s) && Goes(f, t, ok)
    ensures Accounted(files, Drop(t, f, ok), s)
  {
    hide Protected, Directory, TotalIn, CompanionOf;
    DropNames(files, t, s, f, ok);
    DropAddsUp(files, t.removed, f, Size);
    DropAddsUp(files, t.removed, f, One);
  }

  lemma {:induction false} RetentionIsAccounted(files: seq<LogFile>, n: nat, s: Moment, p: Policy, ok: string -> bool)
    requires Directory(files) && n <= |files|
    ensures Accounted(files, RetentionTally(files[..n], s, p, ok), s)
  {
    hide Protected, Accounted, Directory;
    if n == 0 {
      NothingIsAccounted(files, s);
    } else {
      RetentionIsAccounted(files, n - 1, s, p, ok);
      assert files[..n][..n - 1] == files[..n - 1] && files[..n][n - 1] == files[n - 1];
      var t := RetentionTally(files[..n - 1], s, p, ok);
      if !Protected(files[n - 1], s) && Goes(files[n - 1], t, ok) { DropIsAccounted(files, t, s, files[n - 1], ok); }
    }
  }

  lemma {:induction false} SizeIsAccounted(files: seq<LogFile>, sorted: seq<LogFile>, n: nat, total: nat, t0: Tally, s: Moment,
                                           budget: nat, ok: string -> bool)
    requires Directory(files) && Accounted(files, t0, s) && n <= |sorted| && forall f | f in sorted :: f in files
    ensures Accounted(files, SizeTally(sorted[..n], total, t0, s, budget, ok), s)
  {
    hide Protected, Accounted, Directory, Running;
    if n > 0 {
      SizeIsAccounted(files, sorted, n - 1, total, t0, s, budget, ok);
      assert sorted[..n][..n - 1] == sorted[..n - 1] && sorted[..n][n - 1] == sorted[n - 1];
      var t := SizeTally(sorted[..n - 1], total, t0, s, budget, ok);
      if !Protected(sorted[n - 1], s) && Goes(sorted[n - 1], t, ok) { DropIsAccounted(files, t, s, sorted[n - 1], ok); }
    }
  }

  lemma RemainingIsLeft(files: seq<LogFile>, s: Moment, p: Policy, ok: string -> bool)
    ensures var t := RetentionTally(files, s, p, ok);
      && (forall f :: f in Remaining(files, s, p, ok) <==> f in files && f.name !in t.Gone())
      && Total(Remaining(files, s, p, ok), Size) + TotalIn(files, t.Gone(), Size) == Total(files, Size)
      && Ordered(Remaining(files, s, p, ok), Modified)
  {
    hide TotalIn, Total, RetentionTally;
    var t := RetentionTally(files, s, p, ok);
    LeftTotal(files, t.Gone(), Size);
    SortBySorts(Left(files, t.Gone()), Modified);
    SortTotal(Left(files, t.Gone()));
    SameElements(Left(files, t.Gone()), Remaining(files, s, p, ok));
  }

  lemma SameElements(a: seq<LogFile>, b: seq<LogFile>)
    requires multiset(a) == multiset(b)
    ensures forall f :: f in a <==> f in b
  {
    forall f ensures f in a <==> f in b {
      assert f in multiset(a) <==> f in multiset(b);
    }
  }

  lemma CleanedIsAccounted(files: seq<LogFile>, s: Moment, p: Policy, ok1: string -> bool, ok2: string -> bool)
    requires Directory(files)
    ensures Accounted(files, Cleaned(files, s, p, ok1, ok2), s)
  {
    hide Accounted, Directory, TotalIn, Total, RetentionTally, SizeTally, Remaining;
    var rest, t0 := Remaining(files, s, p, ok1), RetentionTally(files, s, p, ok1);
    assert files[..|files|] == files && rest[..|rest|] == rest;
    RetentionIsAccounted(files, |files|, s, p, ok1);
    RemainingIsLeft(files, s, p, ok1);
    SizeIsAccounted(files, rest, |rest|, Total(rest, Size), t0, s, p.maxTotalBytes, ok2);
  }

  /**
   * Conservation. Counted bytes, the bytes left, and the bytes of markers that were entries and
   * went uncounted with their logs add up to what was there; and so do the numbers of entries.
   */
  lemma Conservation(files: seq<LogFile>, s: Moment, p: Policy, ok1: string -> bool, ok2: string -> bool)
    requires Directory(files)
    ensures var t := Cleaned(files, s, p, ok1, ok2);
      && t.bytes + Total(Left(files, t.Gone()), Size) + TotalIn(files, t.companions, Size) == Total(files, Size)
      && |t.removed| + |Left(files, t.Gone())| + TotalIn(files, t.companions, One) == |files|
  {
    hide Cleaned, TotalIn, Total;
    var t := Cleaned(files, s, p, ok1, ok2);
    CleanedIsAccounted(files, s, p, ok1, ok2);
    TotalInSum(files, t.removed, t.companions, Size);
    TotalInSum(files, t.removed, t.companions, One);
    LeftTotal(files, t.Gone(), Size);
    LeftTotal(files, t.Gone(), One);
    TotalOne(files);
    TotalOne(Left(files, t.Gone()));
  }

  /** Every removed log's marker is gone as well. */
  ghost predicate Accompanied(t: Tally) {
    forall n | n in t.removed :: LogKeys.MarkerName(n) in t.Gone()
  }

  lemma {:induction false} PassesAccompany(files: seq<LogFile>, total: nat, t0: Tally, s: Moment, p: Policy, ok: string -> bool)
    requires forall n :: ok(n)
    ensures Accompanied(RetentionTally(files, s, p, ok))
    ensures Accompanied(t0) ==> Accompanied(SizeTally(files, total, t0, s, p.maxTotalBytes, ok))
  {
    hide Protected, Expired, Running;
    if files != [] { PassesAccompany(files[..|files| - 1], total, t0, s, p, ok); }
  }

  /**
   * When the two reported numbers alone account for the directory: removed plus remaining bytes
   * are the initial ones if and only if no marker deleted with its log was a non-empty entry --
   * with markers that can be deleted, if and only if no removed log had such a marker.
   */
  lemma BytesAddUpIff(files: seq<LogFile>, s: Moment, p: Policy, ok1: string -> bool, ok2: string -> bool)
    requires Directory(files)
    ensures var t := Cleaned(files, s, p, ok1, ok2);
      t.bytes + Total(Left(files, t.Gone()), Size) == Total(files, Size)
      <==> forall m | m in files && m.name in t.companions :: m.size == 0
    ensures var t := Cleaned(files, s, p, ok1, ok2);
      (forall n :: ok1(n) && ok2(n)) ==>
        (t.bytes + Total(Left(files, t.Gone()), Size) == Total(files, Size)
         <==> forall log, m | log in files && m in files && log.name in t.removed && m.name == CompanionOf(log) ::
                m.name in t.removed || m.size == 0)
  {
    hide RetentionTally, SizeTally, TotalIn, Total, Left, Remaining, Protected;
    Conservation(files, s, p, ok1, ok2);
    var t := Cleaned(files, s, p, ok1, ok2);
    TotalInNothing(files, t.companions, Size);
    CleanedIsAccounted(files, s, p, ok1, ok2);
    if forall n :: ok1(n) && ok2(n) {
      var rest, t0 := Remaining(files, s, p, ok1), RetentionTally(files, s, p, ok1);
      PassesAccompany(files, 0, NOTHING, s, p, ok1);
      PassesAccompany(rest, Total(rest, Size), t0, s, p, ok2);
    }
  }

  /** What goes is unprotected, or the marker of a log that goes and is unprotected. */
  lemma OnlyUnprotectedGo(files: seq<LogFile>, s: Moment, p: Policy, ok1: string -> bool, ok2: string -> bool, f: LogFile)
    requires Directory(files) && f in files && f.name in Cleaned(files, s, p, ok1, ok2).Gone()
    ensures !Protected(f, s)
      || exists log :: log in files && !Protected(log, s) && f.name == CompanionOf(log)
                       && log.name in Cleaned(files, s, p, ok1, ok2).removed
    ensures f.name in Cleaned(files, s, p, ok1, ok2).removed ==> !Protected(f, s)
    ensures f.name in Cleaned(files, s, p, ok1, ok2).removed ==>
      && (match f.marker case Some(acknowledged) => acknowledged >= f.size case None => f.size == 0)
      && f.stem !in s.running && (f.agentLog ==> s.now - f.modified >= 3600)
  {
    hide Cleaned, Protected, TotalIn;
    assert Removable(f, s) <==> !Protected(f, s);
    CleanedIsAccounted(files, s, p, ok1, ok2);
    var t := Cleaned(files, s, p, ok1, ok2);
  }

  // ---- The order and the end of the second pass ----

  /** The second pass, stopped before file `k`: over budget before each file up to there, not over it then. */
  ghost predicate StopsAt(files: seq<LogFile>, k: nat, total: nat, t0: Tally, s: Moment, budget: nat, ok: string -> bool) {
    && k <= |files|
    && (k == |files| || Running(total, t0, Purge(files[..k], t0, s, ok)) <= budget)
    && (forall j: nat | j < k :: Running(total, t0, Purge(files[..j], t0, s, ok)) > budget)
  }

  /**
   * The size pass is greedy: for one `k` it removes exactly the removable ones of the `k` oldest
   * files. By its own count it was over budget before each of them, and is not after the last,
   * unless no file is left to look at.
   */
  lemma {:induction false} TrimIsShortestCut(files: seq<LogFile>, total: nat, t0: Tally, s: Moment, budget: nat,
                                             ok: string -> bool) returns (k: nat)
    ensures StopsAt(files, k, total, t0, s, budget, ok)
    ensures SizeTally(files, total, t0, s, budget, ok) == Purge(files[..k], t0, s, ok)
    decreases |files|
  {
    hide Protected, Running, Goes, Drop;
    if files == [] {
      k := 0;
    } else {
      var n := |files| - 1;
      k := TrimIsShortestCut(files[..n], total, t0, s, budget, ok);
      assert forall j: nat | j <= n :: files[..n][..j] == files[..j];
      if k == n && Running(total, t0, Purge(files[..n], t0, s, ok)) > budget {
        assert files[..n + 1] == files;
        k := n + 1;
      }
    }
  }

  /**
   * The pass counts what is left from above: its total exceeds the bytes really left by those of
   * the markers deleted during the pass.
   */
  lemma RunningExceeds(files: seq<LogFile>, s: Moment, p: Policy, ok1: string -> bool, ok2: string -> bool)
    requires Directory(files)
    ensures var t0, t, rest := RetentionTally(files, s, p, ok1), Cleaned(files, s, p, ok1, ok2), Remaining(files, s, p, ok1);
      && t0.companions <= t.companions
      && Running(Total(rest, Size), t0, t)
         == Total(Left(files, t.Gone()), Size) + TotalIn(files, t.companions - t0.companions, Size)
  {
    hide TotalIn, Total, RetentionTally, SizeTally, Left, Directory, Accounted, Remaining;
    var t0, t := RetentionTally(files, s, p, ok1), Cleaned(files, s, p, ok1, ok2);
    var rest := Remaining(files, s, p, ok1);
    Conservation(files, s, p, ok1, ok2);
    RemainingIsLeft(files, s, p, ok1);
    RetentionBytes(files, s, p, ok1);
    SizeOnlyAdds(rest, Total(rest, Size), t0, s, p.maxTotalBytes, ok2);
    TotalInSum(files, t.companions - t0.companions, t0.companions, Size);
    assert t.companions - t0.companions + t0.companions == t.companions;
  }

  lemma RetentionBytes(files: seq<LogFile>, s: Moment, p: Policy, ok: string -> bool)
    requires Directory(files)
    ensures var t := RetentionTally(files, s, p, ok);
      TotalIn(files, t.Gone(), Size) == t.bytes + TotalIn(files, t.companions, Size)
  {
    hide TotalIn, RetentionTally, Directory;
    assert files[..|files|] == files;
    RetentionIsAccounted(files, |files|, s, p, ok);
    var t := RetentionTally(files, s, p, ok);
    TotalInSum(files, t.removed, t.companions, Size);
  }

  lemma {:induction false} SizeOnlyAdds(files: seq<LogFile>, total: nat, t0: Tally, s: Moment, budget: nat, ok: string -> bool)
    ensures var t := SizeTally(files, total, t0, s, budget, ok); t0.removed <= t.removed && t0.companions <= t.companions
  {
    hide Protected, Running, Goes;
    if files != [] { SizeOnlyAdds(files[..|files| - 1], total, t0, s, budget, ok); }
  }

  /** A pass in which removals succeed takes everything it may. */
  lemma {:induction false} RetentionTakes(files: seq<LogFile>, s: Moment, p: Policy, ok: string -> bool)
    requires forall f | f in files :: ok(f.name)
    ensures forall f | f in files && !Protected(f, s) && Expired(f, s, p) :: f.name in RetentionTally(files, s, p, ok).Gone()
  {
    hide Protected, Expired;
    if files != [] {
      var n := |files| - 1;
      assert files == files[..n] + [files[n]];
      assert forall f | f in files[..n] :: f in files;
      assert files[n] in files;
      RetentionTakes(files[..n], s, p, ok);
    }
  }

  lemma {:induction false} PurgeTakes(files: seq<LogFile>, t0: Tally, s: Moment, ok: string -> bool)
    ensures var t := Purge(files, t0, s, ok);
      && t0.Gone() <= t.Gone()
      && (forall f | f in files && !Protected(f, s) && ok(f.name) :: f.name in t.Gone())
      && (forall n | n in t.removed :: n in t0.removed || exists i :: 0 <= i < |files| && files[i].name == n)
  {
    hide Protected;
    if files != [] {
      var n := |files| - 1;
      PurgeTakes(files[..n], t0, s, ok);
      assert files == files[..n] + [files[n]];
      forall m | m in Purge(files[..n], t0, s, ok).removed && m !in t0.removed
        ensures exists i :: 0 <= i < |files| && files[i].name == m
      {
        var i :| 0 <= i < n && files[..n][i].name == m;
        assert files[i].name == m;
      }
    }
  }

  /**
   * What cleanup achieves when removals succeed: no unprotected file at or past retention is left,
   * and what is left fits the budget or is all protected.
   */
  lemma CleanupPostcondition(files: seq<LogFile>, s: Moment, p: Policy, ok1: string -> bool, ok2: string -> bool)
    requires Directory(files) && forall f | f in files :: ok1(f.name) && ok2(f.name)
    ensures var left := Left(files, Cleaned(files, s, p, ok1, ok2).Gone());
      && (forall f | f in left :: Protected(f, s) || !Expired(f, s, p))
      && (Total(left, Size) <= p.maxTotalBytes || forall f | f in left :: Protected(f, s))
  {
    hide Protected, Expired, Total, TotalIn, Directory, RetentionTally, SizeTally, Purge, Left, Remaining;
    var rest, t0, t := Remaining(files, s, p, ok1), RetentionTally(files, s, p, ok1), Cleaned(files, s, p, ok1, ok2);
    var k := TrimIsShortestCut(rest, Total(rest, Size), t0, s, p.maxTotalBytes, ok2);
    LeftTotal(files, t.Gone(), Size);
    RemainingIsLeft(files, s, p, ok1);
    RetentionTakes(files, s, p, ok1);
    PurgeTakes(rest[..k], t0, s, ok2);
    RunningExceeds(files, s, p, ok1, ok2);
    if k == |rest| { assert rest[..k] == rest; }
  }

  /** The size pass takes the oldest first: what it counts as removed is no newer than anything removable it leaves. */
  lemma OldestFirst(files: seq<LogFile>, s: Moment, p: Policy, ok1: string -> bool, ok2: string -> bool, f: LogFile, g: LogFile)
    requires Directory(files) && f in files && g in files
    requires f.name in Cleaned(files, s, p, ok1, ok2).removed - RetentionTally(files, s, p, ok1).removed
    requires g.name !in Cleaned(files, s, p, ok1, ok2).Gone() && !Protected(g, s) && ok2(g.name)
    ensures f.modified <= g.modified
  {
    hide Protected, Total, RetentionTally, SizeTally, Purge, Left, Remaining, TotalIn;
    var rest, t0 := Remaining(files, s, p, ok1), RetentionTally(files, s, p, ok1);
    var k := TrimIsShortestCut(rest, Total(rest, Size), t0, s, p.maxTotalBytes, ok2);
    PurgeTakes(rest[..k], t0, s, ok2);
    RemainingIsLeft(files, s, p, ok1);
    var i :| 0 <= i < k && rest[i].name == f.name;
    SameNameSameFile(files, f, rest[i]);
    SizeOnlyAdds(rest, Total(rest, Size), t0, s, p.maxTotalBytes, ok2);
    assert g in rest && g !in rest[..k];
    var j :| 0 <= j < |rest| && rest[j] == g;
    assert forall l | 0 <= l < k :: rest[l] in rest[..k];
    OrderedPairs(rest, Modified, i, j);
  }

  /** The first pass counts only what may go and is past retention. */
  lemma {:induction false} RetentionIsExpired(files: seq<LogFile>, s: Moment, p: Policy, ok: string -> bool, n: string)
    requires n in RetentionTally(files, s, p, ok).removed
    ensures exists f :: f in files && f.name == n && Removable(f, s) && Expired(f, s, p)
  {
    hide Protected, Removable, Expired;
    var last := |files| - 1;
    assert files == files[..last] + [files[last]];
    assert files[last] in files && forall f | f in files[..last] :: f in files;
    if n in RetentionTally(files[..last], s, p, ok).removed { RetentionIsExpired(files[..last], s, p, ok, n); }
  }

  /** What the first pass counts and takes, in the fields of the entries. */
  lemma RetentionMeans(files: seq<LogFile>, s: Moment, p: Policy, ok: string -> bool)
    ensures forall n | n in RetentionTally(files, s, p, ok).removed :: exists f | f in files && f.name == n ::
      && (match f.marker case Some(acknowledged) => acknowledged >= f.size case None => f.size == 0)
      && f.stem !in s.running && (f.agentLog ==> s.now - f.modified >= 3600)
      && (p.retention == 0 || s.now - f.modified >= p.retention)
    ensures (forall f | f in files :: ok(f.name)) ==>
      forall f | f in files && f.stem !in s.running && (f.agentLog ==> s.now - f.modified >= 3600)
        && (match f.marker case Some(acknowledged) => acknowledged >= f.size case None => f.size == 0)
        && (p.retention == 0 || s.now - f.modified >= p.retention) :: f.name in RetentionTally(files, s, p, ok).Gone()
  {
    hide RetentionTally, Protected;
    forall n | n in RetentionTally(files, s, p, ok).removed
      ensures exists f :: f in files && f.name == n && Removable(f, s) && Expired(f, s, p)
    {
      RetentionIsExpired(files, s, p, ok, n);
    }
    if forall f | f in files :: ok(f.name) {
      RetentionTakes(files, s, p, ok);
      assert forall f | f in files && Removable(f, s) && Expired(f, s, p) :: f.name in RetentionTally(files, s, p, ok).Gone();
    }
  }

  /** Within the budget the second pass has nothing to do. */
  lemma WithinBudget(files: seq<LogFile>, s: Moment, p: Policy, ok1: string -> bool, ok2: string -> bool)
    requires Total(files, Size) <= p.maxTotalBytes
    ensures Cleaned(files, s, p, ok1, ok2) == RetentionTally(files, s, p, ok1)
  {
    hide Total, TotalIn, RetentionTally, Protected, Remaining;
    var rest, t0 := Remaining(files, s, p, ok1), RetentionTally(files, s, p, ok1);
    RemainingIsLeft(files, s, p, ok1);
    WithinBudgetStays(rest, 0, Total(rest, Size), t0, s, p.maxTotalBytes, ok2);
  }

  /** Neither pass is barred from a file, in its fields. */
  predicate Removable(f: LogFile, s: Moment)
    ensures Removable(f, s) <==> !Protected(f, s)
  {
    && (match f.marker case Some(acknowledged) => acknowledged >= f.size case None => f.size == 0)
    && f.stem !in s.running
    && (f.agentLog ==> s.now - f.modified >= 3600)
  }

  lemma ExpiredMeans(f: LogFile, s: Moment, p: Policy)
    ensures Expired(f, s, p) <==> p.retention == 0 || s.now - f.modified >= p.retention
  {
  }

  /** What a cleanup leaves and takes, entry by entry. */
  lemma CleanedMeans(files: seq<LogFile>, s: Moment, p: Policy, ok1: string -> bool, ok2: string -> bool)
    requires Directory(files)
    ensures var left := Left(files, Cleaned(files, s, p, ok1, ok2).Gone());
      && (forall f | f in left :: f in files)
      && (forall f | f in files && f !in left && (forall log | log in files :: f.name != log.name + ".shipped") ::
            Removable(f, s) && (Total(files, Size) <= p.maxTotalBytes ==> Expired(f, s, p)))
      && (forall f | f in files && f !in left && !Removable(f, s) ::
            exists log | log in files && log !in left :: f.name == log.name + ".shipped" && Removable(log, s))
      && (forall f, g | f in files && f !in left && g in left && Removable(g, s) && !Expired(f, s, p) && ok2(g.name)
            && (forall log | log in files :: f.name != log.name + ".shipped") :: f.modified <= g.modified)
      && ((forall f | f in files :: ok1(f.name) && ok2(f.name)) ==>
            && (forall f | f in left && Removable(f, s) :: !Expired(f, s, p))
            && (Total(left, Size) <= p.maxTotalBytes || forall f | f in left :: !Removable(f, s)))
  {
    hide Cleaned, Removable, Protected, Expired, Total, RetentionTally, Left, Directory;
    var t := Cleaned(files, s, p, ok1, ok2);
    LeftTotal(files, t.Gone(), Size);
    var left := Left(files, t.Gone());
    if forall f | f in files :: ok1(f.name) && ok2(f.name) { CleanupPostcondition(files, s, p, ok1, ok2); }
    forall f | f in files && f !in left && !Removable(f, s)
      ensures exists log | log in files && log !in left :: f.name == log.name + ".shipped" && Removable(log, s)
    {
      OnlyUnprotectedGo(files, s, p, ok1, ok2, f);
    }
    forall f | f in files && f !in left && forall log | log in files :: f.name != log.name + ".shipped"
      ensures Removable(f, s) && (Total(files, Size) <= p.maxTotalBytes ==> Expired(f, s, p))
      ensures forall g | g in left && Removable(g, s) && !Expired(f, s, p) && ok2(g.name) :: f.modified <= g.modified
    {
      GoneIsCounted(files, s, p, ok1, ok2, f);
      if f.name in RetentionTally(files, s, p, ok1).removed {
        RetentionIsExpired(files, s, p, ok1, f.name);
        var e :| e in files && e.name == f.name && Removable(e, s) && Expired(e, s, p);
        SameNameSameFile(files, e, f);
      } else {
        if Total(files, Size) <= p.maxTotalBytes { WithinBudget(files, s, p, ok1, ok2); }
        forall g | g in left && Removable(g, s) && ok2(g.name) ensures f.modified <= g.modified {
          OldestFirst(files, s, p, ok1, ok2, f, g);
        }
      }
    }
  }

  /** What goes and is no marker of an entry was removed and counted. */
  lemma GoneIsCounted(files: seq<LogFile>, s: Moment, p: Policy, ok1: string -> bool, ok2: string -> bool, f: LogFile)
    requires Directory(files) && f in files && f.name in Cleaned(files, s, p, ok1, ok2).Gone()
    requires forall log | log in files :: f.name != log.name + ".shipped"
    ensures f.name in Cleaned(files, s, p, ok1, ok2).removed && Removable(f, s)
  {
    hide Cleaned, Removable, Protected, TotalIn, Directory;
    CleanedIsAccounted(files, s, p, ok1, ok2);
    OnlyUnprotectedGo(files, s, p, ok1, ok2, f);
  }

  lemma SameNameSameFile(files: seq<LogFile>, f: LogFile, g: LogFile)
    requires Directory(files) && f in files && g in files && f.name == g.name
    ensures f == g
  {
  }

  lemma {:induction false} NothingLeft(files: seq<LogFile>, gone: set<string>)
    requires forall f | f in files :: f.name in gone
    ensures Left(files, gone) == []
  {
    if files != [] {
      assert files == files[..|files| - 1] + [files[|files| - 1]];
      NothingLeft(files[..|files| - 1], gone);
    }
  }

  /** Every removal succeeds. */
  predicate Always(name: string) { true }

  /** The scan of one shipped agent log past retention and its marker. */
  const SHIPPED_LOG := [LogFile("agent.log.1", "agent.log", 5, 0, true, Some(5)),
                        LogFile("agent.log.1.shipped", "agent.log.1", 1, 0, true, None)]

  /** The marker is protected, yet it goes with its log, and the byte it held is not reported. */
  lemma MarkerGoesUncounted()
    ensures Directory(SHIPPED_LOG)
    ensures var s, p := Moment({}, 100000), Policy(10, 1000);
      var t := Cleaned(SHIPPED_LOG, s, p, Always, Always);
      && Protected(SHIPPED_LOG[1], s)
      && t == Tally({"agent.log.1"}, {"agent.log.1.shipped"}, 5)
      && Left(SHIPPED_LOG, t.Gone()) == [] && Total(SHIPPED_LOG, Size) == 6
  {
    var s, p := Moment({}, 100000), Policy(10, 1000);
    var ok, gone := Always, {"agent.log.1", "agent.log.1.shipped"};
    assert "agent.log.1" + ".shipped" == "agent.log.1.shipped";
    assert SHIPPED_LOG[..1] == [SHIPPED_LOG[0]] && SHIPPED_LOG[..1][..0] == [];
    assert RetentionTally(SHIPPED_LOG[..1], s, p, ok) == Tally({"agent.log.1"}, {"agent.log.1.shipped"}, 5);
    assert RetentionTally(SHIPPED_LOG, s, p, ok) == Tally({"agent.log.1"}, {"agent.log.1.shipped"}, 5);
    assert RetentionTally(SHIPPED_LOG, s, p, ok).Gone() == gone;
    NothingLeft(SHIPPED_LOG, gone);
    assert Remaining(SHIPPED_LOG, s, p, ok) == SortBy([], Modified) == [];
    assert Total([SHIPPED_LOG[0]], Size) == 5;
  }

  // ---- Cleanup after shipping ----

  /** The directory entry describes the file and marker of a channel. */
  predicate Describes(f: LogFile, c: LogPipeline.Channel) {
    !c.deleted && f.size == |c.log| && f.marker.GetOr(0) == LogPipeline.ReadMarker(c.marker)
  }

  /**
   * Deleting is safe: in a run whose chunks are republished at their old boundaries and lengths, a
   * source that a cleanup at the end removes is, byte for byte, at the controller or in the bucket.
   */
  lemma CleanupLosesNothing(run: seq<LogPipeline.Step>, files: seq<LogFile>, f: LogFile, s: Moment, p: Policy,
                            ok1: string -> bool, ok2: string -> bool)
    requires LogPipeline.Legal(LogPipeline.FRESH, run)
    requires LogDelivery.Regular(LogPipeline.Exec(LogPipeline.FRESH, run).sent)
    requires Describes(f, LogPipeline.Exec(LogPipeline.FRESH, run))
    requires Directory(files) && f in files && LogKeys.SafeSource(f.name)
    requires f.name in Cleaned(files, s, p, ok1, ok2).Gone()
    ensures var c := LogPipeline.Exec(LogPipeline.FRESH, run);
      LogPipeline.Enabled(c, LogPipeline.DeleteLocal) && forall b: nat | b < |c.log| :: LogDelivery.Kept(c, b)
  {
    SourcesAreUploaded(files, f, s, p, ok1, ok2);
    LogDelivery.NoGapNoLoss(run);
  }

  lemma SourcesAreUploaded(files: seq<LogFile>, f: LogFile, s: Moment, p: Policy, ok1: string -> bool, ok2: string -> bool)
    requires Directory(files) && f in files && LogKeys.SafeSource(f.name)
    requires f.name in Cleaned(files, s, p, ok1, ok2).Gone()
    ensures Uploaded(f)
  {
    hide Cleaned;
    forall log | log in files ensures CompanionOf(log) != f.name {
      LogKeys.MarkersAreNeverShipped(log.name);
    }
    OnlyUnprotectedGo(files, s, p, ok1, ok2, f);
  }

  lemma DropCounts(t: Tally, f: LogFile, ok: string -> bool)
    ensures Drop(t, f, ok).bytes == t.bytes + f.size
  {
  }

  /** Once the second pass is within budget it changes nothing any more. */
  lemma {:induction false} WithinBudgetStays(files: seq<LogFile>, i: nat, total: nat, t0: Tally, s: Moment, budget: nat,
                                             ok: string -> bool)
    requires i <= |files|
    requires i < |files| ==> Running(total, t0, SizeTally(files[..i], total, t0, s, budget, ok)) <= budget
    ensures SizeTally(files, total, t0, s, budget, ok) == SizeTally(files[..i], total, t0, s, budget, ok)
    decreases |files|
  {
    if i == |files| {
      assert files[..i] == files;
    } else {
      assert files[..|files| - 1][..i] == files[..i];
      WithinBudgetStays(files[..|files| - 1], i, total, t0, s, budget, ok);
    }
  }

  // ---- The job manager ----

  datatype Job = Job(terminal: bool, finishedAt: Option<int>)

  const FINISHED_RETAINED: nat := 50

  function Terminal(jobs: map<string, Job>): set<string> {
    set id | id in jobs && jobs[id].terminal
  }

  /** When a job finished; a missing time counts as zero. */
  function FinishTime(jobs: map<string, Job>): string -> int {
    id => if id in jobs then jobs[id].finishedAt.GetOr(0) else 0
  }

  lemma FinishTimeMeans(jobs: map<string, Job>)
    ensures forall id | id in jobs :: FinishTime(jobs)(id) == match jobs[id].finishedAt case Some(t) => t case None => 0
  {
  }

  /** How many finished jobs are left when the first `excess` of them are dropped. */
  lemma PruneCount(jobs: map<string, Job>, sorted: seq<string>, excess: nat)
    requires multiset(sorted) == multiset(Terminal(jobs)) && excess <= |sorted|
    ensures var after := jobs - Elements(sorted[..excess]);
      && |Terminal(after)| == |sorted| - excess
      && (forall id | id in jobs && id !in after :: jobs[id].terminal)
  {
    FirstOfSet(sorted, Terminal(jobs), excess);
    var doomed := Elements(sorted[..excess]);
    assert Terminal(jobs - doomed) == Terminal(jobs) - doomed;
    assert |multiset(sorted)| == |multiset(Terminal(jobs))|;
  }

  /** None of those dropped finished after one that is left. */
  lemma PruneOrder(jobs: map<string, Job>, sorted: seq<string>, excess: nat, i: nat, kept: string)
    requires multiset(sorted) == multiset(Terminal(jobs)) && Ordered(sorted, FinishTime(jobs))
    requires i < excess <= |sorted| && kept in Terminal(jobs) && kept !in sorted[..excess]
    ensures FinishTime(jobs)(sorted[i]) <= FinishTime(jobs)(kept)
  {
    hide Terminal, FinishTime;
    assert kept in multiset(sorted);
    var j :| 0 <= j < |sorted| && sorted[j] == kept;
    OrderedPairs(sorted, FinishTime(jobs), i, j);
  }

  /** Dropping the first `excess` of the finished jobs in the order of their times. */
  lemma PruneResult(jobs: map<string, Job>, finished: seq<string>, excess: nat)
    requires multiset(finished) == multiset(Terminal(jobs)) && excess <= |finished|
    ensures var sorted := SortBy(finished, FinishTime(jobs));
      && |sorted| == |finished|
      && var after := jobs - Elements(sorted[..excess]);
         && |Terminal(after)| == |finished| - excess
         && (forall id | id in jobs && id !in after :: jobs[id].terminal)
         && (forall gone, kept | gone in jobs && gone !in after && kept in Terminal(after) ::
               FinishTime(jobs)(gone) <= FinishTime(jobs)(kept))
  {
    hide FinishTime;
    var sorted := SortBy(finished, FinishTime(jobs));
    SortBySorts(finished, FinishTime(jobs));
    assert |multiset(sorted)| == |multiset(finished)|;
    PruneCount(jobs, sorted, excess);
    forall i: nat, kept | i < excess && kept in Terminal(jobs) && kept !in sorted[..excess]
      ensures FinishTime(jobs)(sorted[i]) <= FinishTime(jobs)(kept)
    {
      PruneOrder(jobs, sorted, excess, i, kept);
    }
  }

  class JobManager {
    var jobs: map<string, Job>
    var files: seq<LogFile>

    constructor (jobs: map<string, Job>, files: seq<LogFile>)
      ensures this.jobs == jobs && this.files == files
    {
      this.jobs, this.files := jobs, files;
    }

    function RunningJobs(): set<string>
      reads this
    {
      set id | id in jobs && !jobs[id].terminal
    }

    /** Both passes. What is left and what is reported are those of the specification. */
    method Cleanup(now: int, p: Policy, ok1: string -> bool, ok2: string -> bool)
        returns (removedFiles: nat, removedBytes: nat)
      requires Directory(files)
      modifies this`files
      ensures var t := Cleaned(old(files), Moment(RunningJobs(), now), p, ok1, ok2);
        && files == Left(old(files), t.Gone())
        && removedFiles == |t.removed| && removedBytes == t.bytes
      // What goes and is no marker: it was acknowledged in full, its job is not running, and an
      // agent log has been idle for an hour. Within the budget it is past retention.
      ensures forall f | f in files :: f in old(files)
      ensures forall f | f in old(files) && f !in files && (forall log | log in old(files) :: f.name != log.name + ".shipped") ::
        && (match f.marker case Some(acknowledged) => acknowledged >= f.size case None => f.size == 0)
        && (f.stem in jobs ==> jobs[f.stem].terminal)
        && (f.agentLog ==> now - f.modified >= 3600)
        && (Total(old(files), Size) <= p.maxTotalBytes ==> p.retention == 0 || now - f.modified >= p.retention)
      // What else goes is the marker of a log that goes with it.
      ensures forall f | f in old(files) && f !in files
                && !((match f.marker case Some(acknowledged) => acknowledged >= f.size case None => f.size == 0)
                     && (f.stem in jobs ==> jobs[f.stem].terminal) && (f.agentLog ==> now - f.modified >= 3600)) ::
        exists log | log in old(files) && log !in files :: f.name == log.name + ".shipped"
      // Oldest first: what goes before its retention is no newer than what may go and stays.
      ensures forall f, g | f in old(files) && f !in files && p.retention > 0 && now - f.modified < p.retention && g in files && ok2(g.name)
                && (forall log | log in old(files) :: f.name != log.name + ".shipped")
                && (match g.marker case Some(acknowledged) => acknowledged >= g.size case None => g.size == 0)
                && (g.stem in jobs ==> jobs[g.stem].terminal) && (g.agentLog ==> now - g.modified >= 3600) ::
        f.modified <= g.modified
      // When removals succeed, what may go and is past retention goes, and the rest fits the
      // budget unless nothing of it may go.
      ensures (forall f | f in old(files) :: ok1(f.name) && ok2(f.name)) ==>
        && (forall f | f in files && (f.stem in jobs ==> jobs[f.stem].terminal) && (f.agentLog ==> now - f.modified >= 3600)
              && (match f.marker case Some(acknowledged) => acknowledged >= f.size case None => f.size == 0) ::
              p.retention > 0 && now - f.modified < p.retention)
        && (Total(files, Size) <= p.maxTotalBytes
            || forall f | f in files && (f.stem in jobs ==> jobs[f.stem].terminal) && (f.agentLog ==> now - f.modified >= 3600) ::
                 match f.marker case Some(acknowledged) => acknowledged < f.size case None => f.size > 0)
    {
      hide RetentionTally, SizeTally, Left, Protected, Expired, Total;
      var s := Moment(RunningJobs(), now);
      CleanedMeans(files, s, p, ok1, ok2);
      forall f ensures Expired(f, s, p) <==> p.retention == 0 || now - f.modified >= p.retention { ExpiredMeans(f, s, p); }
      var t := RetentionPass(s, p, ok1);
      var remaining := SortBy(Left(files, t.Gone()), Modified);
      t := SizePass(remaining, t, s, p, ok2);
      files := Left(files, t.Gone());
      removedFiles, removedBytes := |t.removed|, t.bytes;
    }

    method RetentionPass(s: Moment, p: Policy, ok: string -> bool) returns (t: Tally)
      ensures t == RetentionTally(files, s, p, ok)
      // What it counts may go and is past retention; all of that goes when removals succeed.
      ensures forall n | n in t.removed :: exists f | f in files && f.name == n ::
        && (match f.marker case Some(acknowledged) => acknowledged >= f.size case None => f.size == 0)
        && f.stem !in s.running && (f.agentLog ==> s.now - f.modified >= 3600)
        && (p.retention == 0 || s.now - f.modified >= p.retention)
      ensures (forall f | f in files :: ok(f.name)) ==>
        forall f | f in files && f.stem !in s.running && (f.agentLog ==> s.now - f.modified >= 3600)
          && (match f.marker case Some(acknowledged) => acknowledged >= f.size case None => f.size == 0)
          && (p.retention == 0 || s.now - f.modified >= p.retention) :: f.name in t.removed || f.name in t.companions
    {
      RetentionMeans(files, s, p, ok);
      t := NOTHING;
      for i := 0 to |files|
        invariant t == RetentionTally(files[..i], s, p, ok)
      {
        var f := files[i];
        assert files[..i + 1][..i] == files[..i];
        if Uploaded(f) && f.stem !in s.running && !(f.agentLog && Age(f, s.now) < ACTIVE_SECS)
          && Age(f, s.now) >= p.retention && f.name !in t.Gone() && ok(f.name) {
          t := Drop(t, f, ok);
        }
      }
      assert files[..|files|] == files;
    }

    method SizePass(sorted: seq<LogFile>, t0: Tally, s: Moment, p: Policy, ok: string -> bool) returns (t: Tally)
      ensures t == SizeTally(sorted, Total(sorted, Size), t0, s, p.maxTotalBytes, ok)
    {
      hide Protected, Total, Drop;
      t := t0;
      var total: nat, i: nat := Total(sorted, Size), 0;
      ghost var start := total;
      while i < |sorted| && total > p.maxTotalBytes
        invariant i <= |sorted|
        invariant t == SizeTally(sorted[..i], start, t0, s, p.maxTotalBytes, ok)
        invariant total == if Running(start, t0, t) < 0 then 0 else Running(start, t0, t)
      {
        var f := sorted[i];
        assert sorted[..i + 1][..i] == sorted[..i];
        i := i + 1;
        if Protected(f, s) { continue; }
        if f.name !in t.Gone() && ok(f.name) {
          DropCounts(t, f, ok);
          t := Drop(t, f, ok);
          total := if f.size <= total then total - f.size else 0;
        }
      }
      WithinBudgetStays(sorted, i, start, t0, s, p.maxTotalBytes, ok);
    }

    /** Keep the most recently finished jobs; running ones are never dropped. */
    method Prune()
      modifies this`jobs
      ensures jobs.Keys <= old(jobs).Keys && forall id | id in jobs :: jobs[id] == old(jobs)[id]
      ensures forall id | id in old(jobs) && !old(jobs)[id].terminal :: id in jobs
      ensures |set id | id in jobs && jobs[id].terminal|
           == var finished := |set id | id in old(jobs) && old(jobs)[id].terminal|; if finished < 50 then finished else 50
      ensures forall gone, kept | gone in old(jobs) && gone !in jobs && kept in jobs && jobs[kept].terminal ::
                && old(jobs)[gone].terminal
                && (match old(jobs)[gone].finishedAt case Some(t) => t case None => 0)
                   <= match jobs[kept].finishedAt case Some(t) => t case None => 0
    {
      hide Elements, FinishTime;
      var all := jobs;
      var finished := FinishedJobs();
      if |finished| <= FINISHED_RETAINED { return; }
      var sorted := SortBy(finished, FinishTime(all));
      var excess := |finished| - FINISHED_RETAINED;
      PruneResult(all, finished, excess);
      FinishTimeMeans(all);
      Forget(sorted[..excess]);
      assert forall gone, kept | gone in all && gone !in jobs && kept in Terminal(jobs) ::
          FinishTime(all)(gone) <= FinishTime(all)(kept) && kept in all;
    }

    method FinishedJobs() returns (finished: seq<string>)
      ensures multiset(finished) == multiset(Terminal(jobs)) && |finished| == |Terminal(jobs)|
    {
      finished := [];
      var todo := Terminal(jobs);
      while todo != {}
        invariant todo <= Terminal(jobs) && multiset(finished) == multiset(Terminal(jobs) - todo)
        invariant |finished| + |todo| == |Terminal(jobs)|
      {
        var id :| id in todo;
        todo := todo - {id};
        finished := finished + [id];
      }
    }

    method Forget(ids: seq<string>)
      modifies this`jobs
      ensures jobs == old(jobs) - Elements(ids)
    {
      for i := 0 to |ids|
        invariant jobs == old(jobs) - Elements(ids[..i])
      {
        assert Elements(ids[..i + 1]) == Elements(ids[..i]) + {ids[i]};
        jobs := jobs - {ids[i]};
      }
      assert ids[..|ids|] == ids;
    }
  }
}
