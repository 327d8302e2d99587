/** Processes that share one identity: what each notices in the heartbeat, and which one yields. */
module Presence {
  import opened Base

  /** What one process knows about others; the fields of the shared presence state. */
  datatype Knowledge = Knowledge(conflictWith: Option<string>, yielded: bool, stoodDown: bool) {
    predicate Suspended() { yielded || stoodDown }
  }

  /** The automatic rule: the higher of two ids yields; no conflict, no yielding. */
  function Observe(k: Knowledge, mine: string, other: Option<string>): Knowledge {
    match other
    case Some(id) => k.(conflictWith := Some(id), yielded := LexLess(id, mine))
    case None => k.(conflictWith := None, yielded := false)
  }

  class PresenceState {
    var conflictWith: Option<string>
    var yielded: bool
    var stoodDown: bool

    constructor ()
      ensures View() == Knowledge(None, false, false)
    {
      conflictWith, yielded, stoodDown := None, false, false;
    }

    function View(): Knowledge
      reads this
    {
      Knowledge(conflictWith, yielded, stoodDown)
    }

    method StandDown()
      modifies this
      ensures stoodDown && yielded == old(yielded) && conflictWith == old(conflictWith)
    {
      stoodDown := true;
    }

    /** Returns whether this peer is news: announced once, and again only after another. */
    method Observed(mine: string, other: Option<string>) returns (newly: bool)
      modifies this
      ensures View() == Observe(old(View()), mine, other)
      ensures conflictWith == other && stoodDown == old(stoodDown)
      ensures yielded <==> other.Some? && LexLess(other.value, mine)
      ensures newly <==> other.Some? && old(conflictWith) != other
    {
      match other
      case Some(id) =>
        newly := conflictWith != Some(id);
        conflictWith := Some(id);
        yielded := LexLess(id, mine);
      case None =>
        conflictWith := None;
        yielded := false;
        newly := false;
    }

    method Snapshot() returns (conflict: Option<string>, suspended: bool)
      ensures conflict == conflictWith && suspended == View().Suspended()
      ensures suspended <==> yielded || stoodDown
    {
      conflict, suspended := conflictWith, yielded || stoodDown;
    }
  }

  // ---- Any number of processes on one heartbeat object ----

  datatype Beat = Beat(instance: string, at: int)

  /** `read` is what the last GET returned and has not been observed yet. */
  datatype Proc = Proc(startedAt: int, knowledge: Knowledge, read: Option<Option<Beat>>)

  datatype Fleet = Fleet(register: Option<Beat>, procs: map<string, Proc>, started: set<string>)

  datatype Step =
    | Start(p: string, at: int)
    | Stop(p: string)
    | DropHeartbeat              // shutdown, or the controller removing a stale one
    | Read(p: string, live: bool)  // a stale heartbeat reads as absent; a failed read is no step
    | Notice(p: string)
    | Write(p: string, at: int)
    | OrderDown(p: string)

  predicate Enabled(f: Fleet, step: Step) {
    match step
    case Start(p, _) => p !in f.started
    case Stop(p) => p in f.procs
    case DropHeartbeat => true
    case Read(p, _) => p in f.procs
    case Notice(p) => p in f.procs && f.procs[p].read.Some?
    case Write(p, _) => p in f.procs
    case OrderDown(p) => p in f.procs
  }

  /** Another process's heartbeat counts unless it was written before this process started. */
  function Rival(p: string, proc: Proc, beat: Option<Beat>): Option<string> {
    if beat.Some? && beat.value.instance != p && beat.value.at >= proc.startedAt
    then Some(beat.value.instance) else None
  }

  function Apply(f: Fleet, step: Step): Fleet
    requires Enabled(f, step)
  {
    match step
    case Start(p, at) =>
      f.(procs := f.procs[p := Proc(at, Knowledge(None, false, false), None)], started := f.started + {p})
    case Stop(p) => f.(procs := f.procs - {p})
    case DropHeartbeat => f.(register := None)
    case Read(p, live) =>
      f.(procs := f.procs[p := f.procs[p].(read := Some(if live then f.register else None))])
    case Notice(p) =>
      var proc := f.procs[p];
      var k := Observe(proc.knowledge, p, Rival(p, proc, proc.read.value));
      f.(procs := f.procs[p := proc.(knowledge := k, read := None)])
    case Write(p, at) => f.(register := Some(Beat(p, at)))
    case OrderDown(p) =>
      var proc := f.procs[p];
      f.(procs := f.procs[p := proc.(knowledge := proc.knowledge.(stoodDown := true))])
  }

  predicate Legal(f: Fleet, run: seq<Step>)
    decreases run
  {
    run == [] || (Enabled(f, run[0]) && Legal(Apply(f, run[0]), run[1..]))
  }

  function Exec(f: Fleet, run: seq<Step>): Fleet
    requires Legal(f, run)
    decreases run
  {
    if run == [] then f else Exec(Apply(f, run[0]), run[1..])
  }

  const QUIET := Fleet(None, map[], {})

  /** A process is yielded exactly when the last rival it saw has a lower id than its own. */
  predicate YieldedRight(p: string, k: Knowledge) {
    k.yielded <==> k.conflictWith.Some? && LexLess(k.conflictWith.value, p)
  }

  predicate Inv(f: Fleet) {
    && (f.register.Some? ==> f.register.value.instance in f.started)
    && (forall p | p in f.procs ::
          && p in f.started
          && YieldedRight(p, f.procs[p].knowledge)
          && (f.procs[p].knowledge.conflictWith.Some? ==> f.procs[p].knowledge.conflictWith.value in f.started)
          && (f.procs[p].read.Some? && f.procs[p].read.value.Some? ==> f.procs[p].read.value.value.instance in f.started))
  }

  lemma {:induction false} RunKeepsInv(f: Fleet, run: seq<Step>)
    requires Inv(f) && Legal(f, run)
    ensures Inv(Exec(f, run))
    decreases run
  {
    if run != [] { RunKeepsInv(Apply(f, run[0]), run[1..]); }
  }

  /**
   * What one round of the heartbeat does: a process that reads what another has just written, and
   * notices it, takes it for a rival unless it was written before the process started. Working is
   * then suspended exactly if the rival is lower or the process was told to stand down.
   */
  lemma RoundDecides(f: Fleet, p: string, q: string, at: int)
    requires p in f.procs && q in f.procs
    ensures var run := [Write(q, at), Read(p, true), Notice(p)];
      Legal(f, run) && p in Exec(f, run).procs
      && var k := Exec(f, run).procs[p].knowledge;
         && (k.conflictWith == Some(q) <==> p != q && at >= f.procs[p].startedAt)
         && (k.conflictWith == None <==> p == q || at < f.procs[p].startedAt)
         && (k.Suspended() <==> f.procs[p].knowledge.stoodDown || (p != q && at >= f.procs[p].startedAt && LexLess(q, p)))
  {
    var f1 := Apply(f, Write(q, at));
    var f2 := Apply(f1, Read(p, true));
    var f3 := Apply(f2, Notice(p));
    assert [Write(q, at), Read(p, true), Notice(p)][1..] == [Read(p, true), Notice(p)];
    assert [Read(p, true), Notice(p)][1..] == [Notice(p)] && [Notice(p)][1..] == [];
    assert Legal(f3, []) && Legal(f2, [Notice(p)]) && Legal(f1, [Read(p, true), Notice(p)]);
    assert Exec(f3, []) == f3 && Exec(f2, [Notice(p)]) == f3 && Exec(f1, [Read(p, true), Notice(p)]) == f3;
  }

  ghost predicate Least(p: string, ids: set<string>) {
    p in ids && forall q | q in ids && q != p :: LexLess(p, q)
  }

  /** Whatever is read, noticed and written in whatever order, the least id is never yielded. */
  lemma LeastNeverYields(run: seq<Step>, p: string)
    requires Legal(QUIET, run)
    requires p in Exec(QUIET, run).procs && Least(p, Exec(QUIET, run).started)
    ensures !Exec(QUIET, run).procs[p].knowledge.yielded
  {
    RunKeepsInv(QUIET, run);
    var k := Exec(QUIET, run).procs[p].knowledge;
    if k.conflictWith.Some? {
      if k.conflictWith.value != p { LexAsymmetric(p, k.conflictWith.value); } else { LexIrreflexive(p); }
    }
  }

  lemma {:induction false} LeastExists(ids: set<string>) returns (p: string)
    requires ids != {}
    ensures Least(p, ids)
    decreases |ids|
  {
    var q :| q in ids;
    if ids == {q} {
      p := q;
    } else {
      var rest := ids - {q};
      assert ids == rest + {q};
      p := LeastExists(rest);
      LexTotal(p, q);
      if LexLess(q, p) {
        forall r | r in ids && r != q ensures LexLess(q, r) {
          if r != p { LexTransitive(q, p, r); }
        }
        p := q;
      }
    }
  }

  /** While every process that was started is still running, one of them is not yielded. */
  lemma SomeoneKeepsWorking(run: seq<Step>) returns (p: string)
    requires Legal(QUIET, run)
    requires var f := Exec(QUIET, run); f.started != {} && forall q | q in f.started :: q in f.procs
    ensures p in Exec(QUIET, run).procs && !Exec(QUIET, run).procs[p].knowledge.yielded
  {
    p := LeastExists(Exec(QUIET, run).started);
    LeastNeverYields(run, p);
  }

  /** Two processes whose last observation was each other: exactly one of them yields. */
  lemma ExactlyOneYields(run: seq<Step>, p: string, q: string)
    requires Legal(QUIET, run)
    requires var f := Exec(QUIET, run);
      && p != q && p in f.procs && q in f.procs
      && f.procs[p].knowledge.conflictWith == Some(q) && f.procs[q].knowledge.conflictWith == Some(p)
    ensures var f := Exec(QUIET, run); f.procs[p].knowledge.yielded <==> !f.procs[q].knowledge.yielded
  {
    RunKeepsInv(QUIET, run);
    LexTotal(p, q);
    if LexLess(p, q) { LexAsymmetric(p, q); } else { LexAsymmetric(q, p); }
  }

  /** A stand-down is never undone while the process lives, and a stopped process does not return. */
  lemma {:induction false} StandDownIsPermanent(f: Fleet, run: seq<Step>, p: string)
    requires Legal(f, run) && p in f.started && (p in f.procs ==> f.procs[p].knowledge.stoodDown)
    ensures var g := Exec(f, run);
      p in g.started && (p in g.procs ==> g.procs[p].knowledge.stoodDown && g.procs[p].knowledge.Suspended())
    decreases run
  {
    if run != [] { StandDownIsPermanent(Apply(f, run[0]), run[1..], p); }
  }

  lemma {:induction false} ThenFrom(f: Fleet, run: seq<Step>, g: Fleet, step: Step)
    requires Legal(f, run) && Exec(f, run) == g && Enabled(g, step)
    ensures Legal(f, run + [step]) && Exec(f, run + [step]) == Apply(g, step)
    decreases run
  {
    if run == [] {
      assert run + [step] == [step] && [step][1..] == [];
    } else {
      assert (run + [step])[1..] == run[1..] + [step];
      ThenFrom(Apply(f, run[0]), run[1..], g, step);
    }
  }

  /** The higher process has noticed the lower one and yields. */
  const NOTICED := Fleet(Some(Beat("a", 1)),
    map["a" := Proc(0, Knowledge(None, false, false), None), "b" := Proc(0, Knowledge(Some("a"), true, false), None)],
    {"a", "b"})

  lemma NoticedIsReachable() returns (run: seq<Step>)
    ensures Legal(QUIET, run) && Exec(QUIET, run) == NOTICED
  {
    var f := QUIET;
    run := [];
    ThenFrom(QUIET, run, f, Start("a", 0)); f, run := Apply(f, Start("a", 0)), run + [Start("a", 0)];
    ThenFrom(QUIET, run, f, Start("b", 0)); f, run := Apply(f, Start("b", 0)), run + [Start("b", 0)];
    ThenFrom(QUIET, run, f, Write("a", 1)); f, run := Apply(f, Write("a", 1)), run + [Write("a", 1)];
    ThenFrom(QUIET, run, f, Read("b", true)); f, run := Apply(f, Read("b", true)), run + [Read("b", true)];
    ThenFrom(QUIET, run, f, Notice("b")); f, run := Apply(f, Notice("b")), run + [Notice("b")];
    assert LexLess("a", "b");
    assert f.procs == NOTICED.procs;
  }

  /**
   * The hypothesis of ExactlyOneYields is needed: a process that reads back its own heartbeat
   * drops its conflict, so two live processes can both be working.
   */
  lemma BothMayWork() returns (run: seq<Step>)
    ensures Legal(QUIET, run)
    ensures var f := Exec(QUIET, run);
      "a" in f.procs && "b" in f.procs
      && !f.procs["a"].knowledge.Suspended() && !f.procs["b"].knowledge.Suspended()
      && f.register == Some(Beat("b", 2))
  {
    run := NoticedIsReachable();
    var f := NOTICED;
    ThenFrom(QUIET, run, f, Write("b", 2)); f, run := Apply(f, Write("b", 2)), run + [Write("b", 2)];
    ThenFrom(QUIET, run, f, Read("b", true)); f, run := Apply(f, Read("b", true)), run + [Read("b", true)];
    ThenFrom(QUIET, run, f, Notice("b")); f, run := Apply(f, Notice("b")), run + [Notice("b")];
  }
}
