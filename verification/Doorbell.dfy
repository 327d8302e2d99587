/**
 * How an agent decides when to list its mailbox: a cached doorbell tag and a full-scan deadline,
 * against a controller that first queues a command and then rings.
 */
module Doorbell {
  import opened Base

  /** Tags are numbered by the order of the writes that made them; sealing never repeats one. */
  type Tag = Option<nat>

  /** The answer to the HEAD of the doorbell object. */
  datatype Head = Seen(tag: Tag) | HeadFails

  /** Whether an iteration lists, and which tag it records if so. */
  function Decide(seen: Tag, forced: bool, head: Head): Option<Tag> {
    if forced then Some(seen)
    else match head
      case HeadFails => Some(seen)
      case Seen(tag) => if tag != seen then Some(tag) else None
  }

  datatype Phase =
    | AtHead
    | Deciding(observed: Tag)        // will list; the tag is not recorded yet
    | Listing
    | Taking(todo: set<string>)

  /** `rung` is history: the tag each command's successful ring produced. */
  datatype Bell = Bell(
    now: nat, fullScan: nat, useDoorbell: bool,
    queue: set<string>, sent: set<string>, rung: map<string, nat>, counter: nat,
    phase: Phase, seen: Tag, deadline: nat, failed: bool)

  datatype Step =
    | Wait(time: nat)
    | Send(id: string)              // put a command this agent may claim
    | Ring(id: string)              // the ring that follows it succeeds
    | OtherRing                     // any other write to the doorbell
    | Withdraw(id: string)
    | Pass(head: Head)              // head of the loop: nothing to do this time
    | Choose(head: Head)            // head of the loop: will list
    | Record
    | List
    | Take(id: string)
    | Finish
    | DrainFails(taken: set<string>)

  function Current(b: Bell): Tag {
    if b.counter == 0 then None else Some(b.counter)
  }

  predicate Forced(b: Bell) {
    !b.useDoorbell || b.now >= b.deadline
  }

  /** A HEAD either fails or reports the doorbell as it is. */
  predicate Truthful(b: Bell, head: Head) {
    head.HeadFails? || head.tag == Current(b)
  }

  predicate Enabled(b: Bell, step: Step) {
    match step
    case Wait(_) => true
    case Send(id) => id !in b.sent
    case Ring(id) => id in b.sent && id !in b.rung
    case OtherRing => true
    case Withdraw(_) => true
    case Pass(head) => b.phase.AtHead? && Truthful(b, head) && Decide(b.seen, Forced(b), head).None?
    case Choose(head) => b.phase.AtHead? && Truthful(b, head) && Decide(b.seen, Forced(b), head).Some?
    case Record => b.phase.Deciding?
    case List => b.phase.Listing?
    case Take(id) => b.phase.Taking? && id in b.phase.todo
    case Finish => b.phase.Taking? && b.phase.todo == {}
    case DrainFails(taken) => b.phase.Listing? || (b.phase.Taking? && taken <= b.phase.todo)
  }

  function Apply(b: Bell, step: Step): Bell
    requires Enabled(b, step)
  {
    match step
    case Wait(t) => b.(now := b.now + t)
    case Send(id) => b.(queue := b.queue + {id}, sent := b.sent + {id})
    case Ring(id) => b.(counter := b.counter + 1, rung := b.rung[id := b.counter + 1])
    case OtherRing => b.(counter := b.counter + 1)
    case Withdraw(id) => b.(queue := b.queue - {id})
    case Pass(_) => b
    case Choose(head) => b.(phase := Deciding(Decide(b.seen, Forced(b), head).value))
    case Record => b.(deadline := b.now + b.fullScan, seen := b.phase.observed, phase := Listing)
    case List => b.(phase := Taking(b.queue))
    case Take(id) => b.(queue := b.queue - {id}, phase := Taking(b.phase.todo - {id}))
    case Finish => b.(phase := AtHead, failed := false)
    case DrainFails(taken) =>
      b.(phase := AtHead, failed := true, queue := if b.phase.Taking? then b.queue - taken else b.queue)
  }

  predicate Legal(b: Bell, run: seq<Step>)
    decreases run
  {
    run == [] || (Enabled(b, run[0]) && Legal(Apply(b, run[0]), run[1..]))
  }

  function Exec(b: Bell, run: seq<Step>): Bell
    requires Legal(b, run)
    decreases run
  {
    if run == [] then b else Exec(Apply(b, run[0]), run[1..])
  }

  /** A process starting on a mailbox in any condition: no drain has succeeded, the deadline is now. */
  function Begin(now: nat, fullScan: nat, useDoorbell: bool, queue: set<string>, counter: nat): Bell {
    Bell(now, fullScan, useDoorbell, queue, queue, map[], counter, AtHead, None, now, true)
  }

  function Level(t: Tag): nat { t.GetOr(0) }

  /** A queued command whose ring succeeded after the recorded tag was read. */
  predicate NewerThan(b: Bell, id: string, t: Tag) {
    id in b.rung ==> b.rung[id] > Level(t)
  }

  predicate Inv(b: Bell) {
    && Level(b.seen) <= b.counter
    && (b.phase.Deciding? ==> Level(b.phase.observed) <= b.counter)
    && (forall id | id in b.rung :: 0 < b.rung[id] <= b.counter && id in b.sent)
    && b.queue <= b.sent
    && b.deadline <= b.now + b.fullScan
    && (b.phase.AtHead? && !b.failed ==> forall id | id in b.queue :: NewerThan(b, id, b.seen))
    && (b.phase.Taking? ==> forall id | id in b.queue :: id in b.phase.todo || NewerThan(b, id, b.seen))
  }

  lemma StepKeepsInv(b: Bell, step: Step)
    requires Inv(b) && Enabled(b, step)
    ensures Inv(Apply(b, step))
  {
  }

  lemma {:induction false} RunKeepsInv(b: Bell, run: seq<Step>)
    requires Inv(b) && Legal(b, run)
    ensures Inv(Exec(b, run))
    decreases run
  {
    if run != [] {
      StepKeepsInv(b, run[0]);
      RunKeepsInv(Apply(b, run[0]), run[1..]);
    }
  }

  /**
   * No lost wakeup. Whenever the loop is at its head and a claimable command whose ring succeeded
   * is queued, the doorbell's tag differs from the recorded one, so that iteration lists whatever
   * the HEAD answers -- unless the drain after the last recorded tag failed, and then the deadline
   * already set forces a scan within `fullScan`.
   */
  lemma NoLostWakeup(now: nat, fullScan: nat, useDoorbell: bool, queue: set<string>, counter: nat,
                     run: seq<Step>, id: string)
    requires Legal(Begin(now, fullScan, useDoorbell, queue, counter), run)
    requires var b := Exec(Begin(now, fullScan, useDoorbell, queue, counter), run);
      b.phase.AtHead? && id in b.queue && id in b.rung
    ensures var b := Exec(Begin(now, fullScan, useDoorbell, queue, counter), run);
      && (!b.failed ==> Current(b) != b.seen && forall head :: !Enabled(b, Pass(head)))
      && b.deadline <= b.now + fullScan
  {
    var b0 := Begin(now, fullScan, useDoorbell, queue, counter);
    RunKeepsInv(b0, run);
    ConstantsKept(b0, run);
    var b := Exec(b0, run);
    if !b.failed {
      assert NewerThan(b, id, b.seen);
    }
  }

  lemma {:induction false} ConstantsKept(b: Bell, run: seq<Step>)
    requires Legal(b, run)
    ensures Exec(b, run).fullScan == b.fullScan && Exec(b, run).useDoorbell == b.useDoorbell
    decreases run
  {
    if run != [] { ConstantsKept(Apply(b, run[0]), run[1..]); }
  }

  /** The loop is past its deadline or on its way to taking the command. */
  predicate Pursued(b: Bell, id: string) {
    match b.phase
    case AtHead => b.now >= b.deadline
    case Deciding(_) => true
    case Listing => true
    case Taking(todo) => id in todo
  }

  lemma PursuedStep(b: Bell, step: Step, id: string)
    requires Pursued(b, id) && id in b.queue && id in b.sent && Enabled(b, step) && !step.DrainFails?
    ensures !step.Pass?
    ensures var c := Apply(b, step); id in c.queue ==> Pursued(c, id) && id in c.sent && !step.Finish?
  {
  }

  /**
   * Recovery. At its head at or past the deadline the loop must list, whatever HEAD answers. From
   * there, in every run whose drains do not fail, a command that was queued -- hidden behind a
   * recorded tag or not -- is still queued only while no drain has finished and no head passed.
   */
  lemma {:induction false} DeadlineRecovers(b: Bell, run: seq<Step>, id: string)
    requires Pursued(b, id) && id in b.queue && id in b.sent && Legal(b, run)
    requires forall step | step in run :: !step.DrainFails?
    ensures b.phase.AtHead? ==> forall head | Truthful(b, head) :: !Enabled(b, Pass(head)) && Enabled(b, Choose(head))
    ensures id in Exec(b, run).queue ==> forall step | step in run :: !step.Finish? && !step.Pass?
    decreases run
  {
    if run != [] {
      assert run[0] in run && forall step | step in run[1..] :: step in run;
      PursuedStep(b, run[0], id);
      var c := Apply(b, run[0]);
      if id in c.queue {
        DeadlineRecovers(c, run[1..], id);
      } else {
        StaysGone(c, run[1..], id);
      }
      assert run == [run[0]] + run[1..];
    }
  }

  /**
   * So a failed drain costs at most one full-scan period: at any head of any run the deadline is
   * that near, and once it is past, the next drain that does not fail takes every queued command.
   */
  lemma FailedDrainIsRecovered(now: nat, fullScan: nat, useDoorbell: bool, queue: set<string>, counter: nat,
                               run: seq<Step>, more: seq<Step>, id: string)
    requires Legal(Begin(now, fullScan, useDoorbell, queue, counter), run)
    requires var b := Exec(Begin(now, fullScan, useDoorbell, queue, counter), run);
      b.phase.AtHead? && id in b.queue && Legal(b.(now := b.now + fullScan), more)
    requires (forall step | step in more :: !step.DrainFails?) && exists step :: step in more && step.Finish?
    ensures var b := Exec(Begin(now, fullScan, useDoorbell, queue, counter), run);
      Enabled(b, Wait(fullScan)) && id !in Exec(Apply(b, Wait(fullScan)), more).queue
  {
    var b0 := Begin(now, fullScan, useDoorbell, queue, counter);
    RunKeepsInv(b0, run);
    ConstantsKept(b0, run);
    DeadlineRecovers(Apply(Exec(b0, run), Wait(fullScan)), more, id);
  }

  /** An unfailed drain that ran to its end took every command queued when it listed. */
  lemma {:induction false} DrainEmptiesListing(b: Bell, run: seq<Step>, id: string)
    requires b.phase.Taking? && Legal(b, run) && id in b.queue && id in b.phase.todo && id in b.sent
    requires forall i | 0 <= i < |run| :: !run[i].DrainFails?
    ensures var e := Exec(b, run); id in e.queue ==> e.phase.Taking? && id in e.phase.todo
    decreases run
  {
    if run != [] {
      var c := Apply(b, run[0]);
      if run[0] == Take(id) || run[0] == Withdraw(id) {
        StaysGone(c, run[1..], id);
      } else {
        DrainEmptiesListing(c, run[1..], id);
      }
    }
  }

  lemma {:induction false} StaysGone(b: Bell, run: seq<Step>, id: string)
    requires Legal(b, run) && id !in b.queue && id in b.sent
    ensures id !in Exec(b, run).queue
    decreases run
  {
    if run != [] { StaysGone(Apply(b, run[0]), run[1..], id); }
  }

  /**
   * The exception is real: a drain that fails leaves a rung command queued behind a tag already
   * recorded, and the next iteration passes it over.
   */
  lemma FailedDrainHidesCommand() returns (run: seq<Step>)
    ensures var b0 := Begin(0, 60, true, {}, 0);
      && Legal(b0, run)
      && var b := Exec(b0, run);
         b.phase.AtHead? && "job" in b.queue && "job" in b.rung && b.failed && Enabled(b, Pass(Seen(Some(1))))
  {
    run := RungAndUnread();
    var b := UNREAD;
    Then(run, b, Choose(Seen(Some(1)))); b, run := Apply(b, Choose(Seen(Some(1)))), run + [Choose(Seen(Some(1)))];
    Then(run, b, Record); b, run := Apply(b, Record), run + [Record];
    Then(run, b, DrainFails({})); b, run := Apply(b, DrainFails({})), run + [DrainFails({})];
  }

  /** One quiet scan, then a command put and rung. */
  const UNREAD := Bell(0, 60, true, {"job"}, {"job"}, map["job" := 1], 1, AtHead, None, 60, false)

  lemma RungAndUnread() returns (run: seq<Step>)
    ensures Legal(Begin(0, 60, true, {}, 0), run) && Exec(Begin(0, 60, true, {}, 0), run) == UNREAD
  {
    var b := Begin(0, 60, true, {}, 0);
    run := [];
    Then(run, b, Choose(HeadFails)); b, run := Apply(b, Choose(HeadFails)), run + [Choose(HeadFails)];
    Then(run, b, Record); b, run := Apply(b, Record), run + [Record];
    Then(run, b, List); b, run := Apply(b, List), run + [List];
    Then(run, b, Finish); b, run := Apply(b, Finish), run + [Finish];
    Then(run, b, Send("job")); b, run := Apply(b, Send("job")), run + [Send("job")];
    Then(run, b, Ring("job")); b, run := Apply(b, Ring("job")), run + [Ring("job")];
  }

  lemma Then(run: seq<Step>, b: Bell, step: Step)
    requires Legal(Begin(0, 60, true, {}, 0), run) && Exec(Begin(0, 60, true, {}, 0), run) == b && Enabled(b, step)
    ensures Legal(Begin(0, 60, true, {}, 0), run + [step])
    ensures Exec(Begin(0, 60, true, {}, 0), run + [step]) == Apply(b, step)
  {
    ThenFrom(Begin(0, 60, true, {}, 0), run, step);
  }

  lemma {:induction false} ThenFrom(b: Bell, run: seq<Step>, step: Step)
    requires Legal(b, run) && Enabled(Exec(b, run), step)
    ensures Legal(b, run + [step]) && Exec(b, run + [step]) == Apply(Exec(b, run), step)
    decreases run
  {
    if run == [] {
      assert run + [step] == [step] && [step][1..] == [];
    } else {
      assert (run + [step])[1..] == run[1..] + [step];
      ThenFrom(Apply(b, run[0]), run[1..], step);
    }
  }

  /** The intervals and switches of the command loop. */
  datatype Policy = Policy(active: nat, idle: nat, fullScan: nat, useDoorbell: bool)

  datatype LoopState = LoopState(interval: nat, seenDoorbell: Tag, nextFullScan: nat)

  /** What one iteration leaves: tag and deadline change only with a scan, and only work resets the interval. */
  function Turn(l: LoopState, p: Policy, now: nat, later: nat, head: Head, drained: Option<nat>): LoopState {
    var choice := Decide(l.seenDoorbell, !p.useDoorbell || now >= l.nextFullScan, head);
    var slower := if 2 * l.interval <= p.idle then 2 * l.interval else p.idle;
    match choice
    case None => l.(interval := slower)
    case Some(tag) => LoopState(if drained.GetOr(0) > 0 then p.active else slower, tag, later + p.fullScan)
  }

  /** The variables of the command loop. */
  class PollLoop {
    const active: nat
    const idle: nat
    const fullScan: nat
    const useDoorbell: bool
    var interval: nat
    var seenDoorbell: Tag
    var nextFullScan: nat

    predicate Valid()
      reads this
    {
      active <= interval <= idle
    }

    constructor (active: nat, idle: nat, fullScan: nat, useDoorbell: bool, now: nat)
      requires 0 < active <= idle
      ensures Valid() && seenDoorbell == None && nextFullScan == now && interval == active
      ensures this.active == active && this.idle == idle && this.fullScan == fullScan && this.useDoorbell == useDoorbell
    {
      this.active, this.idle, this.fullScan, this.useDoorbell := active, idle, fullScan, useDoorbell;
      interval, seenDoorbell, nextFullScan := active, None, now;
    }

    function View(): LoopState
      reads this
    {
      LoopState(interval, seenDoorbell, nextFullScan)
    }

    /** One iteration; `drained` is how many commands the drain returned, None if it failed. */
    method Tick(now: nat, later: nat, head: Head, drained: Option<nat>) returns (scanned: bool)
      requires Valid() && now <= later
      modifies this
      ensures Valid()
      ensures scanned <==> Decide(old(seenDoorbell), !useDoorbell || now >= old(nextFullScan), head).Some?
      ensures View() == Turn(old(View()), Policy(active, idle, fullScan, useDoorbell), now, later, head, drained)
      // The same in the loop's own variables.
      ensures scanned <==> !useDoorbell || now >= old(nextFullScan) || head == HeadFails || head != Seen(old(seenDoorbell))
      ensures nextFullScan == if scanned then later + fullScan else old(nextFullScan)
      ensures useDoorbell && now < old(nextFullScan) && head.Seen? ==> seenDoorbell == head.tag
      ensures !useDoorbell || now >= old(nextFullScan) || head == HeadFails ==> seenDoorbell == old(seenDoorbell)
      ensures scanned && drained.Some? && drained.value > 0 ==> interval == active
      ensures !scanned || drained.None? || drained.value == 0 ==>
        interval == if old(interval) * 2 <= idle then old(interval) * 2 else idle
    {
      var forced := !useDoorbell || now >= nextFullScan;
      var observed := seenDoorbell;
      if forced {
        scanned := true;
      } else {
        match head
        case Seen(tag) =>
          scanned := tag != seenDoorbell;
          observed := tag;
        case HeadFails =>
          scanned := true;
      }
      var worked := false;
      if scanned {
        nextFullScan := later + fullScan;
        seenDoorbell := observed;
        if drained.Some? { worked := drained.value > 0; }
      }
      if worked {
        interval := active;
      } else {
        interval := if interval * 2 <= idle then interval * 2 else idle;
      }
    }
  }

  /** The loop's own variables agree with the protocol's. */
  predicate Agrees(l: LoopState, policy: Policy, b: Bell) {
    l.seenDoorbell == b.seen && l.nextFullScan == b.deadline
    && policy.fullScan == b.fullScan && policy.useDoorbell == b.useDoorbell
  }

  ghost predicate Reaches(b: Bell, run: seq<Step>, c: Bell) {
    Legal(b, run) && Exec(b, run) == c
  }

  lemma Extend(b: Bell, run: seq<Step>, c: Bell, step: Step) returns (run': seq<Step>)
    requires Reaches(b, run, c) && Enabled(c, step)
    ensures Reaches(b, run', Apply(c, step))
  {
    run' := run + [step];
    ThenFrom(b, run, step);
  }

  lemma {:induction false} TakeAll(b: Bell, run: seq<Step>, c: Bell) returns (run': seq<Step>)
    requires Reaches(b, run, c) && c.phase.Taking? && c.phase.todo <= c.queue
    ensures Reaches(b, run', c.(queue := c.queue - c.phase.todo, phase := Taking({})))
    decreases |c.phase.todo|
  {
    hide Reaches;
    if c.phase.todo == {} {
      run' := run;
      assert c.queue - c.phase.todo == c.queue;
    } else {
      var id :| id in c.phase.todo;
      var d := Apply(c, Take(id));
      run' := Extend(b, run, c, Take(id));
      run' := TakeAll(b, run', d);
      assert d.queue - d.phase.todo == c.queue - c.phase.todo;
    }
  }

  /**
   * The loop refines the protocol: an iteration of `Tick`, drain included, is a run from head to
   * head that leaves the tag and the deadline `Tick` leaves. It lists exactly when `Tick` says it
   * scans; a drain that succeeds takes what was queued, one that fails leaves it.
   */
  lemma TurnIsRun(b: Bell, l: LoopState, policy: Policy, later: nat, head: Head, drained: Option<nat>)
      returns (run: seq<Step>, c: Bell)
    requires b.phase.AtHead? && Agrees(l, policy, b) && Truthful(b, head) && b.now <= later
    requires drained.Some? ==> drained.value == |b.queue|
    ensures Reaches(b, run, c) && c.phase.AtHead?
    ensures Agrees(Turn(l, policy, b.now, later, head, drained), policy, c)
    ensures var scanned := Decide(b.seen, Forced(b), head).Some?;
      && c.queue == (if scanned && drained.Some? then {} else b.queue)
      && c.failed == if scanned then drained.None? else b.failed
  {
    hide Reaches;
    assert Reaches(b, [], b) by { Nowhere(b); }
    if Decide(b.seen, Forced(b), head).None? {
      run := Extend(b, [], b, Pass(head));
      c := Apply(b, Pass(head));
      return;
    }
    run := Extend(b, [], b, Choose(head));
    c := Apply(b, Choose(head));
    run := Extend(b, run, c, Wait(later - b.now));
    c := Apply(c, Wait(later - b.now));
    run := Extend(b, run, c, Record);
    c := Apply(c, Record);
    if drained.None? {
      run := Extend(b, run, c, DrainFails({}));
      c := Apply(c, DrainFails({}));
      return;
    }
    run := Extend(b, run, c, List);
    c := Apply(c, List);
    run := TakeAll(b, run, c);
    c := c.(queue := c.queue - c.phase.todo, phase := Taking({}));
    run := Extend(b, run, c, Finish);
    c := Apply(c, Finish);
  }

  lemma Nowhere(b: Bell)
    ensures Reaches(b, [], b)
  {
  }
}
