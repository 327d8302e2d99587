/**
 * The agent's update loop. It remembers the tag of the manifest whose outcome is decided, so an
 * unchanged manifest costs one HEAD. HEAD and GET are two requests and judging takes long:
 * whatever the controller puts or deletes meanwhile, no manifest may count as decided unjudged.
 */
module UpdateLoop {
  import opened Base
  import opened Update

  /** Tags are numbered by the order of the puts that made them; sealing never repeats one. */
  type Tag = Option<nat>

  /** How one check ended, as the loop sees it. */
  datatype Check = Returned(outcome: Outcome) | Broke

  predicate Settles(check: Check) {
    check.Returned? && !check.outcome.Deferred?
  }

  datatype Phase =
    | Resting
    | Checking(tag: Tag)             // HEAD answered, manifest not yet read
    | Judging(tag: Tag, read: Tag)   // manifest read, outcome not yet known
    | Stopped                        // an update is installed; the process is about to exit

  /**
   * `slot` is the tag in the agent's manifest slot. `verdicts` is history: for every manifest
   * that was ever read, how its latest check ended.
   */
  datatype State = State(slot: Tag, puts: nat, settled: Option<Tag>, phase: Phase, verdicts: map<nat, Check>)

  datatype Step =
    | PutManifest
    | DeleteManifest
    | Head
    | HeadFails
    | Get
    | GetFails
    | Finish(check: Check)
    | Restart

  /** What the loop remembers once a check that followed HEAD answering `tag` has ended. */
  function Remember(settled: Option<Tag>, tag: Tag, check: Check): Option<Tag> {
    if Settles(check) && !check.outcome.Applied? then Some(tag) else settled
  }

  predicate Enabled(s: State, step: Step) {
    match step
    case PutManifest => true
    case DeleteManifest => true
    case Head => s.phase.Resting?
    case HeadFails => s.phase.Resting?
    case Get => s.phase.Checking?
    case GetFails => s.phase.Checking?
    case Finish(check) => s.phase.Judging? && (s.phase.read.None? <==> check == Returned(NoManifest))
    case Restart => true
  }

  function Apply(s: State, step: Step): State
    requires Enabled(s, step)
  {
    match step
    case PutManifest => s.(slot := Some(s.puts), puts := s.puts + 1)
    case DeleteManifest => s.(slot := None)
    case Head => if s.settled == Some(s.slot) then s else s.(phase := Checking(s.slot))
    case HeadFails => s
    case Get => s.(phase := Judging(s.phase.tag, s.slot))
    case GetFails => s.(phase := Resting)
    case Finish(check) =>
      s.(settled := Remember(s.settled, s.phase.tag, check),
         verdicts := if s.phase.read.Some? then s.verdicts[s.phase.read.value := check] else s.verdicts,
         phase := if check.Returned? && check.outcome.Applied? then Stopped else Resting)
    case Restart => s.(settled := None, phase := Resting)
  }

  predicate Legal(s: State, run: seq<Step>)
    decreases run
  {
    run == [] || (Enabled(s, run[0]) && Legal(Apply(s, run[0]), run[1..]))
  }

  function Exec(s: State, run: seq<Step>): State
    requires Legal(s, run)
    decreases run
  {
    if run == [] then s else Exec(Apply(s, run[0]), run[1..])
  }

  /** A process that starts with a manifest in its slot or none. */
  function Begin(slot: Tag): State {
    State(slot, if slot.Some? then slot.value + 1 else 0, None, Resting, map[])
  }

  predicate Judged(s: State, tag: Tag) {
    tag.Some? ==> tag.value in s.verdicts && Settles(s.verdicts[tag.value])
  }

  predicate Old(s: State, tag: Tag) {
    tag.Some? ==> tag.value < s.puts
  }

  predicate Inv(s: State) {
    && Old(s, s.slot)
    && (s.settled.Some? ==> Old(s, s.settled.value))
    && (s.phase.Checking? || s.phase.Judging? ==> Old(s, s.phase.tag))
    && (s.settled == Some(s.slot) ==> Judged(s, s.slot))
    // A check under way is never of a manifest already settled ...
    && ((s.phase.Checking? || s.phase.Judging?) && s.slot.Some? ==> s.settled != Some(s.slot))
    // ... and if the tag HEAD saw is still in the slot, that is the manifest that was read.
    && (s.phase.Judging? && s.slot.Some? && s.slot == s.phase.tag ==> s.phase.read == s.slot)
  }

  lemma StepKeepsInv(s: State, step: Step)
    requires Inv(s) && Enabled(s, step)
    ensures Inv(Apply(s, step))
  {
  }

  lemma {:induction false} RunKeepsInv(s: State, run: seq<Step>)
    requires Inv(s) && Legal(s, run)
    ensures Inv(Exec(s, run))
    decreases run
  {
    if run != [] {
      StepKeepsInv(s, run[0]);
      RunKeepsInv(Apply(s, run[0]), run[1..]);
    }
  }

  /**
   * Settled-tag soundness. In every run, when the slot's tag equals the settled one, either there
   * is no manifest or exactly that manifest was read and its latest check reached a final outcome.
   */
  lemma SettledTagSoundness(slot: Tag, run: seq<Step>)
    requires Legal(Begin(slot), run)
    ensures var s := Exec(Begin(slot), run);
      s.settled == Some(s.slot) ==>
        s.slot.None? || (s.slot.value in s.verdicts && Settles(s.verdicts[s.slot.value]))
  {
    RunKeepsInv(Begin(slot), run);
  }

  /** A manifest never judged, held back or failed is checked at the next HEAD that is answered. */
  lemma UndecidedIsRetried(slot: Tag, run: seq<Step>)
    requires Legal(Begin(slot), run)
    ensures var s := Exec(Begin(slot), run);
      s.phase.Resting? && s.slot.Some?
      && (s.slot.value !in s.verdicts || s.verdicts[s.slot.value].Broke? || s.verdicts[s.slot.value].outcome.Deferred?) ==>
        Enabled(s, Head) && Apply(s, Head).phase == Checking(s.slot)
  {
    SettledTagSoundness(slot, run);
  }

  class Loop {
    var settled: Option<Tag>
    var stopped: bool

    constructor ()
      ensures settled == None && !stopped
    {
      settled, stopped := None, false;
    }

    /** One iteration: `head` is the answer to HEAD, `check` how the check ends if one is made. */
    method Tick(head: Result<Tag, ()>, check: Check) returns (checked: bool)
      requires !stopped
      modifies this
      ensures checked <==> head.Ok? && old(settled) != Some(head.value)
      ensures settled == if checked then Remember(old(settled), head.value, check) else old(settled)
      // A final outcome is remembered; a deferral, an installation or an error leaves the memory alone.
      ensures checked && check.Returned? && check.outcome in {NoManifest, UpToDate, WrongTarget, NotNewer} ==>
        settled == Some(head.value)
      ensures !checked || check.Broke? || check.outcome.Deferred? || check.outcome.Applied? ==> settled == old(settled)
      ensures stopped <==> checked && check.Returned? && check.outcome.Applied?
    {
      checked := false;
      if head.Err? || settled == Some(head.value) { return; }
      checked := true;
      match check
      case Returned(outcome) =>
        if outcome.Applied? {
          stopped := true;
        } else if !outcome.Deferred? {
          settled := Some(head.value);
        }
      case Broke =>
    }
  }

  /** The iteration above is a run of the protocol, with the same memory afterwards. */
  lemma TickIsProtocol(s: State, check: Check)
    requires s.phase.Resting? && (s.slot.None? <==> check == Returned(NoManifest)) && s.settled != Some(s.slot)
    ensures Legal(s, [Head, Get, Finish(check)])
    ensures var d := Exec(s, [Head, Get, Finish(check)]);
      && d.settled == Remember(s.settled, s.slot, check)
      && (d.phase.Stopped? <==> check.Returned? && check.outcome.Applied?)
      // Only a final outcome is remembered, and then the unchanged slot is not checked again.
      && (d.settled == Some(s.slot) <==> check.Returned? && check.outcome in {NoManifest, UpToDate, WrongTarget, NotNewer})
      && (check.Returned? && check.outcome in {NoManifest, UpToDate, WrongTarget, NotNewer} ==> Enabled(d, Head) && Apply(d, Head) == d)
  {
    var s1 := Apply(s, Head);
    var s2 := Apply(s1, Get);
    var s3 := Apply(s2, Finish(check));
    assert [Head, Get, Finish(check)][1..] == [Get, Finish(check)];
    assert [Get, Finish(check)][1..] == [Finish(check)];
    assert [Finish(check)][1..] == [];
    assert Legal(s3, []) && Legal(s2, [Finish(check)]) && Legal(s1, [Get, Finish(check)]);
    assert Exec(s3, []) == s3 && Exec(s2, [Finish(check)]) == s3 && Exec(s1, [Get, Finish(check)]) == s3;
  }
}
