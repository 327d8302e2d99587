/** When shipping loses nothing: regular replays, what breaks without them, and exactly when. */
module LogDelivery {
  import opened Base
  import opened LogPipeline

  /** A chunk put again at an offset has the length it had there before. */
  ghost predicate SameLengths(sent: seq<Chunk>) {
    forall i, j | 0 <= i < |sent| && 0 <= j < |sent| && sent[i].offset == sent[j].offset ::
      |sent[i].data| == |sent[j].data|
  }

  /** An offset at which the shipper may resume: the start, or the end of a chunk put before. */
  ghost predicate Boundary(sent: seq<Chunk>, offset: nat) {
    offset == 0 || exists k :: k in sent && k.End() == offset
  }

  ghost predicate OnBoundaries(sent: seq<Chunk>) {
    forall i | 0 <= i < |sent| :: Boundary(sent[..i], sent[i].offset)
  }

  ghost predicate Regular(sent: seq<Chunk>) {
    SameLengths(sent) && OnBoundaries(sent)
  }

  lemma RegularPrefix(s: seq<Chunk>, t: seq<Chunk>)
    requires s <= t && Regular(t)
    ensures Regular(s)
  {
    forall i | 0 <= i < |s| ensures Boundary(s[..i], s[i].offset) {
      assert s[..i] == t[..i] && s[i] == t[i];
    }
    forall i, j | 0 <= i < |s| && 0 <= j < |s| && s[i].offset == s[j].offset
      ensures |s[i].data| == |s[j].data|
    {
      assert s[i] == t[i] && s[j] == t[j];
    }
  }

  // ---- The joint invariant ----

  /** Where the log has been cut: each cut starts at a key and ends where the next starts. */
  type Cuts = map<nat, nat>

  ghost predicate Link(cuts: Cuts, frontier: nat, o: nat) {
    o in cuts ==> o < cuts[o] <= frontier && (cuts[o] in cuts || cuts[o] == frontier)
  }

  ghost predicate Chained(cuts: Cuts, frontier: nat) {
    && (frontier > 0 ==> 0 in cuts)
    && (forall o: nat {:trigger Link(cuts, frontier, o)} :: Link(cuts, frontier, o))
  }

  ghost predicate IsCut(cuts: Cuts, k: Chunk) {
    k.offset in cuts && cuts[k.offset] == k.End()
  }

  ghost predicate Recorded(sent: seq<Chunk>, cuts: Cuts) {
    && (forall k | k in sent :: IsCut(cuts, k))
    && (forall o | o in cuts :: exists k :: k in sent && k.offset == o)
  }

  /** The offsets the controller holds or is about to fetch, in its order. */
  ghost function Offsets(i: Inbox): (s: seq<nat>)
    ensures |s| >= |Hand(i)|
    ensures forall j | 0 <= j < |Hand(i)| :: s[j] == Hand(i)[j].offset
  {
    seq(|Hand(i)|, j requires 0 <= j < |Hand(i)| => Hand(i)[j].offset)
      + (if i.Fetching? then i.todo else [])
  }

  ghost predicate AgentTracked(c: Channel, frontier: nat) {
    && c.cached.GetOr(0) <= frontier
    && ReadMarker(c.marker) <= frontier
    && (c.outbox.Uploaded? || c.outbox.Truncated? || c.outbox.Marked? ==> c.outbox.chunk.End() <= frontier)
    && (c.deleted ==> |c.log| <= frontier)
  }

  /** Every cut the controller has not recorded is still in the bucket. */
  ghost predicate BucketTracked(bucket: map<nat, seq<Byte>>, next: nat, cuts: Cuts, frontier: nat) {
    && (forall o | o in bucket :: IsCut(cuts, Chunk(o, bucket[o])))
    && (next in cuts || next == frontier)
    && (forall o | o in cuts && o >= next :: o in bucket)
  }

  /** Nothing is missing between `next` and any offset held. */
  ghost predicate Complete(held: seq<nat>, next: nat, cuts: Cuts) {
    forall h, o | h in held && o in cuts && next <= o < h :: o in held
  }

  /** What the controller holds is sorted, made of cuts, and complete. */
  ghost predicate InboxTracked(i: Inbox, next: nat, bucket: map<nat, seq<Byte>>, cuts: Cuts) {
    && Increasing(Offsets(i))
    && (forall o | o in Offsets(i) :: o in cuts)
    && (forall k | k in Hand(i) :: IsCut(cuts, k))
    && Complete(Offsets(i), next, cuts)
    && (i.Fetching? ==> forall o | o in i.todo :: o in bucket)
    && (i.Acking? ==> i.hand != [] && i.hand[0].offset < next)
  }

  ghost predicate Tracked(c: Channel, cuts: Cuts, frontier: nat) {
    && Safe(c)
    && Chained(cuts, frontier)
    && Recorded(c.sent, cuts)
    && AgentTracked(c, frontier)
    && BucketTracked(c.bucket, c.next, cuts, frontier)
    && InboxTracked(c.inbox, c.next, c.bucket, cuts)
  }

  // -- puts --

  lemma RepeatIsCut(sent: seq<Chunk>, k: Chunk, cuts: Cuts)
    requires SameLengths(sent + [k]) && Recorded(sent, cuts) && k.offset in cuts
    ensures IsCut(cuts, k)
  {
    var k0 :| k0 in sent && k0.offset == k.offset;
    var i :| 0 <= i < |sent| && sent[i] == k0;
    var all := sent + [k];
    assert all[i] == k0 && all[|sent|] == k;
    assert |all[i].data| == |all[|sent|].data|;
  }

  lemma NewIsAtFrontier(sent: seq<Chunk>, k: Chunk, cuts: Cuts, frontier: nat)
    requires OnBoundaries(sent + [k]) && Chained(cuts, frontier) && Recorded(sent, cuts) && k.offset !in cuts
    ensures k.offset == frontier
  {
    var all := sent + [k];
    assert all[..|sent|] == sent && all[|sent|] == k;
    assert Boundary(all[..|sent|], all[|sent|].offset);
    if k.offset != 0 {
      var k0 :| k0 in sent && k0.End() == k.offset;
      assert IsCut(cuts, k0) && Link(cuts, frontier, k0.offset);
    }
  }

  /** A regular put either repeats an existing cut exactly or extends the chain at its end. */
  lemma RegularPut(sent: seq<Chunk>, k: Chunk, cuts: Cuts, frontier: nat)
    requires Regular(sent + [k]) && Chained(cuts, frontier) && Recorded(sent, cuts)
    ensures IsCut(cuts, k) || (k.offset == frontier && k.offset !in cuts)
  {
    hide SameLengths, OnBoundaries, Chained, Recorded;
    if k.offset in cuts {
      RepeatIsCut(sent, k, cuts);
    } else {
      NewIsAtFrontier(sent, k, cuts, frontier);
    }
  }

  lemma PutKeepsRecorded(sent: seq<Chunk>, k: Chunk, cuts: Cuts, cuts': Cuts)
    requires Recorded(sent, cuts) && IsCut(cuts', k)
    requires cuts' == cuts || (k.offset !in cuts && cuts' == cuts[k.offset := k.End()])
    ensures Recorded(sent + [k], cuts')
  {
    forall o | o in cuts' ensures exists j :: j in sent + [k] && j.offset == o {
      if o in cuts {
        var j :| j in sent && j.offset == o;
        assert j in sent + [k];
      } else {
        assert k in sent + [k];
      }
    }
  }

  /** The chain after a put: unchanged, or longer by the new chunk. */
  ghost function CutsAfter(cuts: Cuts, k: Chunk): Cuts {
    if k.offset in cuts then cuts else cuts[k.offset := k.End()]
  }

  ghost function FrontierAfter(cuts: Cuts, frontier: nat, k: Chunk): nat {
    if k.offset in cuts then frontier else k.End()
  }

  lemma PutKeepsChained(cuts: Cuts, frontier: nat, k: Chunk)
    requires Chained(cuts, frontier) && 0 < |k.data|
    requires k.offset in cuts || k.offset == frontier
    ensures Chained(CutsAfter(cuts, k), FrontierAfter(cuts, frontier, k))
  {
    var cuts', frontier' := CutsAfter(cuts, k), FrontierAfter(cuts, frontier, k);
    forall o: nat {:trigger Link(cuts', frontier', o)} ensures Link(cuts', frontier', o) {
      assert Link(cuts, frontier, o);
    }
  }

  lemma PutKeepsBucket(bucket: map<nat, seq<Byte>>, next: nat, cuts: Cuts, frontier: nat, k: Chunk)
    requires BucketTracked(bucket, next, cuts, frontier) && 0 < |k.data|
    requires IsCut(cuts, k) || (k.offset == frontier && k.offset !in cuts)
    ensures BucketTracked(bucket[k.offset := k.data], next, CutsAfter(cuts, k), FrontierAfter(cuts, frontier, k))
  {
  }

  lemma NewCutKeepsInbox(i: Inbox, next: nat, bucket: map<nat, seq<Byte>>, cuts: Cuts, frontier: nat, k: Chunk)
    requires Chained(cuts, frontier) && InboxTracked(i, next, bucket, cuts) && k.offset == frontier && frontier !in cuts
    ensures InboxTracked(i, next, bucket[k.offset := k.data], cuts[k.offset := k.End()])
  {
    var cuts' := cuts[k.offset := k.End()];
    forall h, o | h in Offsets(i) && o in cuts' && next <= o < h ensures o in Offsets(i) {
      assert h in cuts && Link(cuts, frontier, h);
    }
  }

  lemma PutKeepsTracked(c: Channel, step: Step, cuts: Cuts, frontier: nat)
      returns (cuts': Cuts, frontier': nat)
    requires Tracked(c, cuts, frontier) && (step.Put? || step.PutUnsure?) && Enabled(c, step)
    requires Regular(Apply(c, step).sent)
    ensures Tracked(Apply(c, step), cuts', frontier')
  {
    var k := c.outbox.chunk;
    StepKeepsSafe(c, step);
    RegularPut(c.sent, k, cuts, frontier);
    cuts', frontier' := CutsAfter(cuts, k), FrontierAfter(cuts, frontier, k);
    assert Link(cuts, frontier, k.offset);
    PutKeepsChained(cuts, frontier, k);
    PutKeepsRecorded(c.sent, k, cuts, cuts');
    PutKeepsBucket(c.bucket, c.next, cuts, frontier, k);
    if k.offset !in cuts {
      NewCutKeepsInbox(c.inbox, c.next, c.bucket, cuts, frontier, k);
    }
  }

  // -- the controller --

  lemma GetKeepsOffsets(todo: seq<nat>, got: seq<Chunk>, data: seq<Byte>)
    requires todo != []
    ensures Offsets(Fetching(todo[1..], got + [Chunk(todo[0], data)])) == Offsets(Fetching(todo, got))
  {
  }

  lemma AckDropsHead(hand: seq<Chunk>)
    requires hand != []
    ensures Offsets(Ingesting(hand[1..])) == Offsets(Acking(hand))[1..]
  {
  }

  lemma TailIsComplete(held: seq<nat>, next: nat, cuts: Cuts)
    requires held != [] && Increasing(held) && held[0] < next && Complete(held, next, cuts)
    ensures Increasing(held[1..]) && Complete(held[1..], next, cuts)
  {
    forall h, o | h in held[1..] && o in cuts && next <= o < h ensures o in held[1..] {
      assert h in held;
      var i :| 0 <= i < |held| && held[i] == o;
      assert held[1..][i - 1] == o;
    }
  }

  lemma AckKeepsInbox(hand: seq<Chunk>, next: nat, bucket: map<nat, seq<Byte>>, cuts: Cuts)
    requires hand != [] && InboxTracked(Acking(hand), next, bucket, cuts)
    ensures InboxTracked(Ingesting(hand[1..]), next, bucket - {hand[0].offset}, cuts)
  {
    AckDropsHead(hand);
    TailIsComplete(Offsets(Acking(hand)), next, cuts);
  }

  /** What no step of the controller touches. */
  lemma ControllerFrame(c: Channel, step: Step)
    requires Enabled(c, step) && !ByAgent(step)
    ensures var d := Apply(c, step);
      && d.log == c.log && d.deleted == c.deleted && d.marker == c.marker && d.cached == c.cached
      && d.outbox == c.outbox && d.sent == c.sent
      && (step.Record? || d.next == c.next)
      && (step.Ack? || step.AckUnsure? || d.bucket == c.bucket)
  {
  }

  lemma ControllerKeepsBucket(c: Channel, step: Step, cuts: Cuts, frontier: nat)
    requires Safe(c) && Chained(cuts, frontier) && BucketTracked(c.bucket, c.next, cuts, frontier)
    requires InboxTracked(c.inbox, c.next, c.bucket, cuts)
    requires Enabled(c, step) && !ByAgent(step)
    ensures BucketTracked(Apply(c, step).bucket, Apply(c, step).next, cuts, frontier)
  {
    ControllerFrame(c, step);
    if step.Record? {
      assert c.inbox.hand[0] in Hand(c.inbox);
      assert Apply(c, step).next == cuts[c.next] && Link(cuts, frontier, c.next);
    }
  }

  lemma FetchKeepsInbox(c: Channel, step: Step, cuts: Cuts, frontier: nat)
    requires BucketTracked(c.bucket, c.next, cuts, frontier) && InboxTracked(c.inbox, c.next, c.bucket, cuts)
    requires step.List? || step.Get? || step.Begin?
    requires Enabled(c, step)
    ensures InboxTracked(Apply(c, step).inbox, c.next, c.bucket, cuts)
  {
    var d := Apply(c, step);
    match step
    case List(keys) =>
      assert Offsets(d.inbox) == keys;
    case Get =>
      var k := c.inbox.todo[0];
      GetKeepsOffsets(c.inbox.todo, c.inbox.got, c.bucket[k]);
      assert IsCut(cuts, Chunk(k, c.bucket[k]));
    case Begin =>
      assert Offsets(d.inbox) == Offsets(c.inbox);
  }

  /** Moving on with the same chunks in hand, and perhaps a later offset. */
  lemma SameHandTracked(i: Inbox, j: Inbox, next: nat, next': nat, bucket: map<nat, seq<Byte>>, cuts: Cuts)
    requires InboxTracked(i, next, bucket, cuts) && next <= next'
    requires Hand(j) == Hand(i) && !i.Fetching? && !j.Fetching?
    requires j.Acking? ==> j.hand != [] && j.hand[0].offset < next'
    ensures InboxTracked(j, next', bucket, cuts)
  {
    assert Offsets(j) == Offsets(i);
  }

  lemma IngestKeepsInbox(c: Channel, step: Step, cuts: Cuts)
    requires Safe(c) && InboxTracked(c.inbox, c.next, c.bucket, cuts)
    requires step.Skip? || step.WriteSome? || step.WriteAll? || step.Record?
    requires Enabled(c, step)
    ensures InboxTracked(Apply(c, step).inbox, Apply(c, step).next, c.bucket, cuts)
  {
    hide InboxTracked;
    var d := Apply(c, step);
    assert step.Record? ==> c.inbox.hand[0] in Hand(c.inbox);
    SameHandTracked(c.inbox, d.inbox, c.next, d.next, c.bucket, cuts);
  }

  lemma ControllerKeepsInbox(c: Channel, step: Step, cuts: Cuts, frontier: nat)
    requires Tracked(c, cuts, frontier) && Enabled(c, step) && !ByAgent(step)
    ensures var d := Apply(c, step); InboxTracked(d.inbox, d.next, d.bucket, cuts)
  {
    hide Safe, Chained, Recorded, AgentTracked, BucketTracked, InboxTracked, Lists;
    ControllerFrame(c, step);
    if step.List? || step.Get? || step.Begin? {
      FetchKeepsInbox(c, step, cuts, frontier);
    } else if step.Skip? || step.WriteSome? || step.WriteAll? || step.Record? {
      IngestKeepsInbox(c, step, cuts);
    } else if step.Ack? {
      AckKeepsInbox(c.inbox.hand, c.next, c.bucket, cuts);
    } else {
      IdleTracked(c.next, Apply(c, step).bucket, cuts);
    }
  }

  lemma IdleTracked(next: nat, bucket: map<nat, seq<Byte>>, cuts: Cuts)
    ensures InboxTracked(Idle, next, bucket, cuts)
  {
    assert Offsets(Idle) == [];
  }

  lemma ControllerKeepsTracked(c: Channel, step: Step, cuts: Cuts, frontier: nat)
    requires Tracked(c, cuts, frontier) && Enabled(c, step) && !ByAgent(step)
    ensures Tracked(Apply(c, step), cuts, frontier)
  {
    hide Safe, Chained, Recorded, BucketTracked, InboxTracked, Enabled, Apply;
    StepKeepsSafe(c, step);
    ControllerFrame(c, step);
    ControllerKeepsBucket(c, step, cuts, frontier);
    ControllerKeepsInbox(c, step, cuts, frontier);
  }

  // -- the agent --

  /** What no step of the agent other than a put touches. */
  lemma AgentFrame(c: Channel, step: Step, cuts: Cuts, frontier: nat)
    requires AgentTracked(c, frontier) && Enabled(c, step) && ByAgent(step) && !step.Put? && !step.PutUnsure?
    ensures var d := Apply(c, step);
      && d.bucket == c.bucket && d.copy == c.copy && d.next == c.next && d.inbox == c.inbox && d.sent == c.sent
      && AgentTracked(d, frontier)
  {
  }

  lemma AgentKeepsTracked(c: Channel, step: Step, cuts: Cuts, frontier: nat)
    requires Tracked(c, cuts, frontier) && Enabled(c, step) && ByAgent(step) && !step.Put? && !step.PutUnsure?
    ensures Tracked(Apply(c, step), cuts, frontier)
  {
    hide Safe, Chained, Recorded, AgentTracked, BucketTracked, InboxTracked, Enabled, Apply;
    StepKeepsSafe(c, step);
    AgentFrame(c, step, cuts, frontier);
  }

  lemma StepKeepsTracked(c: Channel, step: Step, cuts: Cuts, frontier: nat)
      returns (cuts': Cuts, frontier': nat)
    requires Tracked(c, cuts, frontier) && Enabled(c, step)
    requires Regular(Apply(c, step).sent)
    ensures Tracked(Apply(c, step), cuts', frontier')
  {
    hide Tracked, Safe, Enabled, Apply;
    cuts', frontier' := cuts, frontier;
    if step.Put? || step.PutUnsure? {
      cuts', frontier' := PutKeepsTracked(c, step, cuts, frontier);
    } else if ByAgent(step) {
      AgentKeepsTracked(c, step, cuts, frontier);
    } else {
      ControllerKeepsTracked(c, step, cuts, frontier);
    }
  }

  // ---- Consequences of the invariant ----

  lemma HeadIsReachable(held: seq<nat>, next: nat, cuts: Cuts, frontier: nat)
    requires Chained(cuts, frontier) && (next in cuts || next == frontier)
    requires held != [] && Increasing(held) && Complete(held, next, cuts) && (forall o | o in held :: o in cuts)
    ensures held[0] <= next
  {
    assert held[0] in held;
    assert Link(cuts, frontier, held[0]);
    if next < held[0] {
      assert false;
    }
  }

  lemma NoGapWhenTracked(c: Channel, cuts: Cuts, frontier: nat)
    requires Tracked(c, cuts, frontier)
    ensures !Enabled(c, Gap)
  {
    hide Safe, Chained, Recorded, AgentTracked, Complete, IsCut, Increasing;
    if HasHead(c.inbox) {
      HeadIsReachable(Offsets(c.inbox), c.next, cuts, frontier);
    }
  }

  /** The byte is in the controller's copy below the recorded offset, or in a chunk still queued. */
  ghost predicate Kept(c: Channel, b: nat) {
    b < |c.log| &&
    ((b < c.next && b < |c.copy| && c.copy[b] == c.log[b])
     || exists o :: o in c.bucket && c.next <= o <= b < o + |c.bucket[o]| && c.bucket[o][b - o] == c.log[b])
  }

  lemma {:induction false} CutContaining(cuts: Cuts, frontier: nat, from: nat, b: nat) returns (o: nat)
    requires Chained(cuts, frontier) && from in cuts && from <= b < frontier
    ensures o in cuts && from <= o <= b < cuts[o]
    decreases frontier - from
  {
    assert Link(cuts, frontier, from);
    if b < cuts[from] {
      o := from;
    } else {
      o := CutContaining(cuts, frontier, cuts[from], b);
    }
  }

  lemma KeptWhenTracked(c: Channel, cuts: Cuts, frontier: nat, b: nat)
    requires Tracked(c, cuts, frontier) && b < frontier
    ensures Kept(c, b)
  {
    if b >= c.next {
      var o := CutContaining(cuts, frontier, c.next, b);
      var k := Chunk(o, c.bucket[o]);
      assert SliceOf(k, c.log) && IsCut(cuts, k);
      assert k.data[b - o] == c.log[b];
    } else {
      var last :| last in cuts || last == frontier;
      assert c.copy[b] == c.log[b];
    }
  }

  /** How far the shipper believes the log has been published. */
  function Acknowledged(c: Channel): nat {
    var m, t := ReadMarker(c.marker), c.cached.GetOr(0);
    if m < t then t else m
  }

  ghost predicate NothingLost(c: Channel) {
    && (forall b: nat | b < Acknowledged(c) :: Kept(c, b))
    && (c.deleted ==> forall b: nat | b < |c.log| :: Kept(c, b))
  }

  lemma {:induction false} RegularRun(c: Channel, run: seq<Step>, cuts: Cuts, frontier: nat)
      returns (cuts': Cuts, frontier': nat)
    requires Tracked(c, cuts, frontier) && Legal(c, run) && Regular(Exec(c, run).sent)
    ensures Tracked(Exec(c, run), cuts', frontier')
    ensures Gap !in run
    decreases run
  {
    hide Tracked, Safe, Enabled, Apply;
    cuts', frontier' := cuts, frontier;
    if run != [] {
      var d := Apply(c, run[0]);
      RunIsMonotone(d, run[1..]);
      RegularPrefix(d.sent, Exec(d, run[1..]).sent);
      NoGapWhenTracked(c, cuts, frontier);
      cuts', frontier' := StepKeepsTracked(c, run[0], cuts, frontier);
      cuts', frontier' := RegularRun(d, run[1..], cuts', frontier');
      assert run == [run[0]] + run[1..];
    }
  }

  /**
   * No gap and no loss. In every run whose chunks are republished at chunk boundaries with the
   * length they had before, the gap branch is never taken and every byte below the marker -- and
   * every byte of a file local cleanup has deleted -- is at the controller or still in the bucket.
   */
  lemma NoGapNoLoss(run: seq<Step>)
    requires Legal(FRESH, run) && Regular(Exec(FRESH, run).sent)
    ensures Gap !in run && !Enabled(Exec(FRESH, run), Gap)
    ensures NothingLost(Exec(FRESH, run))
  {
    var c := Exec(FRESH, run);
    assert Offsets(Idle) == [];
    var cuts, frontier := RegularRun(FRESH, run, map[], 0);
    NoGapWhenTracked(c, cuts, frontier);
    forall b: nat | b < frontier ensures Kept(c, b) {
      KeptWhenTracked(c, cuts, frontier, b);
    }
  }

  // ---- Unless a marker is torn, same lengths are all that is needed ----

  ghost predicate CursorOnBoundary(c: Channel) {
    && (c.cached.Some? ==> Boundary(c.sent, c.cached.value))
    && (c.marker.At? ==> Boundary(c.sent, c.marker.value))
    && (c.outbox.Holding? ==> Boundary(c.sent, c.outbox.chunk.offset))
    && (c.outbox.Uploaded? || c.outbox.Truncated? || c.outbox.Marked? ==> c.outbox.chunk in c.sent)
    && OnBoundaries(c.sent)
  }

  lemma BoundaryGrows(sent: seq<Chunk>, k: Chunk)
    ensures forall o: nat | Boundary(sent, o) :: Boundary(sent + [k], o)
    ensures k in sent + [k] && Boundary(sent + [k], k.End())
  {
    assert (sent + [k])[|sent|] == k;
    forall o: nat | Boundary(sent, o) ensures Boundary(sent + [k], o) {
      if o != 0 {
        var j :| j in sent && j.End() == o;
        assert j in sent + [k];
      }
    }
  }

  lemma StepKeepsCursor(c: Channel, step: Step)
    requires CursorOnBoundary(c) && Enabled(c, step) && !step.TearMarker?
    ensures CursorOnBoundary(Apply(c, step))
  {
    if step.Put? || step.PutUnsure? {
      var k := c.outbox.chunk;
      BoundaryGrows(c.sent, k);
      var all := c.sent + [k];
      forall i | 0 <= i < |all| ensures Boundary(all[..i], all[i].offset) {
        if i < |c.sent| { assert all[..i] == c.sent[..i]; } else { assert all[..i] == c.sent; }
      }
    }
  }

  lemma {:induction false} RunKeepsCursor(c: Channel, run: seq<Step>)
    requires CursorOnBoundary(c) && Legal(c, run)
    requires forall i | 0 <= i < |run| :: !run[i].TearMarker?
    ensures CursorOnBoundary(Exec(c, run))
    decreases run
  {
    if run != [] {
      StepKeepsCursor(c, run[0]);
      RunKeepsCursor(Apply(c, run[0]), run[1..]);
    }
  }

  /** With markers whole, missing or empty, republishing with the same length is enough. */
  lemma SameLengthsSuffice(run: seq<Step>)
    requires Legal(FRESH, run) && (forall i | 0 <= i < |run| :: !run[i].TearMarker?)
    requires SameLengths(Exec(FRESH, run).sent)
    ensures Gap !in run && NothingLost(Exec(FRESH, run))
  {
    RunKeepsCursor(FRESH, run);
    NoGapNoLoss(run);
  }

  // ---- What happens otherwise ----

  ghost predicate Reaches(c: Channel, run: seq<Step>, d: Channel) {
    Legal(c, run) && Exec(c, run) == d
  }

  lemma Stay(c: Channel)
    ensures Reaches(c, [], c)
  {
  }

  /** Extends a run by one step at its end. */
  lemma Then(c: Channel, run: seq<Step>, d: Channel, step: Step) returns (run': seq<Step>)
    requires Reaches(c, run, d) && Enabled(d, step)
    ensures run' == run + [step] && Reaches(c, run', Apply(d, step))
  {
    run' := run + [step];
    assert Legal(Apply(d, step), []);
    assert [step][1..] == [];
    assert Legal(d, [step]) && Exec(d, [step]) == Apply(d, step);
    LegalConcat(c, run, [step]);
  }

  lemma Join(c: Channel, r1: seq<Step>, d: Channel, r2: seq<Step>, e: Channel)
    requires Reaches(c, r1, d) && Reaches(d, r2, e)
    ensures Reaches(c, r1 + r2, e)
  {
    LegalConcat(c, r1, r2);
  }

  /** The state one undisturbed call of the shipper leaves. */
  function Shipped(c: Channel, limit: nat): Channel
    requires Cursor(c) < |c.log|
  {
    var k := CutAt(c.log, Cursor(c), limit);
    c.(bucket := c.bucket[k.offset := k.data], sent := c.sent + [k],
       marker := At(k.End()), cached := Some(k.End()), outbox := Resting)
  }

  lemma ShipRun(c: Channel, limit: nat) returns (run: seq<Step>)
    requires Enabled(c, Cut(limit))
    ensures Reaches(c, run, Shipped(c, limit)) && run != [] && run[0] == Cut(limit)
  {
    hide Reaches, Legal, Exec;
    Stay(c);
    var c1 := Apply(c, Cut(limit));
    var c2 := Apply(c1, Put);
    var c3 := Apply(c2, TruncateMarker);
    var c4 := Apply(c3, WriteMarker);
    run := Then(c, [], c, Cut(limit));
    run := Then(c, run, c1, Put);
    run := Then(c, run, c2, TruncateMarker);
    run := Then(c, run, c3, WriteMarker);
    run := Then(c, run, c4, Remember);
  }

  /** The state the controller leaves after a pass over a bucket holding one chunk. */
  function Drained(c: Channel, k: Chunk): Channel
    requires c.next <= |c.copy|
  {
    if k.offset == c.next then
      c.(bucket := map[], copy := Overwrite(c.copy, c.next, k.data), next := c.next + |k.data|, inbox := Idle)
    else if k.offset < c.next then
      c.(bucket := map[], inbox := Idle)
    else
      c.(inbox := Idle)
  }

  lemma FetchRun(c: Channel, k: Chunk) returns (run: seq<Step>)
    requires c.bucket == map[k.offset := k.data] && c.inbox.Idle?
    ensures Reaches(c, run, c.(inbox := Ingesting([k])))
  {
    hide Reaches, Legal, Exec;
    Stay(c);
    assert Lists([k.offset], c.bucket);
    var c1 := Apply(c, List([k.offset]));
    var c2 := Apply(c1, Get);
    assert c2.inbox == Fetching([], [k]);
    run := Then(c, [], c, List([k.offset]));
    run := Then(c, run, c1, Get);
    run := Then(c, run, c2, Begin);
  }

  /** The only queued chunk, in hand, up to its acknowledgement. */
  lemma HandleRun(c: Channel, k: Chunk) returns (run: seq<Step>)
    requires c.inbox == Ingesting([k]) && k.offset <= c.next <= |c.copy|
    ensures Reaches(c, run, Handled(c, k))
  {
    hide Reaches;
    Stay(c);
    if k.offset == c.next {
      var d := Apply(c, WriteAll);
      run := Then(c, [], c, WriteAll);
      run := Then(c, run, d, Record);
    } else {
      run := Then(c, [], c, Skip);
    }
  }

  function Handled(c: Channel, k: Chunk): Channel
    requires k.offset <= c.next <= |c.copy|
  {
    if k.offset == c.next
      then c.(copy := Overwrite(c.copy, c.next, k.data), next := c.next + |k.data|, inbox := Acking([k]))
      else c.(inbox := Acking([k]))
  }

  lemma DrainRun(c: Channel, k: Chunk) returns (run: seq<Step>)
    requires c.bucket == map[k.offset := k.data] && c.inbox.Idle?
    requires c.next <= |c.copy|
    ensures Reaches(c, run, Drained(c, k))
  {
    hide Reaches, Overwrite;
    run := FetchRun(c, k);
    var d := c.(inbox := Ingesting([k]));
    if k.offset > c.next {
      run := Then(c, run, d, Gap);
      return;
    }
    var handle := HandleRun(d, k);
    var e := Handled(d, k);
    Join(c, run, d, handle, e);
    run := Then(c, run + handle, e, Ack);
    var f := Apply(e, Ack);
    assert f.bucket == map[];
    run := Then(c, run, f, Abandon);
  }

  /** Both ends idle, nothing in the bucket, and the shipper about to take at most `limit` bytes. */
  predicate Quiet(c: Channel, limit: nat) {
    c.bucket == map[] && c.inbox.Idle? && Enabled(c, Cut(limit))
  }

  /**
   * Exactly when one more round of shipping and ingesting loses nothing: the shipper resumes at
   * the recorded offset, or everything it resends is already below it. Otherwise the byte at the
   * recorded offset is below the marker and nowhere else.
   */
  lemma RoundIsLosslessIff(c: Channel, limit: nat) returns (run: seq<Step>, d: Channel)
    requires Quiet(c, limit) && Safe(c)
    ensures Reaches(c, run, d) && d == Drained(Shipped(c, limit), CutAt(c.log, Cursor(c), limit))
    ensures d.outbox.Resting? && d.inbox.Idle?
    ensures ReadMarker(d.marker) == CutAt(c.log, Cursor(c), limit).End()
    ensures (forall b: nat | b < ReadMarker(d.marker) :: Kept(d, b))
       <==> (Cursor(c) == c.next || CutAt(c.log, Cursor(c), limit).End() <= c.next)
  {
    var k := CutAt(c.log, Cursor(c), limit);
    var m := Shipped(c, limit);
    var r1 := ShipRun(c, limit);
    assert m.bucket == map[k.offset := k.data];
    var r2 := DrainRun(m, k);
    d := Drained(m, k);
    run := r1 + r2;
    Join(c, r1, m, r2, d);
    RunKeepsSafe(c, run);
    if Cursor(c) != c.next && k.End() > c.next {
      assert c.next < ReadMarker(d.marker) && !Kept(d, c.next);
    } else {
      assert k.End() <= d.next;
      forall b: nat | b < ReadMarker(d.marker) ensures Kept(d, b) {
        assert d.copy[b] == d.log[b];
      }
    }
  }

  /** The next chunk the shipper cuts starts at or before the recorded offset. */
  predicate Rewound(c: Channel) {
    c.outbox.Resting? && !c.deleted && Cursor(c) <= c.next
  }

  /** The byte at the recorded offset is behind the shipper, and nothing on its way will supply it. */
  predicate Stranded(c: Channel) {
    && !Rewound(c)
    && c.next !in c.bucket
    && (!c.outbox.Resting? ==> c.outbox.chunk.offset > c.next)
    && (forall k | k in Hand(c.inbox) :: k.offset != c.next)
    && (c.inbox.Fetching? ==> c.next !in c.inbox.todo)
    && !c.inbox.Synced?
  }

  lemma StrandedAgentStep(c: Channel, step: Step)
    requires Stranded(c) && Enabled(c, step) && ByAgent(step)
    ensures var d := Apply(c, step); (Stranded(d) <==> !Rewound(d)) && d.next == c.next && d.copy == c.copy
  {
  }

  lemma StrandedControllerStep(c: Channel, step: Step)
    requires Stranded(c) && Enabled(c, step) && !ByAgent(step)
    ensures var d := Apply(c, step); Stranded(d) && d.next == c.next && d.copy == c.copy
  {
  }

  /** A stranded channel gets free by one thing only: the shipper goes back, having lost offset table and marker. */
  lemma StrandedStepIff(c: Channel, step: Step)
    requires Stranded(c) && Enabled(c, step)
    ensures var d := Apply(c, step); (Stranded(d) <==> !Rewound(d)) && d.next == c.next && d.copy == c.copy
  {
    hide Stranded, Enabled, Apply, Rewound;
    if ByAgent(step) { StrandedAgentStep(c, step); } else { StrandedControllerStep(c, step); NotRewound(Apply(c, step)); }
  }

  lemma NotRewound(c: Channel)
    requires Stranded(c)
    ensures !Rewound(c)
  {
  }

  ghost predicate NeverRewinds(c: Channel, run: seq<Step>)
    requires Legal(c, run)
    decreases run
  {
    run != [] ==> !Rewound(Apply(c, run[0])) && NeverRewinds(Apply(c, run[0]), run[1..])
  }

  /** Restarts included, a stranded channel stays stranded until the shipper goes back: the gap never closes. */
  lemma {:induction false} StrandedForGood(c: Channel, run: seq<Step>)
    requires Stranded(c) && Legal(c, run) && NeverRewinds(c, run)
    ensures Stranded(Exec(c, run))
    ensures Exec(c, run).next == c.next && Exec(c, run).copy == c.copy
    decreases run
  {
    hide Stranded, Enabled, Apply, Rewound;
    if run != [] {
      StrandedStepIff(c, run[0]);
      StrandedForGood(Apply(c, run[0]), run[1..]);
    }
  }

  const ONE_BYTE_SHIPPED := Channel([7], false, Missing, None, Resting, map[0 := [7]], [], 0, Idle, [Chunk(0, [7])])

  lemma LossyHead() returns (run: seq<Step>)
    ensures Reaches(FRESH, run, ONE_BYTE_SHIPPED)
  {
    var c1 := Apply(FRESH, Append([7]));
    var c2 := Apply(c1, Cut(4096));
    assert c2.outbox == Holding(Chunk(0, [7]));
    var c3 := Apply(c2, Put);
    run := Then(FRESH, [], FRESH, Append([7]));
    run := Then(FRESH, run, c1, Cut(4096));
    run := Then(FRESH, run, c2, Put);
    run := Then(FRESH, run, c3, AgentCrash);
  }

  /**
   * A run that loses a byte: one byte is put and ingested but its marker is never written; after
   * the restart the file is a byte longer, so the chunk at offset 0 is put again with two bytes,
   * skipped, and deleted. The marker says 2, the controller has 1 byte, the bucket is empty.
   */
  lemma LossyRun() returns (run: seq<Step>, d: Channel)
    ensures Reaches(FRESH, run, d)
    ensures d.sent == [Chunk(0, [7]), Chunk(0, [7, 8])] && OnBoundaries(d.sent) && !SameLengths(d.sent)
    ensures d.log == [7, 8] && d.copy == [7] && ReadMarker(d.marker) == 2 && d.bucket == map[]
    ensures !Kept(d, 1) && Stranded(d)
  {
    run := LossyHead();
    var r := DrainRun(ONE_BYTE_SHIPPED, Chunk(0, [7]));
    var c := Drained(ONE_BYTE_SHIPPED, Chunk(0, [7]));
    Join(FRESH, run, ONE_BYTE_SHIPPED, r, c);
    run := Then(FRESH, run + r, c, Append([8]));
    c := Apply(c, Append([8]));
    r, d := LossyTail(c);
    Join(FRESH, run, c, r, d);
    run := run + r;
    assert |d.sent[0].data| == 1 && |d.sent[1].data| == 2;
  }

  lemma LossyTail(c: Channel) returns (run: seq<Step>, d: Channel)
    requires c == Channel([7, 8], false, Missing, None, Resting, map[], [7], 1, Idle, [Chunk(0, [7])])
    ensures Reaches(c, run, d)
    ensures d == c.(marker := At(2), cached := Some(2), sent := [Chunk(0, [7]), Chunk(0, [7, 8])])
  {
    var k := CutAt(c.log, 0, 4096);
    assert k == Chunk(0, [7, 8]);
    var m := Shipped(c, 4096);
    var r1 := ShipRun(c, 4096);
    assert m.bucket == map[0 := [7, 8]];
    var r2 := DrainRun(m, k);
    d := Drained(m, k);
    Join(c, r1, m, r2, d);
    run := r1 + r2;
  }
}
