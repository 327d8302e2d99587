/**
 * When exactly the log pipeline loses a byte. Following the queued chunks from the recorded
 * offset, each starting where the one before ends, leads to the horizon: the controller gets
 * that far by itself and no farther. The agent gives up bytes by advancing its marker or by
 * deleting the file. Bytes are safe while what it has given up does not pass the horizon.
 */
module LogLoss {
  import opened Base
  import opened LogPipeline
  import opened LogDelivery

  type Queue = map<nat, seq<Byte>>

  // ---- Chains of chunks ----

  /** Where the chunks lead that start at `from` and join end to start. */
  function Chain(q: Queue, from: nat): (end: nat)
    ensures from <= end
    decreases q.Keys
  {
    if from in q && q[from] != [] then Chain(q - {from}, from + |q[from]|) else from
  }

  /** `o` is the start or the end of a chunk of that chain. */
  predicate OnChain(q: Queue, from: nat, o: nat)
    decreases q.Keys
  {
    o == from || (from in q && q[from] != [] && OnChain(q - {from}, from + |q[from]|, o))
  }

  ghost predicate SameFrom(q: Queue, r: Queue, from: nat) {
    forall o: nat | o >= from :: (o in q <==> o in r) && (o in q ==> q[o] == r[o])
  }

  /** Chunks below the start do not matter. */
  lemma {:induction false} ChainIgnoresBelow(q: Queue, r: Queue, from: nat, o: nat)
    requires SameFrom(q, r, from)
    ensures Chain(q, from) == Chain(r, from) && (OnChain(q, from, o) <==> OnChain(r, from, o))
    decreases q.Keys
  {
    assert from in q <==> from in r;
    if from in q && q[from] != [] {
      assert SameFrom(q - {from}, r - {from}, from + |q[from]|);
      ChainIgnoresBelow(q - {from}, r - {from}, from + |q[from]|, o);
    }
  }

  lemma ChainStep(q: Queue, from: nat, o: nat)
    requires from in q && q[from] != []
    ensures Chain(q, from) == Chain(q, from + |q[from]|)
    ensures OnChain(q, from, o) <==> o == from || OnChain(q, from + |q[from]|, o)
  {
    assert SameFrom(q - {from}, q, from + |q[from]|);
    ChainIgnoresBelow(q - {from}, q, from + |q[from]|, o);
  }

  /** What putting a chunk does to a chain: nothing, unless its offset is a joint of it. */
  lemma {:induction false} PutOnChain(q: Queue, from: nat, o: nat, data: seq<Byte>)
    requires data != []
    ensures Chain(q[o := data], from) == if OnChain(q, from, o) then Chain(q, o + |data|) else Chain(q, from)
    decreases if from <= o then o - from + 1 else 0
  {
    var r := q[o := data];
    if o < from {
      assert SameFrom(q, r, from);
      ChainIgnoresBelow(q, r, from, o);
      if OnChain(q, from, o) { OnChainIsAbove(q, from, o); }
    } else if o == from {
      ChainStep(r, from, o);
      assert SameFrom(q, r, o + |data|);
      ChainIgnoresBelow(q, r, o + |data|, o);
    } else if from in q && q[from] != [] {
      ChainStep(q, from, o);
      ChainStep(r, from, o);
      PutOnChain(q, from + |q[from]|, o, data);
    }
  }

  lemma {:induction false} OnChainIsAbove(q: Queue, from: nat, o: nat)
    requires OnChain(q, from, o)
    ensures from <= o
    decreases q.Keys
  {
    if o != from { OnChainIsAbove(q - {from}, from + |q[from]|, o); }
  }

  /** The chunk of the chain that holds a given byte. */
  lemma {:induction false} LinkAt(q: Queue, from: nat, b: nat) returns (o: nat)
    requires from <= b < Chain(q, from)
    ensures o in q && from <= o <= b < o + |q[o]|
    decreases q.Keys
  {
    if b < from + |q[from]| {
      o := from;
    } else {
      o := LinkAt(q - {from}, from + |q[from]|, b);
    }
  }

  // ---- The condition ----

  /** How far the controller gets with what is queued. */
  function Horizon(c: Channel): nat {
    Chain(c.bucket, c.next)
  }

  /** The bytes the agent will not send again of its own accord: below its marker, or of a file it deleted. */
  function GivenUp(c: Channel): nat {
    if c.deleted && Acknowledged(c) < |c.log| then |c.log| else Acknowledged(c)
  }

  predicate Lossless(c: Channel) {
    GivenUp(c) <= Horizon(c)
  }

  /**
   * The steps that lose a byte. A put loses when it replaces a queued chunk of the chain so that
   * the chain no longer reaches what is given up. A marker loses when it passes the horizon. And
   * recording a chunk loses when the chunk in hand, fetched before the one now queued under its
   * key was put, leads to an offset from which the queue does not reach what is given up.
   */
  predicate Loses(c: Channel, step: Step)
    requires Enabled(c, step)
  {
    match step
    case Put => OnChain(c.bucket, c.next, c.outbox.chunk.offset) && Chain(c.bucket, c.outbox.chunk.End()) < GivenUp(c)
    case PutUnsure => OnChain(c.bucket, c.next, c.outbox.chunk.offset) && Chain(c.bucket, c.outbox.chunk.End()) < GivenUp(c)
    case WriteMarker => Horizon(c) < c.outbox.chunk.End()
    case TearMarker(value) => Horizon(c) < value
    case Remember => Horizon(c) < c.outbox.chunk.End()
    case Record => Chain(c.bucket, c.inbox.hand[0].End()) < GivenUp(c)
    case _ => false
  }

  /** Safe, and a chunk is acknowledged only once its offset is below the recorded one. */
  predicate Coherent(c: Channel) {
    Safe(c) && (c.inbox.Acking? ==> c.inbox.hand != [] && c.inbox.hand[0].offset < c.next)
  }

  lemma StepKeepsCoherent(c: Channel, step: Step)
    requires Coherent(c) && Enabled(c, step)
    ensures Coherent(Apply(c, step))
  {
    StepKeepsSafe(c, step);
    AckedIsBelow(c, step);
  }

  lemma HandIsNotEmpty(c: Channel)
    requires Safe(c) && c.inbox.Synced?
    ensures c.inbox.hand != [] && c.inbox.hand[0].data != []
  {
    assert c.inbox.hand[0] in Hand(c.inbox);
  }

  lemma AckedIsBelow(c: Channel, step: Step)
    requires Coherent(c) && Enabled(c, step)
    ensures var d := Apply(c, step); d.inbox.Acking? ==> d.inbox.hand != [] && d.inbox.hand[0].offset < d.next
  {
    hide SliceOf, PrefixSafe;
    if step.Record? { HandIsNotEmpty(c); }
  }

  lemma {:induction false} RunKeepsCoherent(c: Channel, run: seq<Step>)
    requires Coherent(c) && Legal(c, run)
    ensures Coherent(Exec(c, run))
    decreases run
  {
    hide Coherent, Enabled, Apply;
    if run != [] {
      StepKeepsCoherent(c, run[0]);
      RunKeepsCoherent(Apply(c, run[0]), run[1..]);
    }
  }

  lemma PutLosesIff(c: Channel, step: Step)
    requires Coherent(c) && Lossless(c) && Enabled(c, step) && (step.Put? || step.PutUnsure?)
    ensures Lossless(Apply(c, step)) <==> !Loses(c, step)
  {
    hide Chain, OnChain;
    PutOnChain(c.bucket, c.next, c.outbox.chunk.offset, c.outbox.chunk.data);
  }

  lemma AgentLosesIff(c: Channel, step: Step)
    requires Coherent(c) && Lossless(c) && Enabled(c, step) && ByAgent(step) && !step.Put? && !step.PutUnsure?
    ensures Lossless(Apply(c, step)) <==> !Loses(c, step)
  {
    hide Chain, Safe;
  }

  lemma ControllerLosesIff(c: Channel, step: Step)
    requires Coherent(c) && Lossless(c) && Enabled(c, step) && !ByAgent(step)
    ensures Lossless(Apply(c, step)) <==> !Loses(c, step)
  {
    hide Chain, Faithful;
    if step.Ack? || step.AckUnsure? {
      assert SameFrom(c.bucket, Apply(c, step).bucket, c.next);
      ChainIgnoresBelow(c.bucket, Apply(c, step).bucket, c.next, 0);
    }
  }

  /**
   * Exactly which steps lose a byte: from every coherent state, in the middle of whatever either
   * side is doing, a step keeps the pipeline lossless if and only if it is none of those above.
   */
  lemma StepLosesIff(c: Channel, step: Step)
    requires Coherent(c) && Lossless(c) && Enabled(c, step)
    ensures Lossless(Apply(c, step)) <==> !Loses(c, step)
  {
    hide Coherent, Lossless, Loses, Enabled, Apply;
    if step.Put? || step.PutUnsure? {
      PutLosesIff(c, step);
    } else if ByAgent(step) {
      AgentLosesIff(c, step);
    } else {
      ControllerLosesIff(c, step);
    }
  }

  ghost predicate StaysLossless(c: Channel, run: seq<Step>)
    requires Legal(c, run)
    decreases run
  {
    Lossless(c) && (run != [] ==> StaysLossless(Apply(c, run[0]), run[1..]))
  }

  ghost predicate HasNoLosingStep(c: Channel, run: seq<Step>)
    requires Legal(c, run)
    decreases run
  {
    run != [] ==> !Loses(c, run[0]) && HasNoLosingStep(Apply(c, run[0]), run[1..])
  }

  lemma {:induction false} RunLosesIff(c: Channel, run: seq<Step>)
    requires Coherent(c) && Lossless(c) && Legal(c, run)
    ensures StaysLossless(c, run) <==> HasNoLosingStep(c, run)
    decreases run
  {
    hide Coherent, Lossless, Loses, Enabled, Apply;
    if run != [] {
      var d := Apply(c, run[0]);
      StepLosesIff(c, run[0]);
      if Lossless(d) {
        StepKeepsCoherent(c, run[0]);
        RunLosesIff(d, run[1..]);
      } else {
        assert !StaysLossless(d, run[1..]);
      }
    }
  }

  /** Every run from the start is lossless throughout if and only if no step of it is a losing one. */
  lemma LosslessIff(run: seq<Step>)
    requires Legal(FRESH, run)
    ensures StaysLossless(FRESH, run) <==> HasNoLosingStep(FRESH, run)
  {
    RunLosesIff(FRESH, run);
  }

  // ---- Republishing with the same boundaries and lengths ----

  /** The queue follows the cuts from any of them to the frontier. */
  lemma {:induction false} ChainFollowsCuts(q: Queue, cuts: Cuts, frontier: nat, from: nat)
    requires Chained(cuts, frontier) && (from in cuts || from == frontier)
    requires forall o | o in cuts && o >= from :: o in q && o + |q[o]| == cuts[o]
    ensures Chain(q, from) >= frontier
    decreases frontier - from
  {
    assert Link(cuts, frontier, from);
    if from in cuts {
      ChainStep(q, from, 0);
      ChainFollowsCuts(q, cuts, frontier, cuts[from]);
    }
  }

  lemma TrackedIsLossless(c: Channel, cuts: Cuts, frontier: nat)
    requires Tracked(c, cuts, frontier)
    ensures Lossless(c)
  {
    hide Safe, Recorded, InboxTracked;
    forall o | o in cuts && o >= c.next ensures o in c.bucket && o + |c.bucket[o]| == cuts[o] {
      assert IsCut(cuts, Chunk(o, c.bucket[o]));
    }
    if c.next <= frontier { ChainFollowsCuts(c.bucket, cuts, frontier, c.next); }
  }

  lemma {:induction false} RegularStays(c: Channel, run: seq<Step>, cuts: Cuts, frontier: nat)
    requires Tracked(c, cuts, frontier) && Legal(c, run) && Regular(Exec(c, run).sent)
    ensures StaysLossless(c, run)
    decreases run
  {
    hide Tracked, Lossless, Enabled, Apply, Regular;
    TrackedIsLossless(c, cuts, frontier);
    if run != [] {
      var d := Apply(c, run[0]);
      RunIsMonotone(d, run[1..]);
      RegularPrefix(d.sent, Exec(d, run[1..]).sent);
      var cuts', frontier' := StepKeepsTracked(c, run[0], cuts, frontier);
      RegularStays(d, run[1..], cuts', frontier');
    }
  }

  /** Runs whose chunks are republished at their old boundaries and lengths have no losing step. */
  lemma RegularRunsAreLossless(run: seq<Step>)
    requires Legal(FRESH, run) && Regular(Exec(FRESH, run).sent)
    ensures HasNoLosingStep(FRESH, run)
  {
    assert Offsets(Idle) == [];
    RegularStays(FRESH, run, map[], 0);
    LosslessIff(run);
  }

  // ---- What the condition means ----

  /** Below the horizon every byte is in the copy or in a queued chunk that is still to be ingested. */
  lemma HorizonIsKept(c: Channel, b: nat)
    requires Coherent(c) && b < Horizon(c)
    ensures Kept(c, b)
  {
    if b >= c.next {
      var o := LinkAt(c.bucket, c.next, b);
      assert SliceOf(Chunk(o, c.bucket[o]), c.log);
      assert c.bucket[o][b - o] == c.log[b];
    }
  }

  lemma LosslessKeepsAll(c: Channel)
    requires Coherent(c) && Lossless(c)
    ensures NothingLost(c)
  {
    forall b: nat | b < GivenUp(c) ensures Kept(c, b) {
      HorizonIsKept(c, b);
    }
  }

  /** What the controller holds is what is queued. */
  ghost predicate HandIsQueued(c: Channel) {
    && Increasing(Offsets(c.inbox))
    && (forall k | k in Hand(c.inbox) :: k.offset in c.bucket && c.bucket[k.offset] == k.data)
  }

  lemma DropKeepsIncreasing(s: seq<nat>, i: nat)
    requires Increasing(s) && i < |s|
    ensures Increasing(s[..i] + s[i + 1..]) && Increasing(s[1..])
  {
  }

  lemma GetKeepsHand(c: Channel)
    requires HandIsQueued(c) && Enabled(c, Get)
    ensures HandIsQueued(Apply(c, Get))
  {
    hide Increasing;
    var todo, got := c.inbox.todo, c.inbox.got;
    if todo[0] in c.bucket {
      GetKeepsOffsets(todo, got, c.bucket[todo[0]]);
    } else {
      DropKeepsIncreasing(Offsets(c.inbox), |got|);
      assert Offsets(Fetching(todo[1..], got)) == Offsets(c.inbox)[..|got|] + Offsets(c.inbox)[|got| + 1..];
    }
  }

  /** Without its first chunk a hand is still what is queued without that chunk. */
  lemma RestIsQueued(hand: seq<Chunk>, q: Queue)
    requires hand != [] && Increasing(Offsets(Acking(hand)))
    requires forall k | k in hand :: k.offset in q && q[k.offset] == k.data
    ensures forall k | k in hand[1..] :: k.offset in q - {hand[0].offset} && q[k.offset] == k.data
  {
    forall j | 0 < j < |hand| ensures hand[j].offset != hand[0].offset {
      assert Offsets(Acking(hand))[0] < Offsets(Acking(hand))[j];
    }
  }

  lemma AckKeepsHand(c: Channel, step: Step)
    requires HandIsQueued(c) && Enabled(c, step) && (step.Ack? || step.AckUnsure?)
    ensures HandIsQueued(Apply(c, step))
  {
    hide Increasing;
    var hand := c.inbox.hand;
    AckDropsHead(hand);
    DropKeepsIncreasing(Offsets(c.inbox), 0);
    RestIsQueued(hand, c.bucket);
    EmptyHand();
  }

  lemma EmptyHand()
    ensures Offsets(Idle) == [] && Increasing(Offsets(Idle)) && Hand(Idle) == []
  {
  }

  lemma ControllerKeepsHand(c: Channel, step: Step)
    requires HandIsQueued(c) && Enabled(c, step) && !ByAgent(step)
    ensures HandIsQueued(Apply(c, step))
  {
    match step
    case Get => GetKeepsHand(c);
    case Ack => AckKeepsHand(c, step);
    case AckUnsure => AckKeepsHand(c, step);
    case _ =>
  }

  lemma ControllerKeepsHorizon(c: Channel, step: Step)
    requires Coherent(c) && HandIsQueued(c) && Enabled(c, step) && !ByAgent(step)
    ensures Horizon(Apply(c, step)) == Horizon(c)
  {
    if step.Ack? || step.AckUnsure? {
      assert SameFrom(c.bucket, Apply(c, step).bucket, c.next);
      ChainIgnoresBelow(c.bucket, Apply(c, step).bucket, c.next, 0);
    } else if step.Record? {
      assert c.inbox.hand[0] in Hand(c.inbox);
      ChainStep(c.bucket, c.next, 0);
    }
  }

  /** By itself the controller moves the horizon nowhere, and so never records an offset past it. */
  lemma {:induction false} ControllerStaysBelow(c: Channel, run: seq<Step>)
    requires Coherent(c) && HandIsQueued(c) && Legal(c, run)
    requires forall step | step in run :: !ByAgent(step)
    ensures Horizon(Exec(c, run)) == Horizon(c) && Exec(c, run).next <= Horizon(c)
    decreases run
  {
    hide Coherent, HandIsQueued, Enabled, Apply, ByAgent;
    if run != [] {
      assert run[0] in run;
      var d := Apply(c, run[0]);
      StepKeepsCoherent(c, run[0]);
      ControllerKeepsHand(c, run[0]);
      ControllerKeepsHorizon(c, run[0]);
      assert forall step | step in run[1..] :: step in run;
      ControllerStaysBelow(d, run[1..]);
    }
  }

  // -- and it gets there --

  lemma {:induction false} SortedKeys(keys: set<nat>) returns (s: seq<nat>)
    ensures Increasing(s) && forall k :: k in s <==> k in keys
    decreases keys
  {
    s := [];
    if keys != {} {
      var top := Greatest(keys);
      var rest := SortedKeys(keys - {top});
      s := rest + [top];
      forall i | 0 <= i < |rest| ensures rest[i] < top { assert rest[i] in rest; }
    }
  }

  lemma {:induction false} Greatest(keys: set<nat>) returns (top: nat)
    requires keys != {}
    ensures top in keys && forall k | k in keys :: k <= top
    decreases keys
  {
    top :| top in keys;
    if keys != {top} {
      var other := Greatest(keys - {top});
      assert forall k | k in keys :: k == top || k in keys - {top};
      if top < other { top := other; }
    }
  }

  /** The chunks queued under some keys, in that order. */
  function ChunksAt(keys: seq<nat>, q: Queue): (s: seq<Chunk>)
    requires forall k | k in keys :: k in q
    ensures |s| == |keys| && forall i | 0 <= i < |s| :: s[i] == Chunk(keys[i], q[keys[i]])
  {
    seq(|keys|, (i: nat) requires i < |keys| => assert keys[i] in keys; Chunk(keys[i], q[keys[i]]))
  }

  lemma ChunksAtFirst(keys: seq<nat>, q: Queue, got: seq<Chunk>)
    requires keys != [] && forall k | k in keys :: k in q
    ensures keys[0] in q && forall k | k in keys[1..] :: k in q
    ensures got + [Chunk(keys[0], q[keys[0]])] + ChunksAt(keys[1..], q) == got + ChunksAt(keys, q)
  {
    assert keys[0] in keys;
  }

  lemma {:induction false} GetAll(c: Channel, got: seq<Chunk>, todo: seq<nat>) returns (run: seq<Step>)
    requires c.inbox == Fetching(todo, got) && forall k | k in todo :: k in c.bucket
    ensures Reaches(c, run, c.(inbox := Fetching([], got + ChunksAt(todo, c.bucket))))
    ensures forall step | step in run :: step.Get?
    decreases todo
  {
    hide Reaches, ChunksAt;
    Stay(c);
    run := [];
    if todo == [] {
      NoChunks(c.bucket, got);
    } else {
      ChunksAtFirst(todo, c.bucket, got);
      var first := Chunk(todo[0], c.bucket[todo[0]]);
      var d := c.(inbox := Fetching(todo[1..], got + [first]));
      var rest := GetAll(d, got + [first], todo[1..]);
      run := Then(c, [], c, Get);
      Join(c, run, d, rest, c.(inbox := Fetching([], got + ChunksAt(todo, c.bucket))));
      run := run + rest;
    }
  }

  lemma NoChunks(q: Queue, got: seq<Chunk>)
    ensures got + ChunksAt([], q) == got
  {
  }

  /** The whole queue is in the controller's hands, in order. */
  ghost predicate HoldsQueue(c: Channel) {
    c.inbox.Ingesting? && HandIsQueued(c) && forall o | o in c.bucket :: o in Offsets(c.inbox)
  }

  /** LIST, the GETs and the start of ingestion, with nothing in between. */
  lemma FetchListed(c: Channel, keys: seq<nat>) returns (run: seq<Step>)
    requires c.inbox.Idle? && Lists(keys, c.bucket)
    ensures Reaches(c, run, c.(inbox := Ingesting(ChunksAt(keys, c.bucket))))
    ensures forall step | step in run :: !ByAgent(step)
  {
    hide Reaches, Increasing, ByAgent;
    var c1, hand := c.(inbox := Fetching(keys, [])), ChunksAt(keys, c.bucket);
    Stay(c);
    run := Then(c, [], c, List(keys));
    var gets := GetAll(c1, [], keys);
    assert [] + hand == hand;
    var c2 := c1.(inbox := Fetching([], hand));
    Join(c, run, c1, gets, c2);
    run := Then(c, run + gets, c2, Begin);
    ControllerSteps(run);
  }

  lemma FetchQueue(c: Channel) returns (run: seq<Step>, d: Channel)
    requires c.inbox.Idle?
    ensures Reaches(c, run, d) && HoldsQueue(d) && d == c.(inbox := d.inbox)
    ensures forall step | step in run :: !ByAgent(step)
  {
    hide Reaches, Increasing, ByAgent;
    var keys := SortedKeys(c.bucket.Keys);
    run := FetchListed(c, keys);
    d := c.(inbox := Ingesting(ChunksAt(keys, c.bucket)));
    HoldsChunks(d, keys);
  }

  lemma ControllerSteps(run: seq<Step>)
    requires forall step | step in run :: step.List? || step.Get? || step.Begin?
    ensures forall step | step in run :: !ByAgent(step)
  {
  }

  lemma HoldsChunks(c: Channel, keys: seq<nat>)
    requires Lists(keys, c.bucket) && c.inbox == Ingesting(ChunksAt(keys, c.bucket))
    ensures HoldsQueue(c)
  {
    assert Offsets(c.inbox) == keys;
  }

  /** The chunk in hand is ingested or skipped; it is now to be acknowledged. */
  lemma HandleOne(c: Channel) returns (run: seq<Step>, d: Channel)
    requires Coherent(c) && HoldsQueue(c) && c.inbox.hand != [] && c.inbox.hand[0].offset <= c.next
    ensures Reaches(c, run, d) && HandIsQueued(d) && d.inbox == Acking(c.inbox.hand) && d.bucket == c.bucket
    ensures forall step | step in run :: !ByAgent(step)
  {
    hide Reaches, HandIsQueued, Safe;
    Stay(c);
    assert HandIsQueued(c);
    if c.inbox.hand[0].offset == c.next {
      assert c.next <= |c.copy| by { CopyCovers(c); }
      var c1 := Apply(c, WriteAll);
      run := Then(c, [], c, WriteAll);
      run := Then(c, run, c1, Record);
      d := Apply(c1, Record);
      ControllerKeepsHand(c, WriteAll);
      ControllerKeepsHand(c1, Record);
    } else {
      run := Then(c, [], c, Skip);
      d := Apply(c, Skip);
      ControllerKeepsHand(c, Skip);
    }
  }

  /** One chunk of a pass over the whole queue, unless it lies beyond a gap. */
  lemma IngestOne(c: Channel) returns (run: seq<Step>, d: Channel)
    requires Coherent(c) && HoldsQueue(c) && c.inbox.hand != [] && c.inbox.hand[0].offset <= c.next
    ensures Reaches(c, run, d) && HoldsQueue(d) && |d.inbox.hand| < |c.inbox.hand|
    ensures forall step | step in run :: !ByAgent(step)
  {
    hide Reaches, HandIsQueued, Coherent;
    run, d := HandleOne(c);
    run := Then(c, run, d, Ack);
    AckKeepsHand(d, Ack);
    AckKeepsQueue(d);
    d := Apply(d, Ack);
  }

  lemma CopyCovers(c: Channel)
    requires Safe(c)
    ensures c.next <= |c.copy|
  {
  }

  lemma AckKeepsQueue(c: Channel)
    requires Enabled(c, Ack) && forall o | o in c.bucket :: o in Offsets(c.inbox)
    ensures var d := Apply(c, Ack); forall o | o in d.bucket :: o in Offsets(d.inbox)
  {
    var d := Apply(c, Ack);
    assert Offsets(c.inbox) == [c.inbox.hand[0].offset] + Offsets(d.inbox);
  }

  lemma {:induction false} IngestQueue(c: Channel) returns (run: seq<Step>)
    requires Coherent(c) && HoldsQueue(c)
    ensures Legal(c, run) && Exec(c, run).next == Horizon(c)
    ensures forall step | step in run :: !ByAgent(step)
    decreases |c.inbox.hand|
  {
    run := [];
    if c.inbox.hand != [] && c.inbox.hand[0].offset <= c.next {
      var first, d := IngestOne(c);
      RunKeepsCoherent(c, first);
      ControllerStaysBelow(c, first);
      var rest := IngestQueue(d);
      LegalConcat(c, first, rest);
      run := first + rest;
    } else {
      NothingAtNext(c);
    }
  }

  lemma NothingAtNext(c: Channel)
    requires HoldsQueue(c) && (c.inbox.hand == [] || c.inbox.hand[0].offset > c.next)
    ensures Horizon(c) == c.next
  {
    var held := Offsets(c.inbox);
    forall i | 0 <= i < |held| ensures held[i] > c.next {
      assert i > 0 ==> held[0] < held[i];
    }
    assert c.next !in held;
  }

  /**
   * The horizon is what the controller reaches: from any coherent state between two passes, some
   * run of its own steps records exactly that offset, and none records a greater one.
   */
  lemma HorizonIsReach(c: Channel, other: seq<Step>) returns (run: seq<Step>)
    requires Coherent(c) && c.inbox.Idle?
    requires Legal(c, other) && forall step | step in other :: !ByAgent(step)
    ensures Legal(c, run) && Exec(c, run).next == Horizon(c) && forall step | step in run :: !ByAgent(step)
    ensures Exec(c, other).next <= Horizon(c)
  {
    assert Offsets(c.inbox) == [];
    ControllerStaysBelow(c, other);
    var fetch, d := FetchQueue(c);
    RunKeepsCoherent(c, fetch);
    var rest := IngestQueue(d);
    LegalConcat(c, fetch, rest);
    run := fetch + rest;
  }

  // ---- In the program's terms ----

  /**
   * The marker of a chunk just put loses a byte if and only if the chunk starts at no joint of the
   * chain and ends past the horizon: the shipper has resumed where the queue does not.
   */
  lemma MarkerAfterPutLosesIff(c: Channel)
    requires Coherent(c) && Lossless(c) && Enabled(c, Put)
    ensures var k, d := c.outbox.chunk, Apply(Apply(c, Put), TruncateMarker);
      Loses(d, WriteMarker) <==> !OnChain(c.bucket, c.next, k.offset) && Horizon(c) < k.End()
  {
    hide Chain, OnChain;
    PutOnChain(c.bucket, c.next, c.outbox.chunk.offset, c.outbox.chunk.data);
  }

  /** Recording never loses while the chunk queued under the key in hand has the length of the one in hand. */
  lemma CurrentHandNeverLoses(c: Channel)
    requires Coherent(c) && Lossless(c) && Enabled(c, Record)
    requires c.next in c.bucket && |c.bucket[c.next]| == |c.inbox.hand[0].data|
    ensures !Loses(c, Record)
  {
    assert c.inbox.hand[0] in Hand(c.inbox);
    ChainStep(c.bucket, c.next, 0);
  }

  /** The controller has fetched the one-byte chunk; the agent has restarted and the file is longer. */
  const STALE_HAND := Channel([7, 8], false, Missing, None, Resting, map[0 := [7]], [], 0,
                              Ingesting([Chunk(0, [7])]), [Chunk(0, [7])])

  lemma StaleHandIsReachable() returns (run: seq<Step>)
    ensures Reaches(FRESH, run, STALE_HAND)
  {
    hide Reaches;
    run := LossyHead();
    var fetch := FetchRun(ONE_BYTE_SHIPPED, Chunk(0, [7]));
    var c := ONE_BYTE_SHIPPED.(inbox := Ingesting([Chunk(0, [7])]));
    Join(FRESH, run, ONE_BYTE_SHIPPED, fetch, c);
    run := Then(FRESH, run + fetch, c, Append([8]));
    assert [7] + [8] == [7, 8];
  }

  /** The longer chunk is put under the same key and marked while the old one is still in hand. */
  const RACED := STALE_HAND.(marker := At(2), cached := Some(2), bucket := map[0 := [7, 8]],
                             sent := [Chunk(0, [7]), Chunk(0, [7, 8])])

  /**
   * A race that loses a byte although the shipper resumes on the recorded offset both times: the
   * controller ingests the chunk it fetched before, and its delete by key takes the longer one.
   */
  lemma RaceLoses() returns (before: seq<Step>, after: seq<Step>, d: Channel)
    ensures Reaches(FRESH, before, STALE_HAND) && Cursor(STALE_HAND) == STALE_HAND.next
    ensures Reaches(STALE_HAND, after, d) && after != [] && after[0] == Cut(4096) && Record in after
    ensures d.log == [7, 8] && d.copy == [7] && ReadMarker(d.marker) == 2 && d.bucket == map[]
    ensures OnBoundaries(d.sent) && !Kept(d, 1) && !Lossless(d) && Stranded(d)
  {
    hide Reaches;
    before := StaleHandIsReachable();
    var ship := ShipRun(STALE_HAND, 4096);
    assert CutAt([7, 8], 0, 4096) == Chunk(0, [7, 8]);
    assert Shipped(STALE_HAND, 4096) == RACED;
    var tail;
    tail, d := RaceEnds();
    Join(STALE_HAND, ship, RACED, tail, d);
    after := ship + tail;
    RaceLost(d);
  }

  lemma RaceEnds() returns (run: seq<Step>, d: Channel)
    ensures Reaches(RACED, run, d) && Record in run
    ensures d == RACED.(bucket := map[], copy := [7], next := 1, inbox := Ingesting([]))
  {
    hide Reaches;
    Stay(RACED);
    var c1 := Apply(RACED, WriteAll);
    assert c1 == RACED.(copy := [7], inbox := Synced([Chunk(0, [7])]));
    var c2 := Apply(c1, Record);
    run := Then(RACED, [], RACED, WriteAll);
    run := Then(RACED, run, c1, Record);
    run := Then(RACED, run, c2, Ack);
    d := Apply(c2, Ack);
    assert d.bucket == map[] && [Chunk(0, [7])][1..] == [];
  }

  lemma RaceLost(d: Channel)
    requires d == RACED.(bucket := map[], copy := [7], next := 1, inbox := Ingesting([]))
    ensures OnBoundaries(d.sent) && !Kept(d, 1) && !Lossless(d) && Stranded(d)
  {
  }
}
