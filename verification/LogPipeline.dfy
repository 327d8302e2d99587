/**
 * Shipping one append-only file from an agent to the controller through the bucket.
 *
 * The state of one (agent, source) pair is spread over five places: the agent's file, the
 * agent's marker file, the bucket, the controller's copy, and the offset in the controller's
 * database. Each step below is one write to one of them, one request, or a crash, so a crash
 * may fall between any two writes. Keys of different sources are distinct (module LogKeys),
 * so each pair runs by itself; what other pairs do to this one is that the controller may
 * abandon a pass at any moment.
 */
module LogPipeline {
  import opened Base

  datatype Chunk = Chunk(offset: nat, data: seq<Byte>) {
    function End(): nat { offset + |data| }
  }

  /** The marker file; a crash between truncation and write leaves it unreadable. */
  datatype Marker = Missing | Unreadable | At(value: nat)

  /** How far one call of the shipper has come with one file. */
  datatype Outbox =
    | Resting
    | Holding(chunk: Chunk)      // read from the file, not yet put
    | Uploaded(chunk: Chunk)     // put acknowledged, marker untouched
    | Truncated(chunk: Chunk)    // marker opened for writing, still empty
    | Marked(chunk: Chunk)       // marker written, offset table not yet updated

  /** How far one pass of the controller has come with this source. */
  datatype Inbox =
    | Idle
    | Fetching(todo: seq<nat>, got: seq<Chunk>)  // listed; chunks are read one by one
    | Ingesting(hand: seq<Chunk>)                // about to ingest hand[0]
    | Synced(hand: seq<Chunk>)                   // hand[0] is in the copy, its offset not recorded
    | Acking(hand: seq<Chunk>)                   // hand[0] is about to be deleted from the bucket

  /** `sent` is history: every chunk that reached the bucket, in order. */
  datatype Channel = Channel(
    log: seq<Byte>, deleted: bool, marker: Marker, cached: Option<nat>, outbox: Outbox,
    bucket: map<nat, seq<Byte>>,
    copy: seq<Byte>, next: nat, inbox: Inbox,
    sent: seq<Chunk>)

  datatype Step =
    | Append(bytes: seq<Byte>)
    | Cut(limit: nat)
    | Put                    // put succeeds
    | PutUnsure              // put is reported failed although it landed
    | TruncateMarker
    | WriteMarker
    | TearMarker(value: nat) // crash during the write leaves a shorter number
    | Remember
    | GiveUp                 // ship_once returns an error
    | AgentCrash
    | LoseMarker
    | DeleteLocal            // local cleanup of a fully marked file
    | List(keys: seq<nat>)
    | Get
    | Begin
    | Gap
    | Skip
    | WriteSome(count: nat)  // part of write_all reached the copy
    | WriteAll
    | Record
    | Ack
    | AckUnsure              // delete is reported failed although it landed
    | Abandon                // crash, failed request, or an error on another source

  /** `read_marker`: anything that does not parse counts as zero. */
  function ReadMarker(m: Marker): nat {
    match m
    case At(v) => v
    case _ => 0
  }

  function Cursor(c: Channel): nat {
    match c.cached
    case Some(v) => v
    case None => ReadMarker(c.marker)
  }

  /** The chunk `ship_once` cuts from a file at an offset below its size. */
  function CutAt(log: seq<Byte>, offset: nat, limit: nat): Chunk
    requires offset < |log|
  {
    var len := if |log| - offset <= limit then |log| - offset else limit;
    Chunk(offset, log[offset..offset + len])
  }

  /** `write_all` at `offset` in a file at least that long: overwrites, extends if need be. */
  function Overwrite(file: seq<Byte>, offset: nat, data: seq<Byte>): seq<Byte>
    requires offset <= |file|
  {
    if offset + |data| <= |file| then file[..offset] + data + file[offset + |data|..]
    else file[..offset] + data
  }

  predicate Increasing(keys: seq<nat>) {
    forall i, j | 0 <= i < j < |keys| :: keys[i] < keys[j]
  }

  /** A sorted listing of the bucket. */
  predicate Lists(keys: seq<nat>, bucket: map<nat, seq<Byte>>) {
    Increasing(keys) && (forall k | k in keys :: k in bucket) && (forall k | k in bucket :: k in keys)
  }

  predicate HasHead(i: Inbox) {
    i.Ingesting? && i.hand != []
  }

  predicate Enabled(c: Channel, step: Step) {
    match step
    case Append(_) => !c.deleted
    case Cut(limit) => c.outbox.Resting? && !c.deleted && limit > 0 && Cursor(c) < |c.log|
    case Put => c.outbox.Holding?
    case PutUnsure => c.outbox.Holding?
    case TruncateMarker => c.outbox.Uploaded?
    case WriteMarker => c.outbox.Truncated?
    case TearMarker(v) => c.outbox.Truncated? && v <= c.outbox.chunk.End()
    case Remember => c.outbox.Marked?
    case GiveUp => true
    case AgentCrash => true
    case LoseMarker => true
    case DeleteLocal => !c.deleted && ReadMarker(c.marker) >= |c.log|
    case List(keys) => c.inbox.Idle? && Lists(keys, c.bucket)
    case Get => c.inbox.Fetching? && c.inbox.todo != []
    case Begin => c.inbox.Fetching? && c.inbox.todo == []
    case Gap => HasHead(c.inbox) && c.inbox.hand[0].offset > c.next
    case Skip => HasHead(c.inbox) && c.inbox.hand[0].offset < c.next
    case WriteSome(n) =>
      HasHead(c.inbox) && c.inbox.hand[0].offset == c.next <= |c.copy| && n <= |c.inbox.hand[0].data|
    case WriteAll => HasHead(c.inbox) && c.inbox.hand[0].offset == c.next <= |c.copy|
    case Record => c.inbox.Synced? && c.inbox.hand != []
    case Ack => c.inbox.Acking? && c.inbox.hand != []
    case AckUnsure => c.inbox.Acking? && c.inbox.hand != []
    case Abandon => true
  }

  function Landed(c: Channel, outbox: Outbox): Channel
    requires c.outbox.Holding?
  {
    var k := c.outbox.chunk;
    c.(bucket := c.bucket[k.offset := k.data], outbox := outbox, sent := c.sent + [k])
  }

  function Apply(c: Channel, step: Step): Channel
    requires Enabled(c, step)
  {
    match step
    case Append(bytes) => c.(log := c.log + bytes)
    case Cut(limit) => c.(outbox := Holding(CutAt(c.log, Cursor(c), limit)))
    case Put => Landed(c, Uploaded(c.outbox.chunk))
    case PutUnsure => Landed(c, Resting)
    case TruncateMarker => c.(marker := Unreadable, outbox := Truncated(c.outbox.chunk))
    case WriteMarker => c.(marker := At(c.outbox.chunk.End()), outbox := Marked(c.outbox.chunk))
    case TearMarker(v) => c.(marker := At(v), outbox := Resting, cached := None)
    case Remember => c.(cached := Some(c.outbox.chunk.End()), outbox := Resting)
    case GiveUp => c.(outbox := Resting)
    case AgentCrash => c.(outbox := Resting, cached := None)
    case LoseMarker => c.(marker := Missing)
    case DeleteLocal => c.(deleted := true, marker := Missing)
    case List(keys) => c.(inbox := Fetching(keys, []))
    case Get =>
      var k := c.inbox.todo[0];
      c.(inbox := Fetching(c.inbox.todo[1..],
           if k in c.bucket then c.inbox.got + [Chunk(k, c.bucket[k])] else c.inbox.got))
    case Begin => c.(inbox := Ingesting(c.inbox.got))
    case Gap => c.(inbox := Idle)
    case Skip => c.(inbox := Acking(c.inbox.hand))
    case WriteSome(n) => c.(copy := Overwrite(c.copy, c.next, c.inbox.hand[0].data[..n]))
    case WriteAll =>
      c.(copy := Overwrite(c.copy, c.next, c.inbox.hand[0].data), inbox := Synced(c.inbox.hand))
    case Record => c.(next := c.next + |c.inbox.hand[0].data|, inbox := Acking(c.inbox.hand))
    case Ack => c.(bucket := c.bucket - {c.inbox.hand[0].offset}, inbox := Ingesting(c.inbox.hand[1..]))
    case AckUnsure => c.(bucket := c.bucket - {c.inbox.hand[0].offset}, inbox := Idle)
    case Abandon => c.(inbox := Idle)
  }

  predicate Legal(c: Channel, run: seq<Step>)
    decreases run
  {
    run == [] || (Enabled(c, run[0]) && Legal(Apply(c, run[0]), run[1..]))
  }

  function Exec(c: Channel, run: seq<Step>): Channel
    requires Legal(c, run)
    decreases run
  {
    if run == [] then c else Exec(Apply(c, run[0]), run[1..])
  }

  const FRESH := Channel([], false, Missing, None, Resting, map[], [], 0, Idle, [])

  // ---- Prefix safety ----

  /** A chunk that is exactly the part of the log it claims to be. */
  predicate SliceOf(k: Chunk, log: seq<Byte>) {
    0 < |k.data| && k.End() <= |log| && k.data == log[k.offset..k.End()]
  }

  function Hand(i: Inbox): seq<Chunk> {
    match i
    case Idle => []
    case Fetching(_, got) => got
    case Ingesting(hand) => hand
    case Synced(hand) => hand
    case Acking(hand) => hand
  }

  predicate Faithful(c: Channel) {
    && (!c.outbox.Resting? ==> SliceOf(c.outbox.chunk, c.log))
    && (forall k | k in c.bucket :: SliceOf(Chunk(k, c.bucket[k]), c.log))
    && (forall k | k in Hand(c.inbox) :: SliceOf(k, c.log))
    && (forall k | k in c.sent :: SliceOf(k, c.log))
  }

  /** The controller's copy is a prefix of the agent's file and covers the recorded offset. */
  predicate PrefixSafe(c: Channel) {
    c.copy <= c.log && c.next <= |c.copy|
  }

  predicate Safe(c: Channel) {
    && PrefixSafe(c)
    && Faithful(c)
    && (c.inbox.Synced? ==> c.inbox.hand != [] && c.inbox.hand[0].offset == c.next
                            && c.inbox.hand[0].End() <= |c.copy|)
  }

  lemma SliceSurvivesAppend(k: Chunk, log: seq<Byte>, more: seq<Byte>)
    requires SliceOf(k, log)
    ensures SliceOf(k, log + more)
  {
    assert (log + more)[k.offset..k.End()] == log[k.offset..k.End()];
  }

  /** Writing any part of a slice of the log over a prefix of the log leaves a prefix. */
  lemma OverwriteKeepsPrefix(file: seq<Byte>, log: seq<Byte>, k: Chunk, n: nat)
    requires file <= log && SliceOf(k, log) && k.offset <= |file| && n <= |k.data|
    ensures Overwrite(file, k.offset, k.data[..n]) <= log
    ensures |Overwrite(file, k.offset, k.data[..n])| >= |file|
    ensures |Overwrite(file, k.offset, k.data[..n])| >= k.offset + n
  {
    var out := Overwrite(file, k.offset, k.data[..n]);
    forall i | 0 <= i < |out| ensures out[i] == log[i] {
      if k.offset <= i < k.offset + n { assert out[i] == k.data[i - k.offset]; }
    }
  }

  lemma AppendKeepsSafe(c: Channel, bytes: seq<Byte>)
    requires Safe(c) && Enabled(c, Append(bytes))
    ensures Safe(Apply(c, Append(bytes)))
  {
    if !c.outbox.Resting? { SliceSurvivesAppend(c.outbox.chunk, c.log, bytes); }
    forall k | k in c.bucket ensures SliceOf(Chunk(k, c.bucket[k]), c.log + bytes) {
      SliceSurvivesAppend(Chunk(k, c.bucket[k]), c.log, bytes);
    }
    forall k | k in Hand(c.inbox) ensures SliceOf(k, c.log + bytes) {
      SliceSurvivesAppend(k, c.log, bytes);
    }
    forall k | k in c.sent ensures SliceOf(k, c.log + bytes) {
      SliceSurvivesAppend(k, c.log, bytes);
    }
  }

  /** Steps of the agent and its files; all others are the controller's. */
  predicate ByAgent(step: Step) {
    step.Append? || step.Cut? || step.Put? || step.PutUnsure? || step.TruncateMarker? || step.WriteMarker?
    || step.TearMarker? || step.Remember? || step.GiveUp? || step.AgentCrash? || step.LoseMarker? || step.DeleteLocal?
  }

  lemma AgentKeepsSafe(c: Channel, step: Step)
    requires Safe(c) && Enabled(c, step) && ByAgent(step)
    ensures Safe(Apply(c, step))
  {
    if step.Append? {
      AppendKeepsSafe(c, step.bytes);
    }
  }

  lemma ControllerKeepsSafe(c: Channel, step: Step)
    requires Safe(c) && Enabled(c, step) && !ByAgent(step)
    ensures Safe(Apply(c, step))
  {
    if step.WriteSome? {
      OverwriteKeepsPrefix(c.copy, c.log, c.inbox.hand[0], step.count);
    } else if step.WriteAll? {
      var k := c.inbox.hand[0];
      assert k.data[..|k.data|] == k.data;
      OverwriteKeepsPrefix(c.copy, c.log, k, |k.data|);
    }
  }

  lemma StepKeepsSafe(c: Channel, step: Step)
    requires Safe(c) && Enabled(c, step)
    ensures Safe(Apply(c, step))
  {
    hide Safe, Enabled, Apply;
    if ByAgent(step) { AgentKeepsSafe(c, step); } else { ControllerKeepsSafe(c, step); }
  }

  lemma {:induction false} RunKeepsSafe(c: Channel, run: seq<Step>)
    requires Safe(c) && Legal(c, run)
    ensures Safe(Exec(c, run))
    decreases run
  {
    if run != [] {
      StepKeepsSafe(c, run[0]);
      RunKeepsSafe(Apply(c, run[0]), run[1..]);
    }
  }

  /**
   * Prefix safety. After any run whatever -- crashes between any two writes, lost, empty or torn
   * markers, chunks republished with other lengths, half-written copies, abandoned passes --
   * the controller's file is a prefix of the agent's file at least `next` long.
   */
  lemma PrefixSafety(run: seq<Step>)
    requires Legal(FRESH, run)
    ensures var c := Exec(FRESH, run); c.copy <= c.log && c.next <= |c.copy|
  {
    RunKeepsSafe(FRESH, run);
  }

  /** The file only grows and the recorded offset never goes back, along every run. */
  lemma {:induction false} RunIsMonotone(c: Channel, run: seq<Step>)
    requires Legal(c, run)
    ensures c.log <= Exec(c, run).log
    ensures c.next <= Exec(c, run).next
    ensures c.sent <= Exec(c, run).sent
    decreases run
  {
    if run != [] { RunIsMonotone(Apply(c, run[0]), run[1..]); }
  }

  lemma {:induction false} LegalConcat(c: Channel, r1: seq<Step>, r2: seq<Step>)
    requires Legal(c, r1) && Legal(Exec(c, r1), r2)
    ensures Legal(c, r1 + r2) && Exec(c, r1 + r2) == Exec(Exec(c, r1), r2)
    decreases r1
  {
    if r1 == [] {
      assert r1 + r2 == r2;
    } else {
      assert (r1 + r2)[1..] == r1[1..] + r2;
      LegalConcat(Apply(c, r1[0]), r1[1..], r2);
    }
  }
}
