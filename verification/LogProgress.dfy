/**
 * What the log pipeline achieves while nothing fails: enough calls of the shipper ship a whole
 * file, and one refresh stores exactly what the queue leads to -- unless a chunk of another
 * source, in front of it in the listing, cannot be ingested.
 */
module LogProgress {
  import opened Base
  import opened LogKeys
  import opened LogPipeline
  import opened LogDelivery
  import opened LogLoss
  import opened LogEnds

  // ---- Shipping a whole file ----

  /** `calls` calls of the shipper over one listing, without failures. */
  function Calls(w: World, names: seq<string>, limit: nat, calls: nat): World {
    if calls == 0 then w
    else ShipAll(Calls(w, names, limit, calls - 1), names, limit, seq(|names|, _ => Fine)).0
  }

  /** The chunk at `o` holds byte `b` of the file in its place. */
  predicate Carries(bucket: map<(string, nat), seq<Byte>>, name: string, file: seq<Byte>, o: nat, b: nat) {
    && (name, o) in bucket && o <= b < o + |bucket[(name, o)]|
    && b < |file| && bucket[(name, o)][b - o] == file[b]
  }

  /** Some chunk that starts below `end` holds the byte in its place. */
  ghost predicate Stored(bucket: map<(string, nat), seq<Byte>>, name: string, file: seq<Byte>, end: nat, b: nat) {
    exists o: nat :: o < end && Carries(bucket, name, file, o, b)
  }

  /** Calls of the shipper have brought a file from `start` to `end`, and every byte between into the bucket. */
  ghost predicate Advanced(w: World, w': World, name: string, start: nat, end: nat) {
    && w'.files == w.files && name in w.files && start <= end <= |w.files[name]|
    && CursorOf(w', name) == end
    && (forall b: nat | start <= b < end :: Stored(w'.bucket, name, w.files[name], end, b))
  }

  lemma OneCallAdvances(w: World, w1: World, w2: World, names: seq<string>, limit: nat, name: string, start: nat, end: nat)
    requires (forall i, j | 0 <= i < j < |names| :: names[i] != names[j]) && name in names && SafeSource(name)
    requires Advanced(w, w1, name, start, end) && w2 == ShipAll(w1, names, limit, seq(|names|, _ => Fine)).0
    ensures Advanced(w, w2, name, start, if |w.files[name]| - end <= limit then |w.files[name]| else end + limit)
  {
    hide SafeSource, ShipAll;
    ShipAllAdvances(w1, names, limit, seq(|names|, _ => Fine), name);
    var file, end' := w.files[name], if |w.files[name]| - end <= limit then |w.files[name]| else end + limit;
    forall b: nat | start <= b < end' ensures Stored(w2.bucket, name, file, end', b) {
      if b < end {
        assert Stored(w1.bucket, name, file, end, b);
        var o: nat :| o < end && Carries(w1.bucket, name, file, o, b);
        assert Carries(w2.bucket, name, file, o, b);
      } else {
        assert Carries(w2.bucket, name, file, end, b);
      }
    }
  }

  /**
   * Enough calls ship everything: after any number of them the cursor has advanced by so many
   * chunks, up to the end of the file, and every byte it has passed is in the bucket.
   */
  lemma {:induction false} CallsShipAll(w: World, names: seq<string>, limit: nat, name: string, calls: nat)
    requires (forall i, j | 0 <= i < j < |names| :: names[i] != names[j]) && name in names && SafeSource(name)
    requires name in w.files && CursorOf(w, name) <= |w.files[name]|
    ensures var o, size := CursorOf(w, name), |w.files[name]|;
      var end := if size - o <= calls * limit then size else o + calls * limit;
      && CursorOf(Calls(w, names, limit, calls), name) == end
      && Calls(w, names, limit, calls).files == w.files
      && forall b: nat | o <= b < end :: Stored(Calls(w, names, limit, calls).bucket, name, w.files[name], end, b)
    ensures var end := CursorOf(Calls(w, names, limit, calls), name);
      end <= |w.files[name]| && Advanced(w, Calls(w, names, limit, calls), name, CursorOf(w, name), end)
    decreases calls
  {
    hide SafeSource, CursorOf, ShipAll;
    var o := CursorOf(w, name);
    if calls > 0 {
      CallsShipAll(w, names, limit, name, calls - 1);
      var w1 := Calls(w, names, limit, calls - 1);
      OneCallAdvances(w, w1, Calls(w, names, limit, calls), names, limit, name, o, CursorOf(w1, name));
      assert calls * limit == (calls - 1) * limit + limit;
    }
  }

  // ---- Storing what is queued ----

  /** Every ingest and every delete of a refresh succeeds as far as it goes. */
  predicate NothingFails(fates: seq<IngestFate>, acks: seq<AckFate>) {
    (forall fate | fate in fates :: fate.Completes?) && (forall ack | ack in acks :: ack.AckOk?)
  }

  /** No chunk ends where a signed 64-bit column cannot hold it. */
  predicate InRange(pending: seq<LogChunk>) {
    forall k | k in pending && k.data.Some? :: k.offset + |k.data.value| < I64_LIMIT
  }

  /** One source's chunks are taken in order without a gap, starting from a recorded offset. */
  predicate Smooth(chunks: seq<Chunk>, next: nat) {
    chunks == [] ||
    (chunks[0].offset <= next && Smooth(chunks[1..], if chunks[0].offset == next then chunks[0].End() else next))
  }

  /** Every chunk passes the checks, and no source but perhaps `own` has a gap. */
  ghost predicate Clear(s: Store, pending: seq<LogChunk>, own: Option<Slot>) {
    && (forall k | k in pending :: Screen(k).None?)
    && (forall slot: Slot | own != Some(slot) :: Smooth(Project(pending, slot), NextOffset(s.offsets, slot)))
  }

  /** What one ingest does to the recorded offsets. */
  lemma IngestNext(s: Store, chunk: LogChunk, slot: Slot)
    requires chunk.data.Some? ==> chunk.offset + |chunk.data.value| < I64_LIMIT
    ensures var (s', r) := IngestInto(s, chunk, Completes);
      && (r.Ok? <==> Screen(chunk).None? && chunk.offset <= NextOffset(s.offsets, SlotOf(chunk)))
      && NextOffset(s'.offsets, slot) ==
           if r.Ok? && Mine(chunk, slot) && chunk.offset == NextOffset(s.offsets, slot)
           then chunk.offset + |chunk.data.value| else NextOffset(s.offsets, slot)
  {
  }

  lemma GoodHead(pending: seq<LogChunk>, fates: seq<IngestFate>, acks: seq<AckFate>)
    requires pending != [] && |pending| == |fates| == |acks| && NothingFails(fates, acks) && InRange(pending)
    ensures fates[0].Completes? && acks[0].AckOk? && NothingFails(fates[1..], acks[1..]) && InRange(pending[1..])
    ensures pending[0].data.Some? ==> pending[0].offset + |pending[0].data.value| < I64_LIMIT
  {
    assert fates[0] in fates && acks[0] in acks && pending[0] in pending;
    assert forall k | k in pending[1..] :: k in pending;
  }

  lemma ClearHead(s: Store, pending: seq<LogChunk>)
    requires pending != [] && InRange(pending)
    ensures var (s', r) := IngestInto(s, pending[0], Completes);
      if r.Ok? then (Clear(s, pending, None) <==> Clear(s', pending[1..], None)) else !Clear(s, pending, None)
  {
    hide NextOffset, IngestInto, Screen;
    var h, tail := pending[0], pending[1..];
    var (s', r) := IngestInto(s, h, Completes);
    assert h in pending && pending == [h] + tail;
    if r.Ok? {
      forall slot: Slot ensures Smooth(Project(pending, slot), NextOffset(s.offsets, slot))
                           <==> Smooth(Project(tail, slot), NextOffset(s'.offsets, slot)) {
        IngestNext(s, h, slot);
        ProjectHead(s, pending, slot, r.Ok?);
      }
      IngestNext(s, h, SlotOf(h));
    } else {
      IngestNext(s, h, SlotOf(h));
      ScreenedHasData(h);
      if Screen(h).None? { assert !Smooth(Project(pending, SlotOf(h)), NextOffset(s.offsets, SlotOf(h))); }
    }
  }

  lemma ScreenedHasData(chunk: LogChunk)
    ensures Screen(chunk).None? ==> chunk.data.Some?
  {
  }

  lemma ProjectHead(s: Store, pending: seq<LogChunk>, slot: Slot, ok: bool)
    requires pending != [] && (ok ==> pending[0].offset <= NextOffset(s.offsets, SlotOf(pending[0])))
    ensures ok ==>
      var h, next := pending[0], NextOffset(s.offsets, slot);
      Smooth(Project(pending, slot), next) <==>
        Smooth(Project(pending[1..], slot),
               if Mine(h, slot) && h.offset == next then h.offset + |h.data.value| else next)
  {
    if Mine(pending[0], slot) {
      assert Project(pending, slot)[1..] == Project(pending[1..], slot);
    }
  }

  /** How far a pass gets in which nothing fails: exactly past every prefix of the listing that is clear. */
  lemma {:induction false} PassHandlesIff(s: Store, pending: seq<LogChunk>, fates: seq<IngestFate>, acks: seq<AckFate>, m: nat)
    requires |pending| == |fates| == |acks| && NothingFails(fates, acks) && InRange(pending) && m <= |pending|
    ensures forall i | 0 <= i < |pending| :: FateFits(pending[i], fates[i])
    ensures IngestPass(s, pending, fates, acks).1 >= m <==> Clear(s, pending[..m], None)
    decreases pending
  {
    hide IngestInto, Clear, NothingFails, InRange;
    FatesFit(pending, fates, acks);
    if m == 0 {
      NothingIsClear(s);
      assert pending[..0] == [];
    } else {
      GoodHead(pending, fates, acks);
      RangeOfPrefix(pending, m);
      ClearHead(s, pending[..m]);
      var (s', r) := IngestInto(s, pending[0], Completes);
      assert pending[..m][0] == pending[0] && pending[..m][1..] == pending[1..][..m - 1];
      if r.Ok? { PassHandlesIff(s', pending[1..], fates[1..], acks[1..], m - 1); }
    }
  }

  lemma FatesFit(pending: seq<LogChunk>, fates: seq<IngestFate>, acks: seq<AckFate>)
    requires |pending| == |fates| && NothingFails(fates, acks)
    ensures forall i | 0 <= i < |pending| :: FateFits(pending[i], fates[i])
  {
    forall i | 0 <= i < |pending| ensures FateFits(pending[i], fates[i]) { assert fates[i] in fates; }
  }

  lemma RangeOfPrefix(pending: seq<LogChunk>, m: nat)
    requires InRange(pending) && m <= |pending|
    ensures InRange(pending[..m])
  {
    assert forall k | k in pending[..m] :: k in pending;
  }

  lemma NothingIsClear(s: Store)
    ensures Clear(s, [], None)
  {
  }

  // -- one source in the pass --

  /** One source's chunks in a listing are chunks of a queue. */
  ghost predicate FromQueue(pending: seq<LogChunk>, slot: Slot, q: Queue) {
    forall k | k in pending && Mine(k, slot) :: k.offset in q && q[k.offset] == k.data.value && k.data.value != []
  }

  lemma TailFromQueue(pending: seq<LogChunk>, slot: Slot, q: Queue)
    requires FromQueue(pending, slot, q) && pending != []
    ensures FromQueue(pending[1..], slot, q)
    ensures Mine(pending[0], slot) ==>
      pending[0].offset in q && q[pending[0].offset] == pending[0].data.value && pending[0].data.value != []
  {
    assert pending[0] in pending && forall k | k in pending[1..] :: k in pending;
  }

  /** The recorded offset stays at a joint of the chain, never goes back, and passes every chunk that is handled. */
  lemma {:induction false} PassFollowsChain(s: Store, pending: seq<LogChunk>, fates: seq<IngestFate>, acks: seq<AckFate>,
                                            slot: Slot, q: Queue, from: nat)
    requires |pending| == |fates| == |acks| && NothingFails(fates, acks) && InRange(pending)
    requires FromQueue(pending, slot, q) && OnChain(q, from, NextOffset(s.offsets, slot))
    ensures forall i | 0 <= i < |pending| :: FateFits(pending[i], fates[i])
    ensures var (s', n) := IngestPass(s, pending, fates, acks);
      && OnChain(q, from, NextOffset(s'.offsets, slot)) && n <= |pending|
      && NextOffset(s.offsets, slot) <= NextOffset(s'.offsets, slot)
      && (forall i | 0 <= i < n && Mine(pending[i], slot) :: pending[i].offset < NextOffset(s'.offsets, slot))
    decreases pending
  {
    hide IngestInto, NothingFails, InRange, FromQueue, NextOffset, OnChain;
    FatesFit(pending, fates, acks);
    if pending != [] {
      GoodHead(pending, fates, acks);
      TailFromQueue(pending, slot, q);
      var (s1, r) := IngestInto(s, pending[0], Completes);
      IngestNext(s, pending[0], slot);
      if Mine(pending[0], slot) && pending[0].offset == NextOffset(s.offsets, slot) { OnChainNext(q, from, pending[0].offset); }
      if r.Ok? {
        PassFollowsChain(s1, pending[1..], fates[1..], acks[1..], slot, q, from);
        var (s', n) := IngestPass(s1, pending[1..], fates[1..], acks[1..]);
        assert IngestPass(s, pending, fates, acks) == (s', n + 1);
        forall i | 0 <= i < n + 1 && Mine(pending[i], slot) ensures pending[i].offset < NextOffset(s'.offsets, slot) {
          if i > 0 { assert pending[1..][i - 1] == pending[i]; }
        }
      }
    }
  }

  /** The recorded offset does not get past a joint whose chunk is not handled. */
  lemma {:induction false} PassStopsAt(s: Store, pending: seq<LogChunk>, fates: seq<IngestFate>, acks: seq<AckFate>,
                                       slot: Slot, q: Queue, from: nat, o: nat)
    requires |pending| == |fates| == |acks| && NothingFails(fates, acks) && InRange(pending)
    requires FromQueue(pending, slot, q) && OnChain(q, from, NextOffset(s.offsets, slot))
    requires OnChain(q, from, o) && NextOffset(s.offsets, slot) <= o
    requires forall i | 0 <= i < |pending| :: FateFits(pending[i], fates[i])
    requires forall i | 0 <= i < IngestPass(s, pending, fates, acks).1 <= |pending| && Mine(pending[i], slot) :: pending[i].offset != o
    requires IngestPass(s, pending, fates, acks).1 <= |pending|
    ensures NextOffset(IngestPass(s, pending, fates, acks).0.offsets, slot) <= o
    decreases pending
  {
    hide IngestInto, NothingFails, InRange, FromQueue, NextOffset, OnChain;
    if pending != [] {
      GoodHead(pending, fates, acks);
      TailFromQueue(pending, slot, q);
      var (s1, r) := IngestInto(s, pending[0], Completes);
      IngestNext(s, pending[0], slot);
      if r.Ok? {
        var (s', n) := IngestPass(s1, pending[1..], fates[1..], acks[1..]);
        assert IngestPass(s, pending, fates, acks) == (s', n + 1);
        if Mine(pending[0], slot) && pending[0].offset == NextOffset(s.offsets, slot) {
          OnChainNext(q, from, pending[0].offset);
          NoJointInside(q, from, pending[0].offset, o);
        }
        forall i | 0 <= i < n && Mine(pending[1..][i], slot) ensures pending[1..][i].offset != o {
          assert pending[1..][i] == pending[i + 1];
        }
        PassStopsAt(s1, pending[1..], fates[1..], acks[1..], slot, q, from, o);
      }
    }
  }

  lemma {:induction false} OnChainNext(q: Queue, from: nat, o: nat)
    requires OnChain(q, from, o) && o in q && q[o] != []
    ensures OnChain(q, from, o + |q[o]|)
    decreases if from <= o then o - from + 1 else 0
  {
    OnChainIsAbove(q, from, o);
    if o == from {
      ChainStep(q, from, o + |q[o]|);
    } else {
      ChainStep(q, from, o);
      ChainStep(q, from, o + |q[o]|);
      OnChainNext(q, from + |q[from]|, o);
    }
  }

  lemma {:induction false} NoJointInside(q: Queue, from: nat, a: nat, b: nat)
    requires OnChain(q, from, a) && OnChain(q, from, b) && a < b
    ensures a in q && q[a] != [] && a + |q[a]| <= b
    decreases if from <= a then a - from + 1 else 0
  {
    OnChainIsAbove(q, from, a);
    ChainStep(q, from, b);
    if a == from {
      OnChainIsAbove(q, from + |q[from]|, b);
    } else {
      ChainStep(q, from, a);
      NoJointInside(q, from + |q[from]|, a, b);
    }
  }

  lemma {:induction false} ChainFromJoint(q: Queue, from: nat, o: nat)
    requires OnChain(q, from, o)
    ensures Chain(q, from) == Chain(q, o)
    decreases if from <= o then o - from + 1 else 0
  {
    OnChainIsAbove(q, from, o);
    if o != from {
      ChainStep(q, from, o);
      ChainFromJoint(q, from + |q[from]|, o);
    }
  }

  ghost predicate Has(chunks: seq<Chunk>, offset: nat) {
    exists k :: k in chunks && k.offset == offset
  }

  lemma HasInTail(chunks: seq<Chunk>, offset: nat)
    requires Has(chunks, offset) && chunks != [] && chunks[0].offset != offset
    ensures Has(chunks[1..], offset)
  {
    var k :| k in chunks && k.offset == offset;
    assert chunks == [chunks[0]] + chunks[1..];
  }

  lemma HeadIsFirst(chunks: seq<Chunk>, offset: nat)
    requires Increasing(OffsetsOf(chunks)) && Has(chunks, offset)
    ensures chunks != [] && chunks[0].offset <= offset
  {
    var k :| k in chunks && k.offset == offset;
    var i :| 0 <= i < |chunks| && chunks[i] == k;
    assert i > 0 ==> OffsetsOf(chunks)[0] < OffsetsOf(chunks)[i];
  }

  /** A source has no gap of its own in front of a chunk of its chain: nothing before that chunk is missing. */
  lemma {:induction false} OwnIsSmooth(chunks: seq<Chunk>, q: Queue, from: nat, next: nat, o: nat)
    requires Increasing(OffsetsOf(chunks)) && OnChain(q, from, next) && OnChain(q, from, o) && o in q
    requires forall k | k in chunks :: k.offset <= o && k.offset in q && q[k.offset] == k.data && k.data != []
    requires forall key | key in q && next <= key <= o :: Has(chunks, key)
    ensures Smooth(chunks, next)
    decreases chunks
  {
    hide OnChain, Has, Increasing;
    if chunks != [] {
      var h, tail := chunks[0], chunks[1..];
      assert h in chunks && (forall k | k in tail :: k in chunks);
      if next < o { NoJointInside(q, from, next, o); }
      if next <= o { HeadIsFirst(chunks, next); }
      if h.offset == next { OnChainNext(q, from, next); }
      var next' := if h.offset == next then h.End() else next;
      forall key | key in q && next' <= key <= o ensures Has(tail, key) {
        HasInTail(chunks, key);
      }
      TailIncreases(chunks);
      OwnIsSmooth(tail, q, from, next', o);
    }
  }

  lemma TailIncreases(chunks: seq<Chunk>)
    requires Increasing(OffsetsOf(chunks)) && chunks != []
    ensures Increasing(OffsetsOf(chunks[1..]))
  {
    var s := OffsetsOf(chunks);
    assert OffsetsOf(chunks[1..]) == s[1..];
  }

  /** A listing as one source sees it: its whole queue, by offset, with no empty chunk. */
  ghost predicate ListsQueue(pending: seq<LogChunk>, slot: Slot, q: Queue) {
    QueueOf(pending, slot, q) && forall o | o in q :: q[o] != []
  }

  lemma ListedFromQueue(pending: seq<LogChunk>, slot: Slot, q: Queue)
    requires ListsQueue(pending, slot, q)
    ensures FromQueue(pending, slot, q)
  {
    forall k | k in pending && Mine(k, slot) ensures k.offset in q && q[k.offset] == k.data.value {
      var i :| 0 <= i < |pending| && pending[i] == k;
    }
  }

  /** A source's own chunks, up to one of its chain, are smooth. */
  lemma OwnPrefixIsSmooth(pending: seq<LogChunk>, slot: Slot, q: Queue, next: nat, i: nat)
    requires ListsQueue(pending, slot, q) && i < |pending| && Mine(pending[i], slot) && OnChain(q, next, pending[i].offset)
    ensures Smooth(Project(pending[..i + 1], slot), next)
  {
    hide OnChain, Smooth, Project, Increasing;
    var p, o := pending[..i + 1], pending[i].offset;
    var mine := Project(p, slot);
    assert forall a | 0 <= a < |p| :: p[a] == pending[a];
    ProjectIncreases(p, slot);
    assert pending[i] in pending;
    forall k | k in mine ensures k.offset <= o && k.offset in q && q[k.offset] == k.data && k.data != [] {
      ProjectMember(p, slot, k);
      var a :| 0 <= a < |p| && Mine(p[a], slot) && ChunkOf(p[a]) == k;
      assert pending[a] in pending;
    }
    forall key | key in q && next <= key <= o ensures Has(mine, key) {
      var a :| 0 <= a < |pending| && Mine(pending[a], slot) && pending[a].offset == key;
      assert p[a] == pending[a];
      ProjectMember(p, slot, ChunkOf(p[a]));
    }
    JointAtStart(q, next);
    OwnIsSmooth(mine, q, next, next, o);
  }

  lemma JointAtStart(q: Queue, from: nat)
    ensures OnChain(q, from, from)
  {
  }

  /** For a source's own chain, only the other sources and the checks can be in the way. */
  lemma ClearButOwn(s: Store, pending: seq<LogChunk>, slot: Slot, q: Queue, i: nat)
    requires ListsQueue(pending, slot, q) && i < |pending| && Mine(pending[i], slot)
    requires OnChain(q, NextOffset(s.offsets, slot), pending[i].offset)
    ensures Clear(s, pending[..i + 1], None) <==> Clear(s, pending[..i + 1], Some(slot))
  {
    hide OnChain, Smooth, Project, ListsQueue;
    OwnPrefixIsSmooth(pending, slot, q, NextOffset(s.offsets, slot), i);
  }

  /** What the pass reaches for one source is the end of its chain exactly when it handles the chain's chunks. */
  lemma PassReachesIff(s: Store, pending: seq<LogChunk>, fates: seq<IngestFate>, acks: seq<AckFate>, slot: Slot, q: Queue)
    requires |pending| == |fates| == |acks| && NothingFails(fates, acks) && InRange(pending) && ListsQueue(pending, slot, q)
    ensures forall i | 0 <= i < |pending| :: FateFits(pending[i], fates[i])
    ensures var (s', n) := IngestPass(s, pending, fates, acks);
      var next := NextOffset(s.offsets, slot);
      NextOffset(s'.offsets, slot) == Chain(q, next)
      <==> forall i | 0 <= i < |pending| && Mine(pending[i], slot) && OnChain(q, next, pending[i].offset) :: i < n
  {
    hide IngestPass, NothingFails, InRange, FateFits, NextOffset, OnChain, Chain;
    var next := NextOffset(s.offsets, slot);
    JointAtStart(q, next);
    ListedFromQueue(pending, slot, q);
    PassFollowsChain(s, pending, fates, acks, slot, q, next);
    var (s', n) := IngestPass(s, pending, fates, acks);
    var end := NextOffset(s'.offsets, slot);
    ChainFromJoint(q, next, end);
    if forall i | 0 <= i < |pending| && Mine(pending[i], slot) && OnChain(q, next, pending[i].offset) :: i < n {
      assert end !in q;
      ChainEnds(q, end);
    } else {
      var i :| 0 <= i < |pending| && Mine(pending[i], slot) && OnChain(q, next, pending[i].offset) && i >= n;
      var o := pending[i].offset;
      assert pending[i] in pending;
      OnChainIsAbove(q, next, o);
      PassStopsAt(s, pending, fates, acks, slot, q, next, o);
      ChainFromJoint(q, next, o);
      ChainStep(q, o, o);
    }
  }

  lemma ChainEnds(q: Queue, o: nat)
    requires o !in q
    ensures Chain(q, o) == o
  {
  }

  /** The chunks of a source's chain are all behind clear prefixes of the listing. */
  ghost predicate ChainIsClear(s: Store, pending: seq<LogChunk>, slot: Slot, q: Queue) {
    forall i | 0 <= i < |pending| && Mine(pending[i], slot) && OnChain(q, NextOffset(s.offsets, slot), pending[i].offset) ::
      Clear(s, pending[..i + 1], Some(slot))
  }

  lemma PassReachesWhenClear(s: Store, pending: seq<LogChunk>, fates: seq<IngestFate>, acks: seq<AckFate>, slot: Slot, q: Queue)
    requires |pending| == |fates| == |acks| && NothingFails(fates, acks) && InRange(pending) && ListsQueue(pending, slot, q)
    ensures forall i | 0 <= i < |pending| :: FateFits(pending[i], fates[i])
    ensures NextOffset(IngestPass(s, pending, fates, acks).0.offsets, slot) == Chain(q, NextOffset(s.offsets, slot))
       <==> ChainIsClear(s, pending, slot, q)
  {
    hide IngestPass, NothingFails, InRange, NextOffset, OnChain, Chain, Clear, ListsQueue, FateFits;
    PassReachesIff(s, pending, fates, acks, slot, q);
    forall i | 0 <= i < |pending| && Mine(pending[i], slot) && OnChain(q, NextOffset(s.offsets, slot), pending[i].offset)
      ensures i < IngestPass(s, pending, fates, acks).1 <==> Clear(s, pending[..i + 1], Some(slot))
    {
      PassHandlesIff(s, pending, fates, acks, i + 1);
      ClearButOwn(s, pending, slot, q, i);
    }
  }

  /**
   * What one refresh stores. When nothing fails, a source's recorded offset afterwards is exactly
   * its horizon if and only if, up to each chunk of its chain in the listing, every chunk passes
   * the checks and no other source has a gap.
   */
  lemma RefreshReachesHorizonIff(s: Store, objects: map<string, LogChunk>, root: string, keys: seq<string>,
                                 fates: seq<IngestFate>, acks: seq<AckFate>, slot: Slot, c: Channel)
    requires WellKeyed(objects, root) && Exposes(objects, slot, c.bucket)
    requires Sorted(keys) && forall key :: key in keys <==> key in objects
    requires |PendingChunks(objects, keys)| == |fates| == |acks| && NothingFails(fates, acks)
    requires InRange(PendingChunks(objects, keys)) && Safe(c) && Holds(s, slot, c)
    ensures forall i | 0 <= i < |fates| :: FateFits(PendingChunks(objects, keys)[i], fates[i])
    ensures NextOffset(IngestPass(s, PendingChunks(objects, keys), fates, acks).0.offsets, slot) == Horizon(c)
       <==> ChainIsClear(s, PendingChunks(objects, keys), slot, c.bucket)
  {
    hide IngestPass, NothingFails, InRange, NextOffset, Chain, ChainIsClear, PendingChunks, WellKeyed, Exposes, Sorted,
         QueueOf, Safe, FateFits;
    PendingIsQueue(objects, root, keys, slot, c.bucket);
    ChunksAreNotEmpty(c);
    PassReachesWhenClear(s, PendingChunks(objects, keys), fates, acks, slot, c.bucket);
  }

  lemma ChunksAreNotEmpty(c: Channel)
    requires Safe(c)
    ensures forall o | o in c.bucket :: c.bucket[o] != []
  {
    forall o | o in c.bucket ensures c.bucket[o] != [] { assert SliceOf(Chunk(o, c.bucket[o]), c.log); }
  }

  /** So a source alone in its agent's listing, or among sources without a gap, is stored up to its horizon. */
  lemma ClearRefreshReachesHorizon(s: Store, objects: map<string, LogChunk>, root: string, keys: seq<string>,
                                   fates: seq<IngestFate>, acks: seq<AckFate>, slot: Slot, c: Channel)
    requires WellKeyed(objects, root) && Exposes(objects, slot, c.bucket)
    requires Sorted(keys) && forall key :: key in keys <==> key in objects
    requires |PendingChunks(objects, keys)| == |fates| == |acks| && NothingFails(fates, acks)
    requires InRange(PendingChunks(objects, keys)) && Safe(c) && Holds(s, slot, c)
    requires Clear(s, PendingChunks(objects, keys), Some(slot))
    ensures forall i | 0 <= i < |fates| :: FateFits(PendingChunks(objects, keys)[i], fates[i])
    ensures NextOffset(IngestPass(s, PendingChunks(objects, keys), fates, acks).0.offsets, slot) == Horizon(c)
  {
    hide IngestPass, NothingFails, InRange, NextOffset, OnChain, Chain, Clear, PendingChunks, WellKeyed, Exposes, Sorted, Safe;
    var pending := PendingChunks(objects, keys);
    RefreshReachesHorizonIff(s, objects, root, keys, fates, acks, slot, c);
    forall i | 0 <= i < |pending| && Mine(pending[i], slot) ensures Clear(s, pending[..i + 1], Some(slot)) {
      ClearPrefix(s, pending, slot, i + 1);
    }
  }

  lemma ClearPrefix(s: Store, pending: seq<LogChunk>, slot: Slot, m: nat)
    requires Clear(s, pending, Some(slot)) && m <= |pending|
    ensures Clear(s, pending[..m], Some(slot))
  {
    hide NextOffset;
    assert forall k | k in pending[..m] :: k in pending;
    forall other: Slot | other != slot ensures Smooth(Project(pending[..m], other), NextOffset(s.offsets, other)) {
      SmoothPrefix(pending, other, m, NextOffset(s.offsets, other));
    }
  }

  lemma {:induction false} SmoothPrefix(pending: seq<LogChunk>, slot: Slot, m: nat, next: nat)
    requires Smooth(Project(pending, slot), next) && m <= |pending|
    ensures Smooth(Project(pending[..m], slot), next)
    decreases pending
  {
    if m == 0 {
      assert pending[..0] == [];
    } else {
      assert pending[..m][1..] == pending[1..][..m - 1] && pending[..m][0] == pending[0];
      if Mine(pending[0], slot) {
        var k := ChunkOf(pending[0]);
        assert Project(pending, slot)[1..] == Project(pending[1..], slot);
        assert Project(pending[..m], slot)[1..] == Project(pending[1..][..m - 1], slot);
        SmoothPrefix(pending[1..], slot, m - 1, if k.offset == next then k.End() else next);
      } else {
        SmoothPrefix(pending[1..], slot, m - 1, next);
      }
    }
  }

  /**
   * The condition is needed: a gap ends the refresh. Whatever other sources have queued behind it
   * in the listing, nothing of theirs is stored or deleted, in this pass or any other while it lasts.
   */
  lemma GapHoldsUpOthers(s: Store, pending: seq<LogChunk>, fates: seq<IngestFate>, acks: seq<AckFate>)
    requires pending != [] && |pending| == |fates| == |acks| && NothingFails(fates, acks)
    requires Screen(pending[0]).None? && pending[0].offset > NextOffset(s.offsets, SlotOf(pending[0]))
    ensures forall i | 0 <= i < |pending| :: FateFits(pending[i], fates[i])
    ensures IngestPass(s, pending, fates, acks) == (s, 0)
  {
    FatesFit(pending, fates, acks);
    assert fates[0] in fates;
  }
}
