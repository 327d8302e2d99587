/** The two ends of the log pipeline as the program runs them: the shipper and the log store. */
module LogEnds {
  import opened Base
  import opened LogKeys
  import opened LogPipeline
  import opened LogDelivery
  import opened LogLoss

  // ---- The agent's shipper ----

  /** What becomes of one file during a call of the shipper. */
  datatype ShipFate = Fine | ReadFails | PutFails | PutFailsButLands | MarkerFails

  /** Everything one call reads and writes: files, their markers, the offset table, the bucket. */
  datatype World = World(
    files: map<string, seq<Byte>>, markers: map<string, Marker>, offsets: map<string, nat>,
    bucket: map<(string, nat), seq<Byte>>)

  function MarkerOf(w: World, name: string): Marker {
    if name in w.markers then w.markers[name] else Missing
  }

  function CursorOf(w: World, name: string): nat {
    if name in w.offsets then w.offsets[name] else ReadMarker(MarkerOf(w, name))
  }

  /** Whether this call has anything to do for a directory entry. */
  predicate Pending(w: World, name: string) {
    SafeSource(name) && name in w.files && CursorOf(w, name) < |w.files[name]|
  }

  /** The effect of one file's turn, and whether the call goes on. */
  function ShipFile(w: World, name: string, limit: nat, fate: ShipFate): (World, bool)
    requires Pending(w, name)
  {
    var k := CutAt(w.files[name], CursorOf(w, name), limit);
    var put := w.(bucket := w.bucket[(name, k.offset) := k.data]);
    match fate
    case ReadFails => (w, false)
    case PutFails => (w, false)
    case PutFailsButLands => (put, false)
    case MarkerFails => (put.(markers := w.markers[name := Unreadable]), false)
    case Fine =>
      (put.(markers := w.markers[name := At(k.End())], offsets := w.offsets[name := k.End()]), true)
  }

  function ShipAll(w: World, names: seq<string>, limit: nat, fates: seq<ShipFate>): (World, bool)
    requires |names| == |fates|
    decreases names
  {
    if names == [] then (w, true)
    else if !Pending(w, names[0]) then ShipAll(w, names[1..], limit, fates[1..])
    else
      var (w', more) := ShipFile(w, names[0], limit, fates[0]);
      if more then ShipAll(w', names[1..], limit, fates[1..]) else (w', false)
  }

  /** Nothing about one file's shipping has changed. */
  ghost predicate Untouched(w: World, w': World, name: string) {
    && (name in w.offsets <==> name in w'.offsets) && (name in w.offsets ==> w'.offsets[name] == w.offsets[name])
    && (name in w.markers <==> name in w'.markers) && (name in w.markers ==> w'.markers[name] == w.markers[name])
    && (forall k: nat :: (name, k) in w.bucket <==> (name, k) in w'.bucket)
    && (forall k: nat | (name, k) in w.bucket :: w'.bucket[(name, k)] == w.bucket[(name, k)])
  }

  /** One file before and after a call without failures: one chunk further if it is listed and has more to ship. */
  ghost predicate ShipsOne(w: World, w': World, name: string, listed: bool, limit: nat) {
    w'.files == w.files &&
    if listed && SafeSource(name) && name in w.files && CursorOf(w, name) < |w.files[name]| then
      var o := CursorOf(w, name);
      var n: nat := if |w.files[name]| - o <= limit then |w.files[name]| - o else limit;
      && name in w'.offsets && w'.offsets[name] == o + n && name in w'.markers && w'.markers[name] == At(o + n)
      && (forall k: nat :: (name, k) in w'.bucket <==> k == o || (name, k) in w.bucket)
      && w'.bucket[(name, o)] == w.files[name][o..o + n]
      && (forall k: nat | k != o && (name, k) in w.bucket :: w'.bucket[(name, k)] == w.bucket[(name, k)])
    else Untouched(w, w', name)
  }

  lemma FineShipsOne(w: World, first: string, limit: nat, name: string)
    requires Pending(w, first)
    ensures ShipsOne(w, ShipFile(w, first, limit, Fine).0, name, name == first, limit)
    ensures ShipFile(w, first, limit, Fine).1
  {
  }

  lemma IdleShipsOne(w: World, first: string, limit: nat, name: string)
    requires !Pending(w, first)
    ensures ShipsOne(w, w, name, name == first, limit)
  {
  }

  /** Two stretches of a listing, of which at most one has the file. */
  lemma ShipsOneOrOther(w: World, w': World, w'': World, name: string, limit: nat, early: bool, late: bool)
    requires ShipsOne(w, w', name, early, limit) && ShipsOne(w', w'', name, late, limit) && !(early && late)
    ensures ShipsOne(w, w'', name, early || late, limit)
  {
    hide SafeSource, ReadMarker;
  }

  lemma {:induction false} ShipAllAdvances(w: World, names: seq<string>, limit: nat, fates: seq<ShipFate>, name: string)
    requires |names| == |fates| && (forall i, j | 0 <= i < j < |names| :: names[i] != names[j])
    requires forall fate | fate in fates :: fate.Fine?
    ensures ShipAll(w, names, limit, fates).1
    ensures ShipsOne(w, ShipAll(w, names, limit, fates).0, name, name in names, limit)
    decreases names
  {
    hide ShipsOne, Pending, ShipFile;
    if names == [] {
      NothingShips(w, name, limit);
    } else {
      var first := names[0];
      assert fates[0] in fates && forall fate | fate in fates[1..] :: fate in fates;
      assert first !in names[1..] && (name in names <==> name == first || name in names[1..]);
      var w1 := if Pending(w, first) then ShipFile(w, first, limit, Fine).0 else w;
      if Pending(w, first) { FineShipsOne(w, first, limit, name); } else { IdleShipsOne(w, first, limit, name); }
      ShipAllAdvances(w1, names[1..], limit, fates[1..], name);
      ShipsOneOrOther(w, w1, ShipAll(w1, names[1..], limit, fates[1..]).0, name, limit, name == first, name in names[1..]);
    }
  }

  /** The call without failures, in the fields of the shipper and its directory. */
  lemma CallAdvances(w: World, names: seq<string>, limit: nat, fates: seq<ShipFate>)
    requires |names| == |fates| && (forall i, j | 0 <= i < j < |names| :: names[i] != names[j])
    requires forall fate | fate in fates :: fate.Fine?
    ensures ShipAll(w, names, limit, fates).1
    ensures var w' := ShipAll(w, names, limit, fates).0;
      forall name | name in names && SafeSource(name) && name in w.files ::
        var o: nat := if name in w.offsets then w.offsets[name]
                      else if name in w.markers && w.markers[name].At? then w.markers[name].value else 0;
        o < |w.files[name]| ==>
        var n: nat := if |w.files[name]| - o <= limit then |w.files[name]| - o else limit;
        && (name, o) in w'.bucket && w'.bucket[(name, o)] == w.files[name][o..o + n]
        && name in w'.markers && w'.markers[name] == At(o + n) && name in w'.offsets && w'.offsets[name] == o + n
  {
    hide ShipAll, SafeSource;
    ShipAllAdvances(w, names, limit, fates, "");
    forall name ensures ShipsOne(w, ShipAll(w, names, limit, fates).0, name, name in names, limit) {
      ShipAllAdvances(w, names, limit, fates, name);
    }
  }

  lemma NothingShips(w: World, name: string, limit: nat)
    ensures ShipsOne(w, w, name, false, limit)
  {
  }

  class LogShipper {
    var offsets: map<string, nat>
    var files: map<string, seq<Byte>>
    var markers: map<string, Marker>
    var bucket: map<(string, nat), seq<Byte>>
    const chunkBytes: nat

    constructor (chunkBytes: nat)
      ensures this.chunkBytes == chunkBytes && View() == World(map[], map[], map[], map[])
    {
      this.chunkBytes := chunkBytes;
      offsets, files, markers, bucket := map[], map[], map[], map[];
    }

    function View(): World
      reads this
    {
      World(files, markers, offsets, bucket)
    }

    /** One file's turn: cut, put, rewrite the marker, remember the offset. */
    method ShipOne(name: string, fate: ShipFate) returns (ok: bool)
      requires Pending(View(), name)
      modifies this
      ensures (View(), ok) == ShipFile(old(View()), name, chunkBytes, fate)
      // What each ending leaves: the put comes before the marker, and the marker before the offset.
      ensures files == old(files) && ok == fate.Fine?
      ensures var o: nat := if name in old(offsets) then old(offsets)[name]
                            else if name in old(markers) && old(markers)[name].At? then old(markers)[name].value else 0;
        var n: nat := if |files[name]| - o <= chunkBytes then |files[name]| - o else chunkBytes;
        && bucket == (if fate.ReadFails? || fate.PutFails? then old(bucket)
                      else old(bucket)[(name, o) := files[name][o..o + n]])
        && markers == (if fate.Fine? then old(markers)[name := At(o + n)]
                       else if fate.MarkerFails? then old(markers)[name := Unreadable] else old(markers))
        && offsets == (if fate.Fine? then old(offsets)[name := o + n] else old(offsets))
    {
      hide SafeSource;
      var offset := if name in offsets then offsets[name]
                    else ReadMarker(if name in markers then markers[name] else Missing);
      var size := |files[name]|;
      if fate.ReadFails? { return false; }
      var readLen := if size - offset <= chunkBytes then size - offset else chunkBytes;
      var data := files[name][offset..offset + readLen];
      if fate.PutFails? { return false; }
      bucket := bucket[(name, offset) := data];
      if fate.PutFailsButLands? { return false; }
      markers := markers[name := Unreadable];
      if fate.MarkerFails? { return false; }
      markers := markers[name := At(offset + readLen)];
      offsets := offsets[name := offset + readLen];
      assert markers == old(markers)[name := At(offset + readLen)];
      ok := true;
    }

    /** One call of the shipper over a directory listing; the first failure ends it. */
    method ShipOnce(names: seq<string>, fates: seq<ShipFate>) returns (ok: bool)
      requires |names| == |fates|
      modifies this
      ensures (View(), ok) == ShipAll(old(View()), names, chunkBytes, fates)
      ensures files == old(files)
      // Without failures every listed source with something left to ship advances by one chunk.
      ensures (forall i, j | 0 <= i < j < |names| :: names[i] != names[j]) && (forall fate | fate in fates :: fate.Fine?) ==>
        ok
      ensures (forall i, j | 0 <= i < j < |names| :: names[i] != names[j]) && (forall fate | fate in fates :: fate.Fine?) ==>
        forall name | name in names && SafeSource(name) && name in files ::
          var o: nat := if name in old(offsets) then old(offsets)[name]
                        else if name in old(markers) && old(markers)[name].At? then old(markers)[name].value else 0;
          o < |files[name]| ==>
          var n: nat := if |files[name]| - o <= chunkBytes then |files[name]| - o else chunkBytes;
          && (name, o) in bucket && bucket[(name, o)] == files[name][o..o + n]
          && name in markers && markers[name] == At(o + n) && name in offsets && offsets[name] == o + n
    {
      hide ShipFile;
      ghost var was := View();
      if (forall i, j | 0 <= i < j < |names| :: names[i] != names[j]) && forall fate | fate in fates :: fate.Fine? {
        CallAdvances(was, names, chunkBytes, fates);
      }
      var i := 0;
      while i < |names|
        invariant i <= |names| && files == old(files)
        invariant ShipAll(old(View()), names, chunkBytes, fates)
               == ShipAll(View(), names[i..], chunkBytes, fates[i..])
      {
        var name := names[i];
        assert names[i..][0] == name && names[i..][1..] == names[i + 1..];
        assert fates[i..][0] == fates[i] && fates[i..][1..] == fates[i + 1..];
        i := i + 1;
        if !SafeSource(name) || name !in files { continue; }
        var offset := if name in offsets then offsets[name]
                      else ReadMarker(if name in markers then markers[name] else Missing);
        if |files[name]| <= offset { continue; }
        ShipKeepsFiles(View(), name, chunkBytes, fates[i - 1]);
        ok := ShipOne(name, fates[i - 1]);
        if !ok { return; }
      }
      ok := true;
    }
  }

  lemma ShipKeepsFiles(w: World, name: string, limit: nat, fate: ShipFate)
    requires Pending(w, name)
    ensures ShipFile(w, name, limit, fate).0.files == w.files
  {
  }

  /** One source's part of the bucket. */
  ghost predicate Mirrors(all: map<(string, nat), seq<Byte>>, name: string, bucket: map<nat, seq<Byte>>) {
    && (forall o: nat :: (name, o) in all <==> o in bucket)
    && (forall o | o in bucket :: all[(name, o)] == bucket[o])
  }

  lemma PutMirrors(all: map<(string, nat), seq<Byte>>, name: string, bucket: map<nat, seq<Byte>>, k: Chunk)
    requires Mirrors(all, name, bucket)
    ensures Mirrors(all[(name, k.offset) := k.data], name, bucket[k.offset := k.data])
  {
  }

  /** The agent's half of a channel is what the world holds for its source. */
  ghost predicate Shows(w: World, name: string, c: Channel) {
    && name in w.files && c.log == w.files[name] && !c.deleted
    && c.marker == MarkerOf(w, name)
    && c.cached == (if name in w.offsets then Some(w.offsets[name]) else None)
    && c.outbox.Resting?
    && Mirrors(w.bucket, name, c.bucket)
  }

  /** The controller's half of two channels agrees. */
  ghost predicate SameController(c: Channel, d: Channel) {
    c.copy == d.copy && c.next == d.next && c.inbox == d.inbox
  }

  lemma ShipFileIsRun(w: World, name: string, limit: nat, fate: ShipFate, c: Channel)
      returns (run: seq<Step>, d: Channel)
    requires Pending(w, name) && limit > 0 && Shows(w, name, c)
    ensures Reaches(c, run, d) && Shows(ShipFile(w, name, limit, fate).0, name, d) && SameController(c, d)
  {
    hide Reaches, Legal, Exec, Mirrors;
    Stay(c);
    PutMirrors(w.bucket, name, c.bucket, CutAt(c.log, Cursor(c), limit));
    var c1 := Apply(c, Cut(limit));
    var c2 := Apply(c1, Put);
    match fate
    case Fine =>
      run := ShipRun(c, limit);
      d := Shipped(c, limit);
    case MarkerFails =>
      var c3 := Apply(c2, TruncateMarker);
      run := Then(c, [], c, Cut(limit));
      run := Then(c, run, c1, Put);
      run := Then(c, run, c2, TruncateMarker);
      run := Then(c, run, c3, GiveUp);
      d := Apply(c3, GiveUp);
    case PutFailsButLands =>
      run := Then(c, [], c, Cut(limit));
      run := Then(c, run, c1, PutUnsure);
      d := Apply(c1, PutUnsure);
    case _ =>
      run, d := [], c;
  }

  lemma OtherFilesUntouched(w: World, name: string, other: string, limit: nat, fate: ShipFate, c: Channel)
    requires Pending(w, other) && other != name && Shows(w, name, c)
    ensures Shows(ShipFile(w, other, limit, fate).0, name, c)
  {
  }

  /**
   * The shipper refines the protocol: seen from any one source, a call over any listing with any
   * failures is a run of the channel that leaves the controller's half alone.
   */
  lemma {:induction false} ShipAllIsRun(w: World, names: seq<string>, limit: nat, fates: seq<ShipFate>,
                                        name: string, c: Channel)
      returns (run: seq<Step>, d: Channel)
    requires |names| == |fates| && limit > 0 && Shows(w, name, c)
    ensures Reaches(c, run, d) && SameController(c, d)
    ensures Shows(ShipAll(w, names, limit, fates).0, name, d)
    decreases names
  {
    run, d := [], c;
    if names != [] {
      if !Pending(w, names[0]) {
        run, d := ShipAllIsRun(w, names[1..], limit, fates[1..], name, c);
      } else {
        var (w', more) := ShipFile(w, names[0], limit, fates[0]);
        if names[0] == name {
          run, d := ShipFileIsRun(w, name, limit, fates[0], c);
        } else {
          OtherFilesUntouched(w, name, names[0], limit, fates[0], c);
        }
        if more {
          var rest, e := ShipAllIsRun(w', names[1..], limit, fates[1..], name, d);
          Join(c, run, d, rest, e);
          run, d := run + rest, e;
        }
      }
    }
  }

  // ---- The controller's log store ----

  type Slot = (string, string)  // agent id, source

  /** A decrypted chunk; `data` is None when its base64 does not decode. */
  datatype LogChunk = LogChunk(agentId: string, source: string, offset: U64, data: Option<seq<Byte>>)

  datatype IngestError = BadAgentId | UnsafeSource | BadData | GapError(expected: nat, got: nat) | WriteError | DatabaseError

  /** How far a failing ingest gets: no directory or database, part of the data, or all of it but no offset. */
  datatype IngestFate = Completes | Unavailable | WriteStops(count: nat) | RecordFails

  datatype AckFate = AckOk | AckFails | AckFailsButLands

  datatype Store = Store(files: map<Slot, seq<Byte>>, offsets: map<Slot, int>)

  const I64_LIMIT: nat := 0x8000_0000_0000_0000

  /** Rust's `as i64` on a u64. */
  function AsI64(n: U64): int {
    if n < I64_LIMIT then n else n - U64_LIMIT
  }

  function SaturatingAdd(a: U64, b: nat): U64 {
    if a + b < U64_LIMIT then a + b else U64_LIMIT - 1
  }

  /** `next_offset` as read back: an absent row or a negative value counts as zero. */
  function NextOffset(offsets: map<Slot, int>, slot: Slot): nat {
    if slot in offsets && offsets[slot] > 0 then offsets[slot] else 0
  }

  function FileAt(files: map<Slot, seq<Byte>>, slot: Slot): seq<Byte> {
    if slot in files then files[slot] else []
  }

  /** Seek and write; a seek past the end leaves a hole of zeros. */
  function WriteAt(file: seq<Byte>, offset: nat, data: seq<Byte>): seq<Byte> {
    if offset <= |file| then Overwrite(file, offset, data)
    else file + seq(offset - |file|, _ => 0) + data
  }

  predicate SourceChars(source: string) {
    source != [] && forall i | 0 <= i < |source| :: IsSourceChar(source[i])
  }

  /** Whether the chunk passes the checks made before the database is consulted. */
  function Screen(chunk: LogChunk): Option<IngestError> {
    if !ValidAgentId(chunk.agentId) then Some(BadAgentId)
    else if !SourceChars(chunk.source) then Some(UnsafeSource)
    else if chunk.data.None? then Some(BadData)
    else None
  }

  /** The checks in characters; they refuse nothing that a shipper with a valid name sends. */
  lemma ScreenPassesIff(chunk: LogChunk)
    ensures SourceChars(chunk.source) <==>
      && chunk.source != ""
      && forall c | c in chunk.source :: 'a' <= c <= 'z' || 'A' <= c <= 'Z' || '0' <= c <= '9' || c == '.' || c == '-' || c == '_'
    ensures Screen(chunk).None? <==> ValidAgentId(chunk.agentId) && SourceChars(chunk.source) && chunk.data.Some?
    ensures ValidAgentId(chunk.agentId) && SafeSource(chunk.source) && chunk.data.Some? ==> Screen(chunk).None?
  {
    hide SafeSource;
    assert forall i | 0 <= i < |chunk.source| :: chunk.source[i] in chunk.source;
    ShippedNames(chunk.source);
  }

  predicate FateFits(chunk: LogChunk, fate: IngestFate) {
    fate.WriteStops? && chunk.data.Some? ==> fate.count <= |chunk.data.value|
  }

  function SlotOf(chunk: LogChunk): Slot {
    (chunk.agentId, chunk.source)
  }

  function IngestInto(s: Store, chunk: LogChunk, fate: IngestFate): (Store, Result<(), IngestError>)
    requires FateFits(chunk, fate)
  {
    var slot := SlotOf(chunk);
    var next := NextOffset(s.offsets, slot);
    if Screen(chunk).Some? then (s, Err(Screen(chunk).value))
    else if fate.Unavailable? then (s, Err(DatabaseError))
    else if chunk.offset > next then (s, Err(GapError(next, chunk.offset)))
    else if chunk.offset < next then (s, Ok(()))
    else
      var data := chunk.data.value;
      match fate
      case WriteStops(n) =>
        (s.(files := s.files[slot := WriteAt(FileAt(s.files, slot), next, data[..n])]), Err(WriteError))
      case RecordFails =>
        (s.(files := s.files[slot := WriteAt(FileAt(s.files, slot), next, data)]), Err(DatabaseError))
      case Completes =>
        (Store(s.files[slot := WriteAt(FileAt(s.files, slot), next, data)],
               s.offsets[slot := AsI64(SaturatingAdd(next, |data|))]), Ok(()))
  }

  /** One agent's turn of a refresh: the store afterwards, and how many chunks left the bucket. */
  function IngestPass(s: Store, pending: seq<LogChunk>, fates: seq<IngestFate>, acks: seq<AckFate>): (Store, nat)
    requires |pending| == |fates| == |acks|
    requires forall i | 0 <= i < |pending| :: FateFits(pending[i], fates[i])
    decreases pending
  {
    if pending == [] then (s, 0)
    else
      var (s', r) := IngestInto(s, pending[0], fates[0]);
      if r.Err? then (s', 0)
      else if acks[0].AckFails? then (s', 0)
      else if acks[0].AckFailsButLands? then (s', 1)
      else
        var (s'', n) := IngestPass(s', pending[1..], fates[1..], acks[1..]);
        (s'', n + 1)
  }

  class LogStore {
    var files: map<Slot, seq<Byte>>
    var offsets: map<Slot, int>

    constructor ()
      ensures View() == Store(map[], map[])
    {
      files, offsets := map[], map[];
    }

    function View(): Store
      reads this
    {
      Store(files, offsets)
    }

    predicate Valid()
      reads this
    {
      forall s | s in offsets :: offsets[s] < I64_LIMIT
    }

    method Ingest(chunk: LogChunk, fate: IngestFate) returns (r: Result<(), IngestError>)
      requires Valid() && FateFits(chunk, fate)
      modifies this
      ensures Valid() && (View(), r) == IngestInto(old(View()), chunk, fate)
      // What is stored, skipped and refused, by the offset recorded so far.
      ensures r == Err(BadAgentId) <==> !ValidAgentId(chunk.agentId)
      ensures r == Err(UnsafeSource) <==> ValidAgentId(chunk.agentId) && !SourceChars(chunk.source)
      ensures r == Err(BadData) <==> ValidAgentId(chunk.agentId) && SourceChars(chunk.source) && chunk.data.None?
      ensures var slot := (chunk.agentId, chunk.source);
        var next: nat := if slot in old(offsets) && old(offsets)[slot] > 0 then old(offsets)[slot] else 0;
        var asked := ValidAgentId(chunk.agentId) && SourceChars(chunk.source) && chunk.data.Some? && !fate.Unavailable?;
        && (r.Err? && r.error.GapError? <==> asked && chunk.offset > next)
        && (r.Err? && r.error.GapError? ==> r.error == GapError(next, chunk.offset))
        && (asked && chunk.offset < next ==> r.Ok?)
        && (!asked || chunk.offset != next ==> files == old(files) && offsets == old(offsets))
        && (asked && chunk.offset == next ==> (r.Ok? <==> fate.Completes?))
        && (r.Err? ==> offsets == old(offsets))
        && (asked && chunk.offset == next && fate.Completes? ==>
              var end := next + |chunk.data.value|;
              && slot in files && |files[slot]| >= end && files[slot][next..end] == chunk.data.value
              && (slot in old(files) && |old(files)[slot]| >= next ==> files[slot][..next] == old(files)[slot][..next])
              && (end < I64_LIMIT ==> slot in offsets && offsets[slot] == end))
      ensures forall t | t != (chunk.agentId, chunk.source) ::
        && (t in files <==> t in old(files)) && (t in files ==> files[t] == old(files)[t])
        && (t in offsets <==> t in old(offsets)) && (t in offsets ==> offsets[t] == old(offsets)[t])
    {
      if !ValidAgentId(chunk.agentId) { return Err(BadAgentId); }
      if !SourceChars(chunk.source) { return Err(UnsafeSource); }
      if chunk.data.None? { return Err(BadData); }
      var data := chunk.data.value;
      if fate.Unavailable? { return Err(DatabaseError); }
      var slot := (chunk.agentId, chunk.source);
      var stored := if slot in offsets then offsets[slot] else 0;
      var next := if stored > 0 then stored else 0;
      if chunk.offset > next { return Err(GapError(next, chunk.offset)); }
      if chunk.offset == next {
        var file := if slot in files then files[slot] else [];
        if fate.WriteStops? {
          files := files[slot := WriteAt(file, chunk.offset, data[..fate.count])];
          return Err(WriteError);
        }
        files := files[slot := WriteAt(file, chunk.offset, data)];
        if fate.RecordFails? { return Err(DatabaseError); }
        offsets := offsets[slot := AsI64(SaturatingAdd(next, |data|))];
      }
      r := Ok(());
    }

    /** Ingest the pending chunks in order, deleting each from the bucket once its ingest is Ok. */
    method IngestPending(pending: seq<LogChunk>, fates: seq<IngestFate>, acks: seq<AckFate>)
        returns (deleted: nat)
      requires Valid() && |pending| == |fates| == |acks|
      requires forall i | 0 <= i < |pending| :: FateFits(pending[i], fates[i])
      modifies this
      ensures Valid() && (View(), deleted) == IngestPass(old(View()), pending, fates, acks)
    {
      hide IngestInto, FateFits;
      deleted := 0;
      while deleted < |pending|
        invariant Valid() && deleted <= |pending|
        invariant IngestPass(old(View()), pending, fates, acks)
               == var (s, n) := IngestPass(View(), pending[deleted..], fates[deleted..], acks[deleted..]);
                  (s, n + deleted)
      {
        assert pending[deleted..][0] == pending[deleted] && pending[deleted..][1..] == pending[deleted + 1..];
        assert fates[deleted..][0] == fates[deleted] && fates[deleted..][1..] == fates[deleted + 1..];
        assert acks[deleted..][0] == acks[deleted] && acks[deleted..][1..] == acks[deleted + 1..];
        var r := Ingest(pending[deleted], fates[deleted]);
        if r.Err? || acks[deleted].AckFails? { return; }
        deleted := deleted + 1;
        if acks[deleted - 1].AckFailsButLands? { return; }
      }
    }
  }

  /** The chunks of one source among those pending, in the same order. */
  function Project(pending: seq<LogChunk>, slot: Slot): seq<Chunk> {
    if pending == [] then []
    else if SlotOf(pending[0]) == slot && pending[0].data.Some? then
      [Chunk(pending[0].offset, pending[0].data.value)] + Project(pending[1..], slot)
    else Project(pending[1..], slot)
  }

  function OffsetSet(chunks: seq<Chunk>): set<nat> {
    set k | k in chunks :: k.offset
  }

  /** The agent's half of two channels agrees. */
  ghost predicate SameAgent(c: Channel, d: Channel) {
    c.log == d.log && c.deleted == d.deleted && c.marker == d.marker && c.cached == d.cached
    && c.outbox == d.outbox && c.sent == d.sent
  }

  /** The controller's half of a channel is what the store holds for its slot. */
  ghost predicate Holds(s: Store, slot: Slot, c: Channel) {
    c.copy == FileAt(s.files, slot) && c.next == NextOffset(s.offsets, slot)
  }

  /** Ingesting the chunk in hand is the protocol's own steps on its channel. */
  lemma IngestIsRun(s: Store, chunk: LogChunk, fate: IngestFate, c: Channel)
      returns (run: seq<Step>, d: Channel)
    requires FateFits(chunk, fate) && Screen(chunk).None? && Holds(s, SlotOf(chunk), c)
    requires Safe(c) && |c.log| < I64_LIMIT
    requires HasHead(c.inbox) && c.inbox.hand[0] == Chunk(chunk.offset, chunk.data.value)
    ensures Reaches(c, run, d) && Holds(IngestInto(s, chunk, fate).0, SlotOf(chunk), d)
    ensures d.bucket == c.bucket && SameAgent(c, d)
    ensures IngestInto(s, chunk, fate).1.Ok? ==> d.inbox == Acking(c.inbox.hand)
  {
    hide Reaches, Legal, Exec;
    Stay(c);
    var k := c.inbox.hand[0];
    assert k in Hand(c.inbox);
    if fate.Unavailable? || k.offset > c.next {
      run, d := [], c;
    } else if k.offset < c.next {
      run := Then(c, [], c, Skip);
      d := Apply(c, Skip);
    } else {
      match fate
      case WriteStops(n) =>
        run := Then(c, [], c, WriteSome(n));
        d := Apply(c, WriteSome(n));
      case RecordFails =>
        run := Then(c, [], c, WriteAll);
        d := Apply(c, WriteAll);
      case Completes =>
        var w := Apply(c, WriteAll);
        run := Then(c, [], c, WriteAll);
        run := Then(c, run, w, Record);
        d := Apply(w, Record);
    }
  }

  lemma OtherSlotsUntouched(s: Store, chunk: LogChunk, fate: IngestFate, slot: Slot, c: Channel)
    requires FateFits(chunk, fate) && SlotOf(chunk) != slot && Holds(s, slot, c)
    ensures Holds(IngestInto(s, chunk, fate).0, slot, c)
  {
  }

  /** One chunk of a pass, from ingest to acknowledgement. */
  lemma TurnIsRun(s: Store, chunk: LogChunk, fate: IngestFate, ack: AckFate, c: Channel)
      returns (run: seq<Step>, d: Channel)
    requires FateFits(chunk, fate) && Screen(chunk).None? && Holds(s, SlotOf(chunk), c)
    requires Safe(c) && |c.log| < I64_LIMIT
    requires HasHead(c.inbox) && c.inbox.hand[0] == Chunk(chunk.offset, chunk.data.value)
    ensures Reaches(c, run, d) && Safe(d) && SameAgent(c, d)
    ensures Holds(IngestInto(s, chunk, fate).0, SlotOf(chunk), d)
    ensures var left := IngestInto(s, chunk, fate).1.Ok? && !ack.AckFails?;
      && d.bucket == c.bucket - (if left then {chunk.offset} else {})
      && (left && ack.AckOk? ==> d.inbox == Ingesting(c.inbox.hand[1..]))
  {
    run, d := IngestIsRun(s, chunk, fate, c);
    if IngestInto(s, chunk, fate).1.Ok? {
      if ack.AckOk? {
        run := Then(c, run, d, Ack);
        d := Apply(d, Ack);
      } else if ack.AckFailsButLands? {
        run := Then(c, run, d, AckUnsure);
        d := Apply(d, AckUnsure);
      }
    }
    RunKeepsSafe(c, run);
  }

  /** One chunk's turn as one source sees it: its own chunk, another source's, or one that fails a check. */
  lemma HeadIsRun(s: Store, chunk: LogChunk, fate: IngestFate, ack: AckFate, slot: Slot, c: Channel)
      returns (run: seq<Step>, d: Channel)
    requires FateFits(chunk, fate) && Holds(s, slot, c) && Safe(c) && |c.log| < I64_LIMIT && c.inbox.Ingesting?
    requires Mine(chunk, slot) ==> HasHead(c.inbox) && c.inbox.hand[0] == Chunk(chunk.offset, chunk.data.value)
    ensures Reaches(c, run, d) && Safe(d) && SameAgent(c, d) && Holds(IngestInto(s, chunk, fate).0, slot, d)
    ensures var left := IngestInto(s, chunk, fate).1.Ok? && !ack.AckFails?;
      && d.bucket == c.bucket - (if Mine(chunk, slot) && left then {chunk.offset} else {})
      && (left && ack.AckOk? ==> d.inbox == Ingesting(if Mine(chunk, slot) then c.inbox.hand[1..] else c.inbox.hand))
  {
    hide Safe, Reaches;
    run, d := [], c;
    Stay(c);
    if Screen(chunk).Some? { return; }
    if SlotOf(chunk) == slot {
      run, d := TurnIsRun(s, chunk, fate, ack, c);
    } else {
      OtherSlotsUntouched(s, chunk, fate, slot, c);
    }
  }

  predicate Mine(chunk: LogChunk, slot: Slot) {
    SlotOf(chunk) == slot && chunk.data.Some?
  }

  /**
   * The controller refines the protocol: seen from any one source, a whole pass over the chunks
   * of an agent, with any failures, is a run of the channel that leaves the agent's half alone
   * and deletes from the bucket exactly the chunks of that source the pass acknowledged.
   */
  lemma {:induction false} PassIsRun(s: Store, pending: seq<LogChunk>, fates: seq<IngestFate>, acks: seq<AckFate>,
                                     slot: Slot, c: Channel)
      returns (run: seq<Step>, d: Channel)
    requires |pending| == |fates| == |acks|
    requires forall i | 0 <= i < |pending| :: FateFits(pending[i], fates[i])
    requires Safe(c) && |c.log| < I64_LIMIT && Holds(s, slot, c)
    requires c.inbox == Ingesting(Project(pending, slot))
    ensures IngestPass(s, pending, fates, acks).1 <= |pending|
    ensures Reaches(c, run, d) && Holds(IngestPass(s, pending, fates, acks).0, slot, d)
    ensures d.bucket == c.bucket - OffsetSet(Project(pending[..IngestPass(s, pending, fates, acks).1], slot))
    ensures SameAgent(c, d)
    decreases pending
  {
    hide Safe, Reaches, Holds, IngestInto, Legal, Exec, OffsetSet, FateFits, SameAgent;
    if pending == [] {
      run, d := [], c;
      Stay(c);
      NothingPassed(c, slot);
      assert pending[..0] == [];
      return;
    }
    var (s', r) := IngestInto(s, pending[0], fates[0]);
    run, d := HeadIsRun(s, pending[0], fates[0], acks[0], slot, c);
    FirstPassed(pending, slot);
    if r.Ok? && acks[0].AckOk? {
      AgentKeepsLog(c, d);
      var (s'', n) := IngestPass(s', pending[1..], fates[1..], acks[1..]);
      var rest, e := PassIsRun(s', pending[1..], fates[1..], acks[1..], slot, d);
      ProjectPrefix(pending, n, slot);
      assert IngestPass(s, pending, fates, acks) == (s'', n + 1);
      Join(c, run, d, rest, e);
      SameAgentChain(c, d, e);
      run, d := run + rest, e;
    }
  }

  lemma AgentKeepsLog(c: Channel, d: Channel)
    requires SameAgent(c, d)
    ensures d.log == c.log
  {
  }

  lemma SameAgentChain(c: Channel, d: Channel, e: Channel)
    requires SameAgent(c, d) && SameAgent(d, e)
    ensures SameAgent(c, e)
  {
  }

  lemma NothingPassed(c: Channel, slot: Slot)
    ensures OffsetSet(Project([], slot)) == {} && SameAgent(c, c) && c.bucket - {} == c.bucket
  {
  }

  /** What a pass that deletes one chunk, or none, has deleted of the source. */
  lemma FirstPassed(pending: seq<LogChunk>, slot: Slot)
    requires pending != []
    ensures OffsetSet(Project(pending[..0], slot)) == {}
    ensures OffsetSet(Project(pending[..1], slot)) == if Mine(pending[0], slot) then {pending[0].offset} else {}
  {
    assert pending[..0] == [] && pending[1..][..0] == [];
    ProjectPrefix(pending, 0, slot);
  }

  lemma ProjectPrefix(pending: seq<LogChunk>, n: nat, slot: Slot)
    requires n < |pending|
    ensures OffsetSet(Project(pending[..n + 1], slot))
         == (if Mine(pending[0], slot) then {pending[0].offset} else {})
            + OffsetSet(Project(pending[1..][..n], slot))
  {
    assert pending[..n + 1][1..] == pending[1..][..n];
    var tail := Project(pending[1..][..n], slot);
    if SlotOf(pending[0]) == slot && pending[0].data.Some? {
      var head := Chunk(pending[0].offset, pending[0].data.value);
      assert Project(pending[..n + 1], slot) == [head] + tail;
      assert head in [head] + tail;
      forall o | o in {head.offset} + OffsetSet(tail) ensures o in OffsetSet([head] + tail) {
        if o != head.offset {
          var k :| k in tail && k.offset == o;
          assert k in [head] + tail;
        }
      }
    }
  }

  // ---- Listing and fetching ----

  /** The chunks under the listed keys, in the order of the keys; a key may be gone by the time of its GET. */
  function PendingChunks(objects: map<string, LogChunk>, keys: seq<string>): seq<LogChunk> {
    if keys == [] then []
    else if keys[0] in objects then [objects[keys[0]]] + PendingChunks(objects, keys[1..])
    else PendingChunks(objects, keys[1..])
  }

  /** Every chunk lies under the key made of its own agent, source and offset. */
  ghost predicate WellKeyed(objects: map<string, LogChunk>, root: string) {
    forall key | key in objects :: key == LogKey(root, objects[key].agentId, objects[key].source, objects[key].offset)
  }

  /** One source's part of the objects is a channel's bucket. */
  ghost predicate Exposes(objects: map<string, LogChunk>, slot: Slot, bucket: map<nat, seq<Byte>>) {
    && (forall key | key in objects && SlotOf(objects[key]) == slot ::
          objects[key].offset in bucket && objects[key].data == Some(bucket[objects[key].offset]))
    && (forall o | o in bucket :: exists key :: key in objects && SlotOf(objects[key]) == slot && objects[key].offset == o)
  }

  lemma {:induction false} PendingAt(objects: map<string, LogChunk>, keys: seq<string>, i: nat)
    requires i < |keys| && forall key | key in keys :: key in objects
    ensures |PendingChunks(objects, keys)| == |keys| && PendingChunks(objects, keys)[i] == objects[keys[i]]
  {
    assert keys[0] in keys && forall key | key in keys[1..] :: key in keys;
    if |keys| > 1 {
      PendingAt(objects, keys[1..], if i > 0 then i - 1 else 0);
    } else {
      assert PendingChunks(objects, keys[1..]) == [];
    }
  }

  lemma {:induction false} ProjectMember(pending: seq<LogChunk>, slot: Slot, k: Chunk)
    ensures k in Project(pending, slot) <==> exists i :: 0 <= i < |pending| && Mine(pending[i], slot) && ChunkOf(pending[i]) == k
  {
    if pending != [] {
      ProjectMember(pending[1..], slot, k);
      if exists i :: 0 <= i < |pending| && Mine(pending[i], slot) && ChunkOf(pending[i]) == k {
        var i :| 0 <= i < |pending| && Mine(pending[i], slot) && ChunkOf(pending[i]) == k;
        assert i > 0 ==> pending[1..][i - 1] == pending[i];
      }
      if k in Project(pending[1..], slot) {
        var i :| 0 <= i < |pending[1..]| && Mine(pending[1..][i], slot) && ChunkOf(pending[1..][i]) == k;
        assert pending[i + 1] == pending[1..][i];
      }
    }
  }

  function ChunkOf(chunk: LogChunk): Chunk
    requires chunk.data.Some?
  {
    Chunk(chunk.offset, chunk.data.value)
  }

  function OffsetsOf(chunks: seq<Chunk>): (s: seq<nat>)
    ensures |s| == |chunks| && forall i | 0 <= i < |s| :: s[i] == chunks[i].offset
  {
    seq(|chunks|, (i: nat) requires i < |chunks| => chunks[i].offset)
  }

  lemma {:induction false} ProjectIncreases(pending: seq<LogChunk>, slot: Slot)
    requires forall i, j | 0 <= i < j < |pending| && Mine(pending[i], slot) && Mine(pending[j], slot) ::
               pending[i].offset < pending[j].offset
    ensures Increasing(OffsetsOf(Project(pending, slot)))
  {
    if pending != [] {
      ProjectIncreases(pending[1..], slot);
      var tail := Project(pending[1..], slot);
      forall k | k in tail && Mine(pending[0], slot) ensures pending[0].offset < k.offset {
        ProjectMember(pending[1..], slot, k);
        var i :| 0 <= i < |pending[1..]| && Mine(pending[1..][i], slot) && ChunkOf(pending[1..][i]) == k;
        assert pending[i + 1] == pending[1..][i];
      }
      assert forall i | 0 <= i < |tail| :: tail[i] in tail;
    }
  }

  /** As one source sees it, a listing is its whole queue, by offset. */
  ghost predicate QueueOf(pending: seq<LogChunk>, slot: Slot, bucket: map<nat, seq<Byte>>) {
    && (forall i, j | 0 <= i < j < |pending| && Mine(pending[i], slot) && Mine(pending[j], slot) ::
          pending[i].offset < pending[j].offset)
    && (forall i | 0 <= i < |pending| && Mine(pending[i], slot) ::
          pending[i].offset in bucket && bucket[pending[i].offset] == pending[i].data.value)
    && (forall o | o in bucket :: exists i :: 0 <= i < |pending| && Mine(pending[i], slot) && pending[i].offset == o)
  }

  lemma PendingAre(objects: map<string, LogChunk>, keys: seq<string>)
    requires forall key | key in keys :: key in objects
    ensures |PendingChunks(objects, keys)| == |keys|
    ensures forall i | 0 <= i < |keys| :: keys[i] in keys && PendingChunks(objects, keys)[i] == objects[keys[i]]
  {
    hide PendingChunks;
    NothingPending(objects, keys);
    if keys != [] { PendingAt(objects, keys, 0); }
    forall i | 0 <= i < |keys| ensures PendingChunks(objects, keys)[i] == objects[keys[i]] {
      PendingAt(objects, keys, i);
    }
  }

  lemma PendingIncrease(objects: map<string, LogChunk>, root: string, keys: seq<string>, slot: Slot, i: nat, j: nat)
    requires WellKeyed(objects, root) && Sorted(keys) && forall key | key in keys :: key in objects
    requires i < j < |keys| && keys[i] in keys && keys[j] in keys
    requires SlotOf(objects[keys[i]]) == slot == SlotOf(objects[keys[j]])
    ensures objects[keys[i]].offset < objects[keys[j]].offset
  {
    hide Sorted, LogKey;
    SortedKeysGiveIncreasingOffsets(root, slot.0, slot.1, keys, i, j, objects[keys[i]].offset, objects[keys[j]].offset);
  }

  /** In the order of the sorted keys the fetched chunks are such a listing of each source. */
  lemma PendingIsQueue(objects: map<string, LogChunk>, root: string, keys: seq<string>, slot: Slot, bucket: map<nat, seq<Byte>>)
    requires WellKeyed(objects, root) && Exposes(objects, slot, bucket)
    requires Sorted(keys) && forall key :: key in keys <==> key in objects
    ensures QueueOf(PendingChunks(objects, keys), slot, bucket)
  {
    hide Sorted, WellKeyed, PendingChunks;
    var pending := PendingChunks(objects, keys);
    PendingAre(objects, keys);
    forall i, j | 0 <= i < j < |pending| && Mine(pending[i], slot) && Mine(pending[j], slot)
      ensures pending[i].offset < pending[j].offset
    {
      PendingIncrease(objects, root, keys, slot, i, j);
    }
    forall o | o in bucket ensures exists i :: 0 <= i < |pending| && Mine(pending[i], slot) && pending[i].offset == o {
      var key :| key in objects && SlotOf(objects[key]) == slot && objects[key].offset == o;
      var i :| 0 <= i < |keys| && keys[i] == key;
      assert pending[i] == objects[key];
    }
  }

  /** One source's chunks of such a listing are a sorted listing of its channel. */
  lemma QueueIsListed(pending: seq<LogChunk>, slot: Slot, bucket: map<nat, seq<Byte>>)
    requires QueueOf(pending, slot, bucket)
    ensures Lists(OffsetsOf(Project(pending, slot)), bucket)
    ensures forall k | k in Project(pending, slot) :: bucket[k.offset] == k.data
  {
    hide Lists, Project;
    var mine := Project(pending, slot);
    ProjectIncreases(pending, slot);
    forall k | k in mine ensures k.offset in bucket && bucket[k.offset] == k.data {
      ProjectMember(pending, slot, k);
    }
    forall o | o in bucket ensures exists k :: k in mine && k.offset == o {
      var i :| 0 <= i < |pending| && Mine(pending[i], slot) && pending[i].offset == o;
      ProjectMember(pending, slot, ChunkOf(pending[i]));
    }
    OffsetsAreListed(mine, bucket);
  }

  /** In the order of the sorted keys, one source's chunks are a sorted listing of its channel. */
  lemma PendingIsListed(objects: map<string, LogChunk>, root: string, keys: seq<string>, slot: Slot, bucket: map<nat, seq<Byte>>)
    requires WellKeyed(objects, root) && Exposes(objects, slot, bucket)
    requires Sorted(keys) && forall key :: key in keys <==> key in objects
    ensures var mine := Project(PendingChunks(objects, keys), slot);
      && Lists(OffsetsOf(mine), bucket)
      && forall k | k in mine :: bucket[k.offset] == k.data
  {
    hide Sorted, WellKeyed, Exposes, Lists, PendingChunks, Project, QueueOf;
    PendingIsQueue(objects, root, keys, slot, bucket);
    QueueIsListed(PendingChunks(objects, keys), slot, bucket);
  }

  lemma NothingPending(objects: map<string, LogChunk>, keys: seq<string>)
    ensures keys == [] ==> PendingChunks(objects, keys) == []
  {
  }

  lemma OffsetsAreListed(chunks: seq<Chunk>, bucket: map<nat, seq<Byte>>)
    requires Increasing(OffsetsOf(chunks)) && forall k | k in chunks :: k.offset in bucket
    requires forall o | o in bucket :: exists k :: k in chunks && k.offset == o
    ensures Lists(OffsetsOf(chunks), bucket)
  {
    var s := OffsetsOf(chunks);
    forall o | o in s ensures o in bucket {
      var i :| 0 <= i < |s| && s[i] == o;
      assert chunks[i] in chunks;
    }
    forall o | o in bucket ensures o in s {
      var k :| k in chunks && k.offset == o;
      var i :| 0 <= i < |chunks| && chunks[i] == k;
      assert s[i] == o;
    }
  }

  /** One source's chunks, fetched in the order of a listing, are the listing's chunks. */
  lemma ListedChunks(chunks: seq<Chunk>, bucket: map<nat, seq<Byte>>)
    requires Lists(OffsetsOf(chunks), bucket) && forall k | k in chunks :: k.offset in bucket && bucket[k.offset] == k.data
    ensures ChunksAt(OffsetsOf(chunks), bucket) == chunks
  {
    assert forall i | 0 <= i < |chunks| :: chunks[i] in chunks;
  }

  /**
   * A whole refresh of an agent -- LIST, sort, GETs, ingestion and acknowledgements -- is, seen from
   * any one of its sources, a run of that source's channel from one idle state to the next, with
   * the store as the channel says and exactly the acknowledged chunks gone from the bucket.
   */
  lemma RefreshIsRun(s: Store, objects: map<string, LogChunk>, root: string, keys: seq<string>,
                     fates: seq<IngestFate>, acks: seq<AckFate>, slot: Slot, c: Channel)
      returns (run: seq<Step>, d: Channel)
    requires WellKeyed(objects, root) && Exposes(objects, slot, c.bucket)
    requires Sorted(keys) && forall key :: key in keys <==> key in objects
    requires |PendingChunks(objects, keys)| == |fates| == |acks|
    requires forall i | 0 <= i < |fates| :: FateFits(PendingChunks(objects, keys)[i], fates[i])
    requires Safe(c) && |c.log| < I64_LIMIT && Holds(s, slot, c) && c.inbox.Idle?
    ensures Reaches(c, run, d) && d.inbox.Idle? && SameAgent(c, d)
    ensures var pass := IngestPass(s, PendingChunks(objects, keys), fates, acks);
      && Holds(pass.0, slot, d) && pass.1 <= |fates|
      && d.bucket == c.bucket - OffsetSet(Project(PendingChunks(objects, keys)[..pass.1], slot))
  {
    hide Safe, Reaches, IngestPass, PendingChunks, Project, Lists, Sorted, WellKeyed, Exposes, OffsetSet, FateFits;
    var pending := PendingChunks(objects, keys);
    var mine := Project(pending, slot);
    PendingIsListed(objects, root, keys, slot, c.bucket);
    assert forall k | k in mine :: k.offset in c.bucket by { ListedIsQueued(mine, c.bucket); }
    ListedChunks(mine, c.bucket);
    run := FetchListed(c, OffsetsOf(mine));
    var e := c.(inbox := Ingesting(mine));
    assert Safe(e) by { FetchedIsSafe(c, run, e); }
    var rest, f := PassIsRun(s, pending, fates, acks, slot, e);
    Join(c, run, e, rest, f);
    run := Then(c, run + rest, f, Abandon);
    d := Apply(f, Abandon);
  }

  lemma ListedIsQueued(chunks: seq<Chunk>, bucket: map<nat, seq<Byte>>)
    requires Lists(OffsetsOf(chunks), bucket)
    ensures forall k | k in chunks :: k.offset in bucket
  {
    forall k | k in chunks ensures k.offset in bucket {
      var i :| 0 <= i < |chunks| && chunks[i] == k;
      assert OffsetsOf(chunks)[i] in OffsetsOf(chunks);
    }
  }

  lemma FetchedIsSafe(c: Channel, run: seq<Step>, d: Channel)
    requires Safe(c) && Reaches(c, run, d)
    ensures Safe(d)
  {
    RunKeepsSafe(c, run);
  }
}
