/**
 * Bulk file transfer: a file is read in chunks through short reads, the chunks are uploaded with
 * a bounded number in flight and rebuilt on the other side. Uploads finish in any order.
 */
module Transfer {
  import opened Base
  import opened Chunks
  import opened Protocol

  const MAX_CONCURRENCY: nat := 64
  const MEMORY_BUDGET: nat := 256 * 1024 * 1024

  function Min(a: nat, b: nat): nat { if a < b then a else b }

  function Max(a: nat, b: nat): nat { if a < b then b else a }

  /** How many uploads may overlap; the doubling saturates at the width of a 64-bit usize. */
  function UploadConcurrency(requested: nat, size: nat): nat {
    var wanted := Max(1, Min(requested, MAX_CONCURRENCY));
    var perChunk := Max(1, Saturated(2 * size));
    Min(wanted, Max(1, MEMORY_BUDGET / perChunk))
  }

  /** Plaintext and ciphertext of `n` chunks in flight. */
  function InFlightBytes(n: nat, size: nat): nat { n * (2 * size) }

  lemma BudgetQuotient(size: nat, q: nat)
    requires q == MEMORY_BUDGET / Max(1, Saturated(2 * size))
    ensures q >= 1 ==> q * (2 * size) <= MEMORY_BUDGET
    ensures (q + 1) * (2 * size) > MEMORY_BUDGET || size == 0
  {
    var perChunk := Max(1, Saturated(2 * size));
    assert q * perChunk <= MEMORY_BUDGET < (q + 1) * perChunk;
    if q >= 1 {
      MulMono(1, q, perChunk, perChunk);
      assert 2 * size <= perChunk;
      MulMono(q, q, 2 * size, perChunk);
    }
    if size > 0 { MulMono(q + 1, q + 1, perChunk, 2 * size); }
  }

  /** The memory bound on what is in flight, plaintext and ciphertext together. */
  lemma MemoryBound(requested: nat, size: nat, n: nat)
    requires n <= UploadConcurrency(requested, size)
    ensures 1 <= UploadConcurrency(requested, size) <= 64 && (n <= requested || n <= 1)
    ensures n * (2 * size) <= 268435456 || n <= 1
    ensures InFlightBytes(n, size) <= Max(MEMORY_BUDGET, 2 * size)
  {
    var q := MEMORY_BUDGET / Max(1, Saturated(2 * size));
    BudgetQuotient(size, q);
    if q >= 1 {
      MulMono(n, q, 2 * size, 2 * size);
    } else {
      MulMono(n, 1, 2 * size, 2 * size);
    }
  }

  /** Nothing is given away: one more upload would exceed the request, the ceiling, or the budget. */
  lemma ConcurrencyIsLargest(requested: nat, size: nat)
    ensures var c := UploadConcurrency(requested, size);
      c == (if requested == 0 then 1 else requested) || c == 64 || (c + 1) * (2 * size) > 268435456
  {
    var q := MEMORY_BUDGET / Max(1, Saturated(2 * size));
    BudgetQuotient(size, q);
    var c := UploadConcurrency(requested, size);
    if c == Max(1, q) && size > 0 {
      MulMono(q + 1, c + 1, 2 * size, 2 * size);
    }
  }

  lemma MulMono(a: nat, b: nat, x: nat, y: nat)
    requires a <= b && x <= y
    ensures a * x <= b * y
  {
    assert b * y == a * x + a * (y - x) + (b - a) * y;
  }

  // ---- Splitting ----

  /** The chunks of a file; an empty file is one empty chunk. */
  function Split(file: seq<Byte>, size: nat): (chunks: seq<seq<Byte>>)
    ensures chunks != []
    decreases |file|
  {
    if size == 0 then [[]]
    else if |file| <= size then [file]
    else [file[..size]] + Split(file[size..], size)
  }

  function Join(chunks: seq<seq<Byte>>): seq<Byte> {
    if chunks == [] then [] else chunks[0] + Join(chunks[1..])
  }

  lemma {:induction false} JoinSnoc(chunks: seq<seq<Byte>>, last: seq<Byte>)
    ensures Join(chunks + [last]) == Join(chunks) + last
  {
    if chunks == [] {
      assert Join([last]) == last + Join([last][1..]);
    } else {
      assert (chunks + [last])[1..] == chunks[1..] + [last];
      JoinSnoc(chunks[1..], last);
      assert Join(chunks + [last]) == chunks[0] + (Join(chunks[1..]) + last);
      assert chunks[0] + (Join(chunks[1..]) + last) == chunks[0] + Join(chunks[1..]) + last;
    }
  }

  /** Chunks of a positive size give the file back; chunks of size zero only the empty file. */
  lemma {:induction false} SplitJoins(file: seq<Byte>, size: nat)
    ensures Join(Split(file, size)) == file <==> size > 0 || file == []
    ensures forall k | 0 <= k < |Split(file, size)| :: |Split(file, size)[k]| <= size || size == 0
    ensures forall k | 0 <= k < |Split(file, size)| - 1 :: |Split(file, size)[k]| == size
    decreases |file|
  {
    if size > 0 && |file| > size {
      SplitJoins(file[size..], size);
      var rest := Split(file[size..], size);
      assert Split(file, size)[1..] == rest;
      assert file == file[..size] + file[size..];
    } else {
      var only := if size == 0 then [] else file;
      assert Split(file, size) == [only] && Split(file, size)[1..] == [];
      assert Join([only]) == only + Join([]);
    }
  }

  function DivCeil(n: nat, d: nat): nat
    requires d > 0
  {
    if n % d == 0 then n / d else n / d + 1
  }

  /** The number of chunks announced for a file, capped at 32 bits. */
  function ChunkCount(bytes: nat, size: nat): nat {
    Min(Max(1, DivCeil(bytes, Max(1, size))), U32_MAX)
  }

  lemma DivCeilStep(n: nat, d: nat)
    requires 0 < d < n
    ensures DivCeil(n, d) == 1 + DivCeil(n - d, d) && DivCeil(n - d, d) >= 1
  {
    assert n == (n - d) + d;
    var q, r := (n - d) / d, (n - d) % d;
    assert n - d == q * d + r;
    assert n == (q + 1) * d + r;
    assert n / d == q + 1 && n % d == r by { DivUnique(n, d, q + 1, r); }
  }

  lemma DivUnique(n: nat, d: nat, q: nat, r: nat)
    requires d > 0 && n == q * d + r && r < d
    ensures n / d == q && n % d == r
  {
    var q2, r2 := n / d, n % d;
    assert n == q2 * d + r2;
    if q2 < q { MulMono(q2 + 1, q, d, d); }
    if q < q2 { MulMono(q + 1, q2, d, d); }
  }

  lemma DivCeilSmall(n: nat, d: nat)
    requires n <= d && 0 < d
    ensures Max(1, DivCeil(n, d)) == 1
  {
    if n == d { DivUnique(n, d, 1, 0); } else { DivUnique(n, d, 0, n); }
  }

  /** The announced number of chunks is the number of chunks. */
  lemma {:induction false} CountIsExact(file: seq<Byte>, size: nat)
    requires size > 0
    ensures |Split(file, size)| == Max(1, DivCeil(|file|, size))
    ensures Min(|Split(file, size)|, U32_MAX) == ChunkCount(|file|, size)
    decreases |file|
  {
    hide DivCeil;
    if |file| > size {
      CountIsExact(file[size..], size);
      DivCeilStep(|file|, size);
    } else {
      DivCeilSmall(|file|, size);
    }
  }

  // ---- Reading ----

  /** An open file whose reads may return fewer bytes than asked for, at any time, or fail. */
  class FileReader {
    const data: seq<Byte>
    const offers: nat -> nat
    const broken: nat -> bool
    var pos: nat
    var calls: nat

    constructor (data: seq<Byte>, offers: nat -> nat, broken: nat -> bool)
      ensures this.data == data && this.offers == offers && this.broken == broken && pos == 0
    {
      this.data, this.offers, this.broken, pos, calls := data, offers, broken, 0, 0;
    }

    /** One read: at least one byte unless the file has ended, at most what fits. */
    method Read(buffer: array<Byte>, from: nat) returns (ok: bool, n: nat)
      requires pos <= |data| && from < buffer.Length
      modifies this`pos, this`calls, buffer
      ensures ok <==> !broken(old(calls))
      ensures calls == old(calls) + 1 && pos == old(pos) + n <= |data| && from + n <= buffer.Length
      ensures ok ==> (n == 0 <==> old(pos) == |data|)
      ensures buffer[..from + n] == old(buffer[..from]) + data[old(pos)..pos]
    {
      calls := calls + 1;
      if broken(calls - 1) { return false, 0; }
      n := Min(Max(1, offers(calls - 1)), Min(buffer.Length - from, |data| - pos));
      ghost var start := buffer[..from];
      for i := 0 to n
        invariant pos == old(pos) && calls == old(calls) + 1
        invariant buffer[..from + i] == start + data[pos..pos + i]
      {
        ghost var before := buffer[..from + i];
        buffer[from + i] := data[pos + i];
        assert buffer[..from + i + 1] == before + [data[pos + i]];
        assert data[pos..pos + i + 1] == data[pos..pos + i] + [data[pos + i]];
      }
      pos := pos + n;
      ok := true;
    }

    /** Read until the buffer is full or the file ends, so that no chunk but the last is short. */
    method Fill(buffer: array<Byte>) returns (ok: bool, filled: nat)
      requires pos <= |data|
      modifies this`pos, this`calls, buffer
      ensures old(pos) <= pos <= |data|
      ensures (forall k: nat :: !broken(k)) ==> ok
      ensures ok ==> filled == Min(buffer.Length, |data| - old(pos)) && pos == old(pos) + filled
      ensures ok ==> buffer[..filled] == data[old(pos)..pos]
    {
      filled := 0;
      while filled < buffer.Length
        invariant filled <= buffer.Length && pos == old(pos) + filled <= |data|
        invariant buffer[..filled] == data[old(pos)..pos]
      {
        var n;
        ghost var before := pos;
        ok, n := Read(buffer, filled);
        if !ok { return false, filled; }
        if n == 0 { break; }
        filled := filled + n;
        assert data[old(pos)..before] + data[before..pos] == data[old(pos)..pos];
      }
      ok := true;
    }
  }

  // ---- Uploading ----

  /** What is still to be put once `count` chunks have consumed `pos` bytes. */
  function Remaining(data: seq<Byte>, size: nat, pos: nat, count: nat): seq<seq<Byte>>
    requires pos <= |data|
  {
    if count > 0 && (pos == |data| || size == 0) then [] else Split(data[pos..], size)
  }

  lemma RemainingStep(data: seq<Byte>, size: nat, pos: nat, count: nat)
    requires pos <= |data| && Remaining(data, size, pos, count) != []
    ensures var n := Min(size, |data| - pos);
      Remaining(data, size, pos, count) == [data[pos..pos + n]] + Remaining(data, size, pos + n, count + 1)
    ensures Min(size, |data| - pos) < size ==> pos + Min(size, |data| - pos) == |data|
  {
    var rest := data[pos..];
    if size > 0 && |rest| > size {
      assert rest[size..] == data[pos + size..] && rest[..size] == data[pos..pos + size];
    } else if size > 0 {
      assert rest == data[pos..pos + |rest|];
    } else {
      assert data[pos..pos] == [];
    }
  }

  /** The puts made so far are the first chunks, each once, numbered in order. */
  ghost predicate Numbered(puts: seq<(nat, seq<Byte>)>, chunks: seq<seq<Byte>>) {
    |puts| <= |chunks| && forall k | 0 <= k < |puts| :: puts[k] == (k, chunks[k])
  }

  /** Every object is what it was before, or the chunk put under its index. */
  ghost predicate Supplied(before: map<nat, seq<Byte>>, after: map<nat, seq<Byte>>, chunks: seq<seq<Byte>>, n: nat)
    requires n <= |chunks|
  {
    && (forall k | k in after :: (k < n && after[k] == chunks[k]) || (k in before && after[k] == before[k]))
    && (forall k | k in before :: k in after)
  }

  /** `count` chunks of the file have been put, which took `pos` bytes of it. */
  ghost predicate Progress(data: seq<Byte>, size: nat, pos: nat, count: nat, puts: seq<(nat, seq<Byte>)>,
                           before: map<nat, seq<Byte>>, bucket: map<nat, seq<Byte>>, fate: nat -> Fate) {
    var all := Split(data, size);
    && pos <= |data| && count == |puts| && Numbered(puts, all)
    && all[count..] == Remaining(data, size, pos, count)
    && Supplied(before, bucket, all, count)
    && (forall i: nat | i < count && fate(i).Lands? :: i in bucket && bucket[i] == all[i])
  }

  lemma ProgressStarts(data: seq<Byte>, size: nat, bucket: map<nat, seq<Byte>>, fate: nat -> Fate)
    ensures Progress(data, size, 0, 0, [], bucket, bucket, fate)
  {
    assert data[0..] == data;
  }

  /** What progress says about the outcome. */
  lemma ProgressMeans(data: seq<Byte>, size: nat, pos: nat, count: nat, puts: seq<(nat, seq<Byte>)>,
                      before: map<nat, seq<Byte>>, bucket: map<nat, seq<Byte>>, fate: nat -> Fate)
    requires Progress(data, size, pos, count, puts, before, bucket, fate)
    ensures pos <= |data| && count == |puts| <= |Split(data, size)|
    ensures Numbered(puts, Split(data, size)) && Supplied(before, bucket, Split(data, size), |puts|)
    ensures forall i: nat | i < count && fate(i).Lands? :: i in bucket && bucket[i] == Split(data, size)[i]
    ensures Remaining(data, size, pos, count) == [] <==> count == |Split(data, size)|
    ensures Remaining(data, size, pos, count) == [] <==> count > 0 && (pos == |data| || size == 0)
  {
  }

  lemma PutMakesProgress(data: seq<Byte>, size: nat, pos: nat, count: nat, puts: seq<(nat, seq<Byte>)>,
                         before: map<nat, seq<Byte>>, bucket: map<nat, seq<Byte>>, fate: nat -> Fate, chunk: seq<Byte>)
    requires Progress(data, size, pos, count, puts, before, bucket, fate) && Remaining(data, size, pos, count) != []
    requires chunk == data[pos..pos + Min(size, |data| - pos)]
    ensures Progress(data, size, pos + |chunk|, count + 1, puts + [(count, chunk)], before,
                     if TookEffect(fate(count)) then bucket[count := chunk] else bucket, fate)
  {
    hide Split, Remaining;
    var all := Split(data, size);
    RemainingStep(data, size, pos, count);
    assert all[count..][0] == all[count] && all[count + 1..] == all[count..][1..];
  }

  /** Of the first `count` puts those not in flight have succeeded. */
  ghost predicate Outstanding(inflight: set<nat>, count: nat, fate: nat -> Fate) {
    && (forall i | i in inflight :: i < count)
    && (forall i: nat | i < count && i !in inflight :: fate(i).Lands?)
  }

  /** Every chunk's put succeeded, and the chunk is under its index. */
  ghost predicate AllPut(bucket: map<nat, seq<Byte>>, chunks: seq<seq<Byte>>, fate: nat -> Fate) {
    forall i: nat | i < |chunks| :: fate(i).Lands? && i in bucket && bucket[i] == chunks[i]
  }

  /** Nothing is left to put and nothing is in flight. */
  lemma UploadEnds(data: seq<Byte>, size: nat, pos: nat, count: nat, puts: seq<(nat, seq<Byte>)>,
                   before: map<nat, seq<Byte>>, bucket: map<nat, seq<Byte>>, fate: nat -> Fate, inflight: set<nat>)
    requires Progress(data, size, pos, count, puts, before, bucket, fate) && Remaining(data, size, pos, count) == []
    requires Outstanding(inflight, count, fate) && |inflight| == 0
    ensures count == |puts| == |Split(data, size)| && AllPut(bucket, Split(data, size), fate)
  {
    hide Split, Remaining;
    ProgressMeans(data, size, pos, count, puts, before, bucket, fate);
    AllLanded(inflight, count, fate);
  }

  /** What has been hashed and counted is what has been read. */
  predicate Digested(data: seq<Byte>, pos: nat, hashed: seq<Byte>, totalBytes: nat) {
    pos <= |data| && hashed == data[..pos] && totalBytes == Saturated(pos)
  }

  lemma DigestNothing(data: seq<Byte>)
    ensures Digested(data, 0, [], 0)
  {
  }

  lemma DigestMore(data: seq<Byte>, pos: nat, n: nat, hashed: seq<Byte>, totalBytes: nat)
    requires Digested(data, pos, hashed, totalBytes) && pos + n <= |data|
    ensures Digested(data, pos + n, hashed + data[pos..pos + n], Saturated(totalBytes + n))
  {
    assert data[..pos] + data[pos..pos + n] == data[..pos + n];
  }

  lemma DigestAll(data: seq<Byte>, hashed: seq<Byte>, totalBytes: nat)
    requires Digested(data, |data|, hashed, totalBytes)
    ensures hashed == data && totalBytes == Saturated(|data|)
  {
    assert data[..|data|] == data;
  }

  lemma NothingOutstanding(fate: nat -> Fate)
    ensures Outstanding({}, 0, fate)
  {
  }

  lemma AllLanded(inflight: set<nat>, count: nat, fate: nat -> Fate)
    requires Outstanding(inflight, count, fate) && |inflight| == 0
    ensures forall i: nat | i < count :: fate(i).Lands?
  {
  }

  lemma OneMoreOutstanding(inflight: set<nat>, count: nat, fate: nat -> Fate)
    requires Outstanding(inflight, count, fate)
    ensures Outstanding(inflight + {count}, count + 1, fate) && |inflight + {count}| == |inflight| + 1
  {
  }

  class Uploader {
    var bucket: map<nat, seq<Byte>>
    ghost var puts: seq<(nat, seq<Byte>)>
    ghost var peak: nat

    constructor (bucket: map<nat, seq<Byte>>)
      ensures this.bucket == bucket && puts == [] && peak == 0
    {
      this.bucket := bucket;
      puts, peak := [], 0;
    }

    /** Start the next put. */
    method Put(ghost all: seq<Byte>, ghost size: nat, ghost pos: nat, index: nat, fate: nat -> Fate, data: seq<Byte>,
               ghost before: map<nat, seq<Byte>>)
      requires Progress(all, size, pos, index, puts, before, bucket, fate) && Remaining(all, size, pos, index) != []
      requires pos <= |all| && data == all[pos..pos + Min(size, |all| - pos)]
      modifies this`bucket, this`puts
      ensures Progress(all, size, pos + |data|, index + 1, puts, before, bucket, fate)
    {
      PutMakesProgress(all, size, pos, index, puts, before, bucket, fate, data);
      puts := puts + [(index, data)];
      if TookEffect(fate(index)) { bucket := bucket[index := data]; }
    }

    /** Wait, in whatever order uploads finish, until fewer than `below` are in flight. */
    method Await(inflight: set<nat>, ghost count: nat, below: nat, fate: nat -> Fate) returns (v: Verdict, left: set<nat>)
      requires below >= 1 && Outstanding(inflight, count, fate)
      ensures left <= inflight
      ensures v.Succeeded? ==> |left| < below && Outstanding(left, count, fate)
      ensures !v.Succeeded? ==> exists i: nat :: i < count && !fate(i).Lands?
    {
      left := inflight;
      while |left| >= below
        invariant left <= inflight && Outstanding(left, count, fate)
        decreases |left|
      {
        var joined :| joined in left;
        left := left - {joined};
        if !fate(joined).Lands? { return if fate(joined).Crash? then Crashed else Failed, left; }
      }
      v := Succeeded;
    }

    /** Read the next chunk, digest it and start its put; nothing happens at the end of the file. */
    method PutNext(source: FileReader, buffer: array<Byte>, index: nat, fate: nat -> Fate, hashed: seq<Byte>, counted: nat,
                   ghost before: map<nat, seq<Byte>>)
        returns (ok: bool, read: nat, hashed': seq<Byte>, counted': nat)
      requires Progress(source.data, buffer.Length, source.pos, index, puts, before, bucket, fate)
      requires Digested(source.data, source.pos, hashed, counted)
      modifies this`bucket, this`puts, source`pos, source`calls, buffer
      ensures (forall k: nat :: !source.broken(k)) ==> ok
      ensures !ok ==> puts == old(puts) && bucket == old(bucket)
      ensures ok ==> old(source.pos) + read == source.pos <= |source.data| && read == Min(buffer.Length, |source.data| - old(source.pos))
      ensures ok && read == 0 && index > 0 ==> puts == old(puts) && bucket == old(bucket) && (hashed', counted') == (hashed, counted)
      ensures ok && !(read == 0 && index > 0) ==>
        && Progress(source.data, buffer.Length, source.pos, index + 1, puts, before, bucket, fate)
        && Digested(source.data, source.pos, hashed', counted')
    {
      hide Progress, Split, Remaining, Digested, Saturated;
      hashed', counted' := hashed, counted;
      ghost var start := source.pos;
      ProgressMeans(source.data, buffer.Length, start, index, puts, before, bucket, fate);
      ok, read := source.Fill(buffer);
      if !ok || (read == 0 && index > 0) { return; }
      var data := buffer[..read];
      DigestMore(source.data, start, read, hashed, counted);
      hashed', counted' := hashed + data, Saturated(counted + read);
      Put(source.data, buffer.Length, start, index, fate, data, before);
    }

    /**
     * Upload a file in chunks. `fate` is how each put ends; the order in which puts in flight
     * finish is left open.
     */
    method UploadChunks(source: FileReader, size: nat, requested: nat, fate: nat -> Fate, hash: seq<Byte> -> string)
        returns (v: Verdict, chunks: nat, totalBytes: nat, sha256: string)
      requires source.pos == 0 && puts == [] && peak == 0
      modifies this, source`pos, source`calls
      ensures Numbered(puts, Split(source.data, size)) && Supplied(old(bucket), bucket, Split(source.data, size), |puts|)
      ensures peak <= UploadConcurrency(requested, size)
      ensures v.Succeeded? ==>
        && chunks == |Split(source.data, size)| == |puts|
        && chunks <= U32_MAX
        && AllPut(bucket, Split(source.data, size), fate)
        && (size > 0 ==> totalBytes == Saturated(|source.data|) && sha256 == hash(source.data))
      ensures (forall k: nat :: !source.broken(k)) && |Split(source.data, size)| <= U32_MAX ==>
          (forall i: nat | i < |Split(source.data, size)| :: fate(i).Lands?) ==> v.Succeeded?
    {
      hide Progress, Split, Remaining, UploadConcurrency, Supplied, Numbered, Outstanding, Digested, AllPut, Saturated;
      var concurrency := UploadConcurrency(requested, size);
      MemoryBound(requested, size, concurrency);
      ProgressStarts(source.data, size, bucket, fate);
      assert Digested(source.data, 0, [], 0) by { DigestNothing(source.data); }
      assert Outstanding({}, 0, fate) by { NothingOutstanding(fate); }
      chunks, totalBytes, sha256 := 0, 0, "";
      var buffer := new Byte[size];
      var hashed: seq<Byte> := [];
      var inflight: set<nat> := {};
      while true
        invariant Progress(source.data, size, source.pos, chunks, puts, old(bucket), bucket, fate)
        invariant source.pos <= |source.data| && chunks <= U32_MAX && |inflight| < concurrency && peak <= concurrency
        invariant Outstanding(inflight, chunks, fate) && Digested(source.data, source.pos, hashed, totalBytes)
        decreases |source.data| - source.pos, if chunks == 0 then 1 else 0
      {
        ProgressMeans(source.data, size, source.pos, chunks, puts, old(bucket), bucket, fate);
        var ok, read;
        ok, read, hashed, totalBytes := PutNext(source, buffer, chunks, fate, hashed, totalBytes, old(bucket));
        if !ok { return Failed, chunks, totalBytes, sha256; }
        if read == 0 && chunks > 0 { break; }
        OneMoreOutstanding(inflight, chunks, fate);
        inflight := inflight + {chunks};
        peak := Max(peak, |inflight|);
        chunks := chunks + 1;
        ProgressMeans(source.data, size, source.pos, chunks, puts, old(bucket), bucket, fate);
        if chunks > U32_MAX { return Failed, chunks, totalBytes, sha256; }
        v, inflight := Await(inflight, chunks, concurrency, fate);
        if !v.Succeeded? { return; }
        if read < buffer.Length { break; }
      }
      ProgressMeans(source.data, size, source.pos, chunks, puts, old(bucket), bucket, fate);
      v, inflight := Await(inflight, chunks, 1, fate);
      if !v.Succeeded? { return; }
      UploadEnds(source.data, size, source.pos, chunks, puts, old(bucket), bucket, fate, inflight);
      if size > 0 { DigestAll(source.data, hashed, totalBytes); }
      sha256 := hash(hashed);
    }
  }

  // ---- Rebuilding ----

  class Receiver {
    var dest: Option<seq<Byte>>
    var temp: Option<seq<Byte>>

    constructor (dest: Option<seq<Byte>>)
      ensures this.dest == dest && temp == None
    {
      this.dest, temp := dest, None;
    }

    /** Rebuild beside the destination and rename into place only what has been verified. */
    method AssembleFile(chunks: nat, totalBytes: nat, sha256: string, hash: seq<Byte> -> string, s: Supply,
                        rename: Io, discard: Io)
        returns (v: Verdict)
      modifies this
      ensures v.Succeeded? <==> Rebuildable(chunks, totalBytes, sha256, hash, s) && rename.Works?
      ensures v.Succeeded? ==> dest == Some(Assembled(s.chunk, chunks)) && temp == None
      ensures !v.Succeeded? ==> dest == old(dest)
      // Whatever the bucket holds.
      ensures dest != old(dest) ==> dest.Some? && Matches(dest.value, totalBytes, sha256, hash)
      ensures dest != old(dest) ==>
        hash(dest.value) == sha256 && (|dest.value| == totalBytes || (|dest.value| > U64_MAX && totalBytes == U64_MAX))
      ensures v.Failed? && s.create.Works? && discard.Works? && !Rebuildable(chunks, totalBytes, sha256, hash, s) ==> temp == None
    {
      var file;
      v, file := Assemble(chunks, totalBytes, sha256, hash, s);
      if file.Some? { temp := file; }
      if v.Crashed? { return; }
      if v.Failed? {
        if discard.Dies? { return Crashed; }
        if discard.Works? { temp := None; }
        return;
      }
      if rename.Dies? { return Crashed; }
      if rename.Errs? { return Failed; }
      dest, temp := temp, None;
    }
  }

  lemma {:induction false} AssembledIsJoin(chunk: nat -> Fetch, chunks: seq<seq<Byte>>, n: nat)
    requires n <= |chunks| && forall i: nat | i < n :: chunk(i) == Found(chunks[i])
    ensures Assembled(chunk, n) == Join(chunks[..n])
  {
    if n > 0 {
      AssembledIsJoin(chunk, chunks, n - 1);
      JoinSnoc(chunks[..n - 1], chunks[n - 1]);
      assert chunks[..n] == chunks[..n - 1] + [chunks[n - 1]];
    }
  }

  /** What was split with a positive size and is served chunk by chunk rebuilds to the same file. */
  lemma RoundTrip(file: seq<Byte>, size: nat, s: Supply, hash: seq<Byte> -> string)
    requires size > 0
    requires forall i: nat | i < |Split(file, size)| :: s.chunk(i) == Found(Split(file, size)[i])
    ensures Assembled(s.chunk, |Split(file, size)|) == file
    ensures Matches(Assembled(s.chunk, |Split(file, size)|), Saturated(|file|), hash(file), hash)
  {
    var chunks := Split(file, size);
    AssembledIsJoin(s.chunk, chunks, |chunks|);
    assert chunks[..|chunks|] == chunks;
    SplitJoins(file, size);
  }

  /** What GET finds under each index. */
  function ServedBy(bucket: map<nat, seq<Byte>>): nat -> Fetch {
    i => if i in bucket then Found(bucket[i]) else Absent
  }

  /**
   * Upload and rebuild, end to end: whatever the bucket held before, whatever the reads return and
   * however the uploads finish, if the upload succeeds and the receiver's own files work, the
   * receiver gets from the bucket the upload left the file as it was.
   */
  method Relay(source: FileReader, size: nat, requested: nat, fate: nat -> Fate, hash: seq<Byte> -> string,
               uploader: Uploader, receiver: Receiver, io: Supply, rename: Io, discard: Io)
      returns (sent: Verdict, received: Verdict)
    requires size > 0 && source.pos == 0 && uploader.puts == [] && uploader.peak == 0
    requires io.create.Works? && io.flush.Works? && (forall i: nat :: io.write(i).Works?)
    modifies uploader, receiver, source`pos, source`calls
    ensures sent.Succeeded? && rename.Works? ==> received.Succeeded? && receiver.dest == Some(source.data)
    ensures !sent.Succeeded? ==> receiver.dest == old(receiver.dest)
  {
    var chunks, totalBytes, sha256;
    sent, chunks, totalBytes, sha256 := uploader.UploadChunks(source, size, requested, fate, hash);
    if !sent.Succeeded? { return sent, Failed; }
    var s := io.(chunk := ServedBy(uploader.bucket));
    RoundTrip(source.data, size, s, hash);
    received := receiver.AssembleFile(chunks, totalBytes, sha256, hash, s, rename, discard);
  }
}
