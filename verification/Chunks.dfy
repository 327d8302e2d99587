/**
 * Rebuilding a file from chunks in the bucket: the loop that blob transfers, shared files and
 * updates have in common. Bytes go to a temporary file; only its caller makes it visible.
 */
module Chunks {
  import opened Base
  import opened Protocol

  const U32_MAX: nat := 0xFFFF_FFFF
  const U64_MAX: nat := 0xFFFF_FFFF_FFFF_FFFF

  /** A number of bytes as a saturating 64-bit counter sees it. */
  function Saturated(n: nat): nat {
    if n <= U64_MAX then n else U64_MAX
  }

  /** How one local file operation ends; `Dies` is a crash just before it. */
  datatype Io = Works | Errs | Dies

  datatype Fetch = Unreachable | Absent | Found(data: seq<Byte>)

  /** What one attempt meets. `torn` is how much of a write that fails stays in the file. */
  datatype Supply = Supply(create: Io, chunk: nat -> Fetch, write: nat -> Io, torn: nat -> nat, flush: Io)

  /** The first `n` chunks, joined. */
  ghost function Assembled(chunk: nat -> Fetch, n: nat): seq<Byte> {
    if n == 0 then []
    else Assembled(chunk, n - 1) + (match chunk(n - 1) case Found(data) => data case _ => [])
  }

  lemma {:induction false} AssembledGrows(chunk: nat -> Fetch, i: nat, n: nat)
    requires i <= n
    ensures |Assembled(chunk, i)| <= |Assembled(chunk, n)|
    decreases n
  {
    if i < n { AssembledGrows(chunk, i, n - 1); }
  }

  /** The bytes have the declared length and hash. */
  ghost predicate Matches(bytes: seq<Byte>, totalBytes: nat, sha256: string, hash: seq<Byte> -> string) {
    Saturated(|bytes|) == totalBytes && hash(bytes) == sha256
  }

  /** Exactly when a file can be rebuilt. */
  ghost predicate Rebuildable(chunks: nat, totalBytes: nat, sha256: string, hash: seq<Byte> -> string, s: Supply) {
    && s.create.Works? && s.flush.Works?
    && (forall i: nat | i < chunks :: s.chunk(i).Found? && s.write(i).Works?)
    && Matches(Assembled(s.chunk, chunks), totalBytes, sha256, hash)
  }

  /**
   * Write the chunks to a temporary file, never more bytes than declared, then check length and
   * hash. `file` is what the temporary file holds afterwards, if it was created.
   */
  method Assemble(chunks: nat, totalBytes: nat, sha256: string, hash: seq<Byte> -> string, s: Supply)
      returns (v: Verdict, file: Option<seq<Byte>>)
    ensures v.Succeeded? <==> Rebuildable(chunks, totalBytes, sha256, hash, s)
    ensures v.Succeeded? ==> file == Some(Assembled(s.chunk, chunks))
    ensures v.Succeeded? ==> hash(file.value) == sha256 && (|file.value| == totalBytes || (|file.value| > U64_MAX && totalBytes == U64_MAX))
    ensures file.Some? <==> s.create.Works?
    ensures file.Some? ==> |file.value| <= totalBytes || totalBytes >= U64_MAX
  {
    file := None;
    if s.create.Dies? { return Crashed, None; }
    if s.create.Errs? { return Failed, None; }
    var bytes: seq<Byte>, written: nat := [], 0;
    for i := 0 to chunks
      invariant forall k: nat | k < i :: s.chunk(k).Found? && s.write(k).Works?
      invariant bytes == Assembled(s.chunk, i) && written == Saturated(|bytes|) && written <= totalBytes
    {
      if !s.chunk(i).Found? { return Failed, Some(bytes); }
      var data := s.chunk(i).data;
      AssembledGrows(s.chunk, i + 1, chunks);
      written := Saturated(written + |data|);
      if written > totalBytes { return Failed, Some(bytes); }
      if !s.write(i).Works? {
        var kept := if s.torn(i) <= |data| then s.torn(i) else |data|;
        return if s.write(i).Dies? then Crashed else Failed, Some(bytes + data[..kept]);
      }
      bytes := bytes + data;
    }
    file := Some(bytes);
    if s.flush.Dies? { return Crashed, file; }
    if s.flush.Errs? || written != totalBytes || hash(bytes) != sha256 { return Failed, file; }
    v := Succeeded;
  }
}
