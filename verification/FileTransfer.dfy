/**
 Cutting a file into chunks and putting it together again, in order or resumed in any order.
 A file is its bytes; a read may return fewer bytes than asked for, but none only at the end.
 xxHash64 and SHA-256 are parameters; a SHA-256 hasher is the bytes it has absorbed.
 */
module FileTransfer {
  import opened Wrappers
  import opened Clipboard

  datatype Chunk = Chunk(fileIndex: nat, chunkIndex: nat, data: seq<byte>, checksum: u64, isLast: bool)

  type Digest = seq<byte>
  type Sha = seq<byte> -> Digest

  const READ_BUFFER := 64 * 1024

  function Joined(chunks: seq<Chunk>): seq<byte> {
    if chunks == [] then [] else Joined(chunks[..|chunks| - 1]) + chunks[|chunks| - 1].data
  }

  /** What FileChunker promises of one chunk among the others. */
  predicate WellCut(h: HashFn, fileIndex: nat, chunkSize: nat, chunks: seq<Chunk>, i: nat)
    requires i < |chunks|
  {
    var c := chunks[i];
    && c.fileIndex == fileIndex && c.chunkIndex == i
    && 0 < |c.data| <= chunkSize
    && c.checksum == h(c.data)
    && (c.isLast <==> i == |chunks| - 1)
  }

  /** One read into a buffer: some bytes, as many as fit at most, and none only at the end. */
  ghost predicate ReadReturns(room: nat, left: nat, n: nat) {
    n <= room && n <= left && (n == 0 ==> room == 0 || left == 0)
  }

  /** A read of unknown length. */
  method Read(room: nat, left: nat) returns (n: nat)
    ensures ReadReturns(room, left, n)
  {
    n :| 0 <= n <= room && n <= left && (n == 0 ==> room == 0 || left == 0);
  }

  method ReadChunks(h: HashFn, file: seq<byte>, fileIndex: nat, chunkSize: nat) returns (chunks: seq<Chunk>)
    ensures chunkSize > 0 ==> Joined(chunks) == file
    ensures chunkSize == 0 ==> chunks == []
    ensures forall i :: 0 <= i < |chunks| ==> WellCut(h, fileIndex, chunkSize, chunks, i)
  {
    chunks := [];
    var chunkIndex, bytesReadTotal := 0, 0;
    while true
      invariant bytesReadTotal <= |file| && chunkIndex == |chunks|
      invariant Joined(chunks) == file[..bytesReadTotal]
      invariant chunkSize == 0 ==> bytesReadTotal == 0 && chunks == []
      invariant forall i :: 0 <= i < |chunks| ==>
                  && chunks[i].fileIndex == fileIndex && chunks[i].chunkIndex == i
                  && 0 < |chunks[i].data| <= chunkSize && chunks[i].checksum == h(chunks[i].data)
                  && (chunks[i].isLast <==> i == |chunks| - 1 && bytesReadTotal == |file|)
      decreases |file| - bytesReadTotal
    {
      var bytesRead := Read(chunkSize, |file| - bytesReadTotal);
      if bytesRead == 0 { break; }
      var buffer := file[bytesReadTotal..bytesReadTotal + bytesRead];
      bytesReadTotal := bytesReadTotal + bytesRead;
      var isLast := bytesReadTotal >= |file|;
      ghost var before := chunks;
      chunks := chunks + [Chunk(fileIndex, chunkIndex, buffer, h(buffer), isLast)];
      assert chunks[..|chunks| - 1] == before;
      chunkIndex := chunkIndex + 1;
    }
    assert chunkSize > 0 ==> file[..bytesReadTotal] == file;
  }

  // ---------- the writer ----------

  datatype Writer = Writer(disk: seq<byte>, pos: nat, bytesWritten: nat, absorbed: seq<byte>, expectedSize: nat) {
    predicate IsComplete() {
      bytesWritten >= expectedSize
    }
  }

  function Zeros(n: nat): (z: seq<byte>)
    ensures |z| == n
  {
    seq(n, i => 0 as byte)
  }

  /** Writing data at a position: a gap before it reads as zeros, bytes behind it stay. */
  function Overwritten(disk: seq<byte>, pos: nat, data: seq<byte>): seq<byte> {
    if data == [] then disk
    else if |disk| < pos then disk + Zeros(pos - |disk|) + data
    else if pos + |data| < |disk| then disk[..pos] + data + disk[pos + |data|..]
    else disk[..pos] + data
  }

  function NewWriter(expectedSize: nat): Writer {
    Writer([], 0, 0, [], expectedSize)
  }

  /** An existing file of at least the expected size as it is, a shorter one extended. */
  function Extended(existing: Option<seq<byte>>, size: nat): seq<byte> {
    var disk := if existing.Some? then existing.value else [];
    if |disk| < size then disk + Zeros(size - |disk|) else disk
  }

  function ResumedWriter(existing: Option<seq<byte>>, expectedSize: nat, resumeOffset: nat): Writer {
    Writer(Extended(existing, expectedSize), 0, resumeOffset, [], expectedSize)
  }

  predicate Intact(h: HashFn, c: Chunk) {
    h(c.data) == c.checksum
  }

  /** A chunk whose checksum does not match leaves the writer as it was. */
  function ChunkWritten(h: HashFn, w: Writer, c: Chunk): Writer {
    if !Intact(h, c) then w
    else w.(disk := Overwritten(w.disk, w.pos, c.data), pos := w.pos + |c.data|,
            bytesWritten := w.bytesWritten + |c.data|, absorbed := w.absorbed + c.data)
  }

  function ChunkWrittenAt(h: HashFn, w: Writer, c: Chunk, offset: nat): Writer {
    if !Intact(h, c) then w
    else w.(disk := Overwritten(w.disk, offset, c.data), pos := offset + |c.data|,
            bytesWritten := w.bytesWritten + |c.data|)
  }

  class FileWriter {
    const h: HashFn
    const expectedSize: nat
    var disk: seq<byte>
    var pos: nat
    var bytesWritten: nat
    var absorbed: seq<byte>

    function View(): Writer
      reads this
    {
      Writer(disk, pos, bytesWritten, absorbed, expectedSize)
    }

    constructor New(h: HashFn, expectedSize: nat)
      ensures this.h == h && View() == NewWriter(expectedSize)
    {
      this.h := h;
      this.expectedSize := expectedSize;
      disk, pos, bytesWritten, absorbed := [], 0, 0, [];
    }

    constructor NewResumable(h: HashFn, existing: Option<seq<byte>>, expectedSize: nat, resumeOffset: nat)
      ensures this.h == h && View() == ResumedWriter(existing, expectedSize, resumeOffset)
    {
      this.h := h;
      this.expectedSize := expectedSize;
      var file := if existing.Some? then existing.value else [];
      if |file| < expectedSize {
        file := file + Zeros(expectedSize - |file|);
      }
      disk, pos, bytesWritten, absorbed := file, 0, resumeOffset, [];
    }

    method WriteChunk(c: Chunk) returns (ok: bool)
      modifies this
      ensures ok <==> h(c.data) == c.checksum
      ensures View() == ChunkWritten(h, old(View()), c)
    {
      if h(c.data) != c.checksum { return false; }
      disk := Overwritten(disk, pos, c.data);
      pos := pos + |c.data|;
      absorbed := absorbed + c.data;
      bytesWritten := bytesWritten + |c.data|;
      ok := true;
    }

    method WriteChunkAt(c: Chunk, offset: nat) returns (ok: bool)
      modifies this
      ensures ok <==> h(c.data) == c.checksum
      ensures View() == ChunkWrittenAt(h, old(View()), c, offset)
    {
      if h(c.data) != c.checksum { return false; }
      pos := offset;
      disk := Overwritten(disk, pos, c.data);
      pos := pos + |c.data|;
      bytesWritten := bytesWritten + |c.data|;
      ok := true;
    }

    method Finalize(sha: Sha) returns (digest: Digest)
      ensures digest == sha(absorbed)
    {
      digest := sha(absorbed);
    }

    /** Reads the whole file back, however the reads come out. */
    method FinalizeWithFullHash(sha: Sha) returns (digest: Digest)
      ensures digest == sha(disk)
    {
      var hashed, at := [], 0;
      while true
        invariant at <= |disk| && hashed == disk[..at]
        decreases |disk| - at
      {
        var n := Read(READ_BUFFER, |disk| - at);
        if n == 0 { break; }
        hashed := hashed + disk[at..at + n];
        at := at + n;
      }
      assert disk[..at] == disk;
      digest := sha(hashed);
    }
  }

  // ---------- in order ----------

  function AllWritten(h: HashFn, w: Writer, chunks: seq<Chunk>): Writer
    decreases |chunks|
  {
    if chunks == [] then w
    else ChunkWritten(h, AllWritten(h, w, chunks[..|chunks| - 1]), chunks[|chunks| - 1])
  }

  lemma {:induction false} WrittenInOrder(h: HashFn, expectedSize: nat, chunks: seq<Chunk>)
    requires forall i :: 0 <= i < |chunks| ==> Intact(h, chunks[i])
    ensures AllWritten(h, NewWriter(expectedSize), chunks) ==
            var bytes := Joined(chunks); Writer(bytes, |bytes|, |bytes|, bytes, expectedSize)
    decreases |chunks|
  {
    if chunks != [] {
      var n := |chunks| - 1;
      WrittenInOrder(h, expectedSize, chunks[..n]);
      var bytes := Joined(chunks[..n]);
      assert bytes[..|bytes|] == bytes;
    }
  }

  /** Chunks however cut, written in order, give the file back; the running hash is the whole
      file's; and the writer is complete after the last chunk and not before. */
  lemma ChunksRoundTrip(h: HashFn, sha: Sha, file: seq<byte>, fileIndex: nat, chunkSize: nat, chunks: seq<Chunk>, m: nat)
    requires chunkSize > 0 && Joined(chunks) == file && m <= |chunks|
    requires forall i :: 0 <= i < |chunks| ==> WellCut(h, fileIndex, chunkSize, chunks, i)
    ensures var w := AllWritten(h, NewWriter(|file|), chunks);
            w.disk == file && w.bytesWritten == |file| && sha(w.absorbed) == sha(w.disk) == sha(file)
    ensures AllWritten(h, NewWriter(|file|), chunks[..m]).IsComplete() <==> m == |chunks|
  {
    forall i | 0 <= i < |chunks|
      ensures Intact(h, chunks[i]) && |chunks[i].data| > 0
    {
      assert WellCut(h, fileIndex, chunkSize, chunks, i);
    }
    WrittenInOrder(h, |file|, chunks);
    WrittenInOrder(h, |file|, chunks[..m]);
    JoinedGrows(chunks, m);
    assert m == |chunks| ==> chunks[..m] == chunks;
  }

  lemma {:induction false} JoinedGrows(chunks: seq<Chunk>, m: nat)
    requires m <= |chunks| && forall i :: 0 <= i < |chunks| ==> |chunks[i].data| > 0
    ensures m < |chunks| ==> |Joined(chunks[..m])| < |Joined(chunks)|
    decreases |chunks|
  {
    if m < |chunks| {
      var n := |chunks| - 1;
      JoinedGrows(chunks[..n], m);
      assert chunks[..n][..m] == chunks[..m];
      assert m == n ==> chunks[..m] == chunks[..n];
    }
  }

  // ---------- resumed, in any order ----------

  /** Chunk k of a file cut into pieces of c bytes starts at k * c, or at the end of the file. */
  function Lo(size: nat, c: nat, k: nat): (lo: nat)
    ensures lo <= size
  {
    if k == 0 then 0
    else if Lo(size, c, k - 1) + c < size then Lo(size, c, k - 1) + c
    else size
  }

  function Hi(size: nat, c: nat, k: nat): (hi: nat)
    ensures Lo(size, c, k) <= hi <= size
  {
    Lo(size, c, k + 1)
  }

  function Piece(file: seq<byte>, c: nat, k: nat): seq<byte> {
    file[Lo(|file|, c, k)..Hi(|file|, c, k)]
  }

  /** The file has n chunks, none of them empty. */
  predicate HasChunks(size: nat, c: nat, n: nat) {
    Lo(size, c, n) == size && (n > 0 ==> Lo(size, c, n - 1) < size)
  }

  lemma {:induction false} LoIsProduct(size: nat, c: nat, k: nat)
    ensures Lo(size, c, k) == if k * c < size then k * c else size
  {
    if k > 0 {
      LoIsProduct(size, c, k - 1);
      assert k * c == (k - 1) * c + c;
    }
  }

  lemma {:induction false} LoGrows(size: nat, c: nat, j: nat, k: nat)
    requires j <= k
    ensures Lo(size, c, j) <= Lo(size, c, k)
    ensures j < k ==> Hi(size, c, j) <= Lo(size, c, k)
    decreases k
  {
    if j < k {
      LoGrows(size, c, j, k - 1);
    }
  }

  lemma PieceIsNotEmpty(size: nat, c: nat, n: nat, k: nat)
    requires c > 0 && HasChunks(size, c, n) && k < n
    ensures Lo(size, c, k) == k * c < Hi(size, c, k)
  {
    LoGrows(size, c, k, n - 1);
    LoIsProduct(size, c, k);
  }

  predicate IsPiece(h: HashFn, file: seq<byte>, c: nat, n: nat, chunk: Chunk) {
    chunk.chunkIndex < n && chunk.data == Piece(file, c, chunk.chunkIndex) && Intact(h, chunk)
  }

  function AllWrittenAt(h: HashFn, w: Writer, c: nat, chunks: seq<Chunk>): Writer
    decreases |chunks|
  {
    if chunks == [] then w
    else
      var chunk := chunks[|chunks| - 1];
      ChunkWrittenAt(h, AllWrittenAt(h, w, c, chunks[..|chunks| - 1]), chunk, chunk.chunkIndex * c)
  }

  function Indices(chunks: seq<Chunk>): set<nat> {
    if chunks == [] then {} else Indices(chunks[..|chunks| - 1]) + {chunks[|chunks| - 1].chunkIndex}
  }

  /** Chunks of the file, no two of them the same and none of them held already. */
  predicate NewPieces(h: HashFn, file: seq<byte>, c: nat, n: nat, have: set<nat>, chunks: seq<Chunk>) {
    chunks == [] ||
    (var before, chunk := chunks[..|chunks| - 1], chunks[|chunks| - 1];
     && IsPiece(h, file, c, n, chunk) && chunk.chunkIndex !in have + Indices(before)
     && NewPieces(h, file, c, n, have, before))
  }

  ghost predicate Holds(file: seq<byte>, c: nat, disk: seq<byte>, have: set<nat>) {
    |disk| >= |file| && forall k :: k in have ==> disk[Lo(|file|, c, k)..Hi(|file|, c, k)] == Piece(file, c, k)
  }

  /** How many bytes the chunks below n that are in the set make up. */
  function Total(size: nat, c: nat, n: nat, have: set<nat>): nat {
    if n == 0 then 0
    else Total(size, c, n - 1, have) + if n - 1 in have then Hi(size, c, n - 1) - Lo(size, c, n - 1) else 0
  }

  lemma {:induction false} TotalWithOneMore(size: nat, c: nat, n: nat, have: set<nat>, x: nat)
    requires x !in have
    ensures Total(size, c, n, have + {x}) ==
            Total(size, c, n, have) + if x < n then Hi(size, c, x) - Lo(size, c, x) else 0
  {
    if n > 0 {
      TotalWithOneMore(size, c, n - 1, have, x);
    }
  }

  lemma {:induction false} TotalOfAll(size: nat, c: nat, n: nat, have: set<nat>)
    requires forall k: nat :: k < n ==> k in have
    ensures Total(size, c, n, have) == Lo(size, c, n)
  {
    if n > 0 {
      TotalOfAll(size, c, n - 1, have);
    }
  }

  lemma WritingKeepsOtherPieces(disk: seq<byte>, data: seq<byte>, at: nat, lo: nat, hi: nat)
    requires lo <= hi <= |disk| && data != [] && at + |data| <= |disk|
    requires hi <= at || at + |data| <= lo
    ensures |Overwritten(disk, at, data)| == |disk|
    ensures Overwritten(disk, at, data)[lo..hi] == disk[lo..hi]
    ensures Overwritten(disk, at, data)[at..at + |data|] == data
  {
  }

  lemma HoldsOneMore(h: HashFn, file: seq<byte>, c: nat, n: nat, w: Writer, have: set<nat>, chunk: Chunk)
    requires c > 0 && HasChunks(|file|, c, n) && IsPiece(h, file, c, n, chunk) && Holds(file, c, w.disk, have)
    ensures var v := ChunkWrittenAt(h, w, chunk, chunk.chunkIndex * c);
            && Holds(file, c, v.disk, have + {chunk.chunkIndex})
            && |v.disk| == |w.disk| && v.disk[|file|..] == w.disk[|file|..]
  {
    var x := chunk.chunkIndex;
    PieceIsNotEmpty(|file|, c, n, x);
    var v := ChunkWrittenAt(h, w, chunk, x * c);
    WritingKeepsOtherPieces(w.disk, chunk.data, x * c, |file|, |w.disk|);
    forall k | k in have + {x}
      ensures v.disk[Lo(|file|, c, k)..Hi(|file|, c, k)] == Piece(file, c, k)
    {
      if k != x {
        if k < x { LoGrows(|file|, c, k, x); } else { LoGrows(|file|, c, x, k); }
        WritingKeepsOtherPieces(w.disk, chunk.data, x * c, Lo(|file|, c, k), Hi(|file|, c, k));
      }
    }
  }

  ghost predicate Started(h: HashFn, file: seq<byte>, c: nat, n: nat, w: Writer, have: set<nat>, chunks: seq<Chunk>) {
    && c > 0 && HasChunks(|file|, c, n) && w.expectedSize == |file|
    && Holds(file, c, w.disk, have) && w.bytesWritten == Total(|file|, c, n, have)
    && NewPieces(h, file, c, n, have, chunks)
  }

  /** Every chunk written so far is held, its bytes are counted, and nothing behind the file moves. */
  lemma {:induction false} ProgressIsKept(h: HashFn, file: seq<byte>, c: nat, n: nat, w: Writer, have: set<nat>, chunks: seq<Chunk>)
    requires Started(h, file, c, n, w, have, chunks)
    ensures var v := AllWrittenAt(h, w, c, chunks);
            && Holds(file, c, v.disk, have + Indices(chunks))
            && v.bytesWritten == Total(|file|, c, n, have + Indices(chunks))
            && v.expectedSize == |file|
            && |v.disk| == |w.disk| && v.disk[|file|..] == w.disk[|file|..]
    decreases |chunks|
  {
    if chunks == [] {
      assert have + Indices(chunks) == have;
    } else {
      var before, chunk := chunks[..|chunks| - 1], chunks[|chunks| - 1];
      ProgressIsKept(h, file, c, n, w, have, before);
      var held := have + Indices(before);
      assert have + Indices(chunks) == held + {chunk.chunkIndex};
      HoldsOneMore(h, file, c, n, AllWrittenAt(h, w, c, before), held, chunk);
      TotalWithOneMore(|file|, c, n, held, chunk.chunkIndex);
    }
  }

  lemma JoinSlices(s: seq<byte>, t: seq<byte>, lo: nat, hi: nat)
    requires lo <= hi <= |s| && hi <= |t| && s[..lo] == t[..lo] && s[lo..hi] == t[lo..hi]
    ensures s[..hi] == t[..hi]
  {
    assert s[..hi] == s[..lo] + s[lo..hi];
    assert t[..hi] == t[..lo] + t[lo..hi];
  }

  lemma {:induction false} HoldingAllIsThePrefix(file: seq<byte>, c: nat, disk: seq<byte>, k: nat, have: set<nat>)
    requires Holds(file, c, disk, have) && forall j: nat :: j < k ==> j in have
    ensures disk[..Lo(|file|, c, k)] == file[..Lo(|file|, c, k)]
  {
    if k > 0 {
      hide Lo;
      HoldingAllIsThePrefix(file, c, disk, k - 1, have);
      var lo, hi := Lo(|file|, c, k - 1), Hi(|file|, c, k - 1);
      JoinSlices(disk, file, lo, hi);
    }
  }

  lemma {:induction false} EveryChunkCounts(h: HashFn, file: seq<byte>, c: nat, n: nat, w: Writer, have: set<nat>,
                                            chunks: seq<Chunk>, m: nat)
    requires Started(h, file, c, n, w, have, chunks) && m <= |chunks|
    ensures m < |chunks| ==> AllWrittenAt(h, w, c, chunks[..m]).bytesWritten < AllWrittenAt(h, w, c, chunks).bytesWritten
    decreases |chunks|
  {
    if m < |chunks| {
      var before, chunk := chunks[..|chunks| - 1], chunks[|chunks| - 1];
      EveryChunkCounts(h, file, c, n, w, have, before, m);
      PieceIsNotEmpty(|file|, c, n, chunk.chunkIndex);
      assert before[..m] == chunks[..m];
      assert m == |before| ==> chunks[..m] == before;
    }
  }

  lemma {:induction false} FoldKeepsExpectedSize(h: HashFn, w: Writer, c: nat, chunks: seq<Chunk>)
    ensures AllWrittenAt(h, w, c, chunks).expectedSize == w.expectedSize
    ensures AllWrittenAt(h, w, c, chunks).absorbed == w.absorbed
    decreases |chunks|
  {
    if chunks != [] {
      FoldKeepsExpectedSize(h, w, c, chunks[..|chunks| - 1]);
    }
  }

  ghost predicate Completes(n: nat, have: set<nat>, chunks: seq<Chunk>) {
    forall k: nat :: k < n ==> k in have + Indices(chunks)
  }

  lemma AllHeldIsTheFile(h: HashFn, file: seq<byte>, c: nat, n: nat, w: Writer, have: set<nat>, chunks: seq<Chunk>)
    requires Started(h, file, c, n, w, have, chunks) && Completes(n, have, chunks)
    ensures var v := AllWrittenAt(h, w, c, chunks);
            v.disk == file + w.disk[|file|..] && v.bytesWritten == |file|
  {
    hide AllWrittenAt, Total;
    var v := AllWrittenAt(h, w, c, chunks);
    ProgressIsKept(h, file, c, n, w, have, chunks);
    TotalOfAll(|file|, c, n, have + Indices(chunks));
    HoldingAllIsThePrefix(file, c, v.disk, n, have + Indices(chunks));
    assert v.disk == v.disk[..|file|] + v.disk[|file|..];
    assert file[..|file|] == file;
  }

  lemma StartedCompletes(h: HashFn, file: seq<byte>, c: nat, n: nat, w: Writer, have: set<nat>, chunks: seq<Chunk>, m: nat)
    requires Started(h, file, c, n, w, have, chunks) && Completes(n, have, chunks) && m <= |chunks|
    ensures AllWrittenAt(h, w, c, chunks).bytesWritten == |file|
    ensures AllWrittenAt(h, w, c, chunks[..m]).IsComplete() <==> m == |chunks|
  {
    hide AllWrittenAt, Total;
    AllHeldIsTheFile(h, file, c, n, w, have, chunks);
    EveryChunkCounts(h, file, c, n, w, have, chunks, m);
    assert m == |chunks| ==> chunks[..m] == chunks;
    FoldKeepsExpectedSize(h, w, c, chunks[..m]);
  }

  /** An interrupted transfer: the existing file, extended, holds some chunks, and these are others. */
  ghost predicate Interrupted(h: HashFn, file: seq<byte>, c: nat, n: nat, existing: Option<seq<byte>>, have: set<nat>,
                              chunks: seq<Chunk>)
  {
    && c > 0 && HasChunks(|file|, c, n)
    && Holds(file, c, Extended(existing, |file|), have)
    && NewPieces(h, file, c, n, have, chunks)
  }

  /** The resumed writer starts as the results need it to: with the chunks held, counted. */
  lemma ResumedIsStarted(h: HashFn, file: seq<byte>, c: nat, n: nat, existing: Option<seq<byte>>, resumeOffset: nat,
                         have: set<nat>, chunks: seq<Chunk>)
    requires Interrupted(h, file, c, n, existing, have, chunks) && resumeOffset == Total(|file|, c, n, have)
    ensures Started(h, file, c, n, ResumedWriter(existing, |file|, resumeOffset), have, chunks)
    ensures ResumedWriter(existing, |file|, resumeOffset).bytesWritten == resumeOffset
  {
    hide Extended, Holds, NewPieces, Total;
  }

  /** Resuming with any chunks already held, from the offset their sizes add up to, and writing the
      others once each, in any order: the writer counts every byte and is complete after the last chunk
      and not before. */
  lemma ResumeCompletesWithTheLastChunk(h: HashFn, file: seq<byte>, c: nat, n: nat, existing: Option<seq<byte>>,
                                        resumeOffset: nat, have: set<nat>, chunks: seq<Chunk>, m: nat)
    requires Interrupted(h, file, c, n, existing, have, chunks) && resumeOffset == Total(|file|, c, n, have)
    requires Completes(n, have, chunks) && m <= |chunks|
    ensures var w := ResumedWriter(existing, |file|, resumeOffset);
            && AllWrittenAt(h, w, c, chunks).bytesWritten == |file|
            && (AllWrittenAt(h, w, c, chunks[..m]).IsComplete() <==> m == |chunks|)
  {
    hide AllWrittenAt, Total, Started, Completes, Interrupted, ResumedWriter;
    ResumedIsStarted(h, file, c, n, existing, resumeOffset, have, chunks);
    StartedCompletes(h, file, c, n, ResumedWriter(existing, |file|, resumeOffset), have, chunks, m);
  }

  /** The file is then the original, followed by whatever an over-long existing file had behind it:
      nothing ever cuts the file back, so it is the original exactly when it was not too long. The
      running hash has absorbed none of it. */
  lemma ResumeInAnyOrder(h: HashFn, sha: Sha, file: seq<byte>, c: nat, n: nat, existing: Option<seq<byte>>,
                         resumeOffset: nat, have: set<nat>, chunks: seq<Chunk>)
    requires Interrupted(h, file, c, n, existing, have, chunks) && resumeOffset == Total(|file|, c, n, have)
    requires Completes(n, have, chunks)
    ensures var v := AllWrittenAt(h, ResumedWriter(existing, |file|, resumeOffset), c, chunks);
            && v.disk == file + (if existing.Some? && |existing.value| > |file| then existing.value[|file|..] else [])
            && (v.disk == file <==> existing.None? || |existing.value| <= |file|)
            && (existing.None? || |existing.value| <= |file| ==> sha(v.disk) == sha(file))
            && v.absorbed == []
  {
    hide AllWrittenAt, Total, Started, Completes, Interrupted;
    var w := ResumedWriter(existing, |file|, resumeOffset);
    ResumedIsStarted(h, file, c, n, existing, resumeOffset, have, chunks);
    AllHeldIsTheFile(h, file, c, n, w, have, chunks);
    var tail := w.disk[|file|..];
    assert existing.None? || |existing.value| <= |file| ==> tail == [];
    assert file + [] == file;
    FoldKeepsExpectedSize(h, w, c, chunks);
  }

  /** Byte by byte: what writing at a position does, a gap before it included. */
  lemma OverwrittenAt(disk: seq<byte>, pos: nat, data: seq<byte>, i: nat)
    requires data != []
    ensures |Overwritten(disk, pos, data)| == if |disk| > pos + |data| then |disk| else pos + |data|
    ensures i < |Overwritten(disk, pos, data)| ==>
              Overwritten(disk, pos, data)[i] ==
              if pos <= i < pos + |data| then data[i - pos] else if i < |disk| then disk[i] else 0
  {
  }

  /** Byte by byte: what a resuming writer finds. */
  lemma ExtendedAt(existing: seq<byte>, size: nat, i: nat)
    ensures |Extended(Some(existing), size)| == if |existing| > size then |existing| else size
    ensures i < |Extended(Some(existing), size)| ==> Extended(Some(existing), size)[i] == if i < |existing| then existing[i] else 0
    ensures Extended(None, size) == Extended(Some([]), size)
  {
  }

  /** A chunk whose checksum is not the hash of its data is refused without a trace; any other is
      written where it belongs, and a chunk written in order after it lands right behind it. */
  lemma ChecksumDecides(h: HashFn, w: Writer, c: Chunk, next: Chunk, offset: nat)
    ensures h(c.data) != c.checksum ==> ChunkWritten(h, w, c) == w && ChunkWrittenAt(h, w, c, offset) == w
    ensures h(c.data) == c.checksum && h(next.data) == next.checksum && c.data != [] && next.data != [] ==>
              ChunkWritten(h, ChunkWrittenAt(h, w, c, offset), next).disk ==
              Overwritten(w.disk, offset, c.data + next.data)
  {
    if h(c.data) == c.checksum && h(next.data) == next.checksum && c.data != [] && next.data != [] {
      OverwrittenTwice(w.disk, offset, c.data, next.data);
    }
  }

  lemma OverwrittenTwice(disk: seq<byte>, pos: nat, first: seq<byte>, second: seq<byte>)
    requires first != [] && second != []
    ensures Overwritten(Overwritten(disk, pos, first), pos + |first|, second) == Overwritten(disk, pos, first + second)
  {
    var once := Overwritten(disk, pos, first);
    var twice, whole := Overwritten(once, pos + |first|, second), Overwritten(disk, pos, first + second);
    OverwrittenAt(disk, pos, first, 0);
    OverwrittenAt(once, pos + |first|, second, 0);
    OverwrittenAt(disk, pos, first + second, 0);
    forall i | 0 <= i < |whole|
      ensures twice[i] == whole[i]
    {
      OverwrittenAt(disk, pos, first, i);
      OverwrittenAt(once, pos + |first|, second, i);
      OverwrittenAt(disk, pos, first + second, i);
    }
  }

  // ---------- what a resumed transfer asks of the reads ----------

  /** Every read but the last filled the buffer. */
  predicate FullReads(c: nat, chunks: seq<Chunk>) {
    forall i :: 0 <= i < |chunks| - 1 ==> |chunks[i].data| == c
  }

  lemma {:induction false} StartOfChunk(c: nat, chunks: seq<Chunk>, i: nat)
    requires i <= |chunks| && forall j :: 0 <= j < i ==> |chunks[j].data| == c
    ensures |Joined(chunks[..i])| == i * c
  {
    if i > 0 {
      StartOfChunk(c, chunks, i - 1);
      assert chunks[..i][..i - 1] == chunks[..i - 1];
      assert (i - 1) * c + c == i * c;
    }
  }

  lemma JoinedNext(chunks: seq<Chunk>, i: nat)
    requires i < |chunks|
    ensures Joined(chunks[..i + 1]) == Joined(chunks[..i]) + chunks[i].data
  {
    assert chunks[..i + 1][..i] == chunks[..i];
  }

  /** Placing chunk i at i * c is right for every chunk exactly when no read but the last was short:
      a cut that ReadChunks may make and WriteChunk puts together again, WriteChunkAt may misplace. */
  lemma OffsetsNeedFullReads(c: nat, chunks: seq<Chunk>)
    ensures (forall i :: 0 <= i < |chunks| ==> |Joined(chunks[..i])| == i * c) <==> FullReads(c, chunks)
  {
    if FullReads(c, chunks) {
      forall i | 0 <= i < |chunks|
        ensures |Joined(chunks[..i])| == i * c
      {
        StartOfChunk(c, chunks, i);
      }
    } else {
      var i :| 0 <= i < |chunks| - 1 && |chunks[i].data| != c;
      JoinedNext(chunks, i);
      assert i * c + c == (i + 1) * c;
      assert |Joined(chunks[..i])| != i * c || |Joined(chunks[..i + 1])| != (i + 1) * c;
    }
  }

  lemma {:induction false} ChunkInPlace(chunks: seq<Chunk>, i: nat)
    requires i < |chunks|
    ensures |Joined(chunks[..i])| + |chunks[i].data| <= |Joined(chunks)|
    ensures Joined(chunks)[|Joined(chunks[..i])|..][..|chunks[i].data|] == chunks[i].data
    decreases |chunks|
  {
    var n := |chunks| - 1;
    if i == n {
      assert chunks[..i] == chunks[..n];
    } else {
      ChunkInPlace(chunks[..n], i);
      assert chunks[..n][..i] == chunks[..i];
      TakeFromLonger(Joined(chunks[..n]), chunks[n].data, |Joined(chunks[..i])|, |chunks[i].data|);
    }
  }

  lemma TakeFromLonger(s: seq<byte>, t: seq<byte>, at: nat, n: nat)
    requires at + n <= |s|
    ensures (s + t)[at..][..n] == s[at..][..n]
  {
  }

  lemma PlaceOfChunk(size: nat, c: nat, i: nat, length: nat, isLast: bool)
    requires 0 < length <= c && i * c + length <= size
    requires if isLast then i * c + length == size else length == c
    ensures Lo(size, c, i) == i * c && Hi(size, c, i) == i * c + length
  {
    LoIsProduct(size, c, i);
  }

  /** Full reads give ResumeInAnyOrder the chunks it asks for. */
  lemma FullReadsGivePieces(h: HashFn, fileIndex: nat, c: nat, chunks: seq<Chunk>, i: nat)
    requires i < |chunks| && FullReads(c, chunks)
    requires forall j :: 0 <= j < |chunks| ==> WellCut(h, fileIndex, c, chunks, j)
    ensures IsPiece(h, Joined(chunks), c, |chunks|, chunks[i])
    ensures i == |chunks| - 1 ==> HasChunks(|Joined(chunks)|, c, |chunks|)
  {
    hide Lo, Hi, HasChunks;
    var file, at, length := Joined(chunks), i * c, |chunks[i].data|;
    assert WellCut(h, fileIndex, c, chunks, i);
    StartOfChunk(c, chunks, i);
    ChunkInPlace(chunks, i);
    if i == |chunks| - 1 {
      assert chunks[..i] + [chunks[i]] == chunks;
    }
    PlaceOfChunk(|file|, c, i, length, i == |chunks| - 1);
    assert file[at..][..length] == file[at..at + length];
    if i == |chunks| - 1 {
      CountOfChunks(|file|, c, i, length);
    }
  }

  lemma CountOfChunks(size: nat, c: nat, i: nat, length: nat)
    requires 0 < length <= c && i * c + length == size
    ensures HasChunks(size, c, i + 1)
  {
    LoIsProduct(size, c, i);
  }

  lemma {:induction false} PiecesInOrder(h: HashFn, file: seq<byte>, c: nat, n: nat, chunks: seq<Chunk>)
    requires forall i :: 0 <= i < |chunks| ==> chunks[i].chunkIndex == i && IsPiece(h, file, c, n, chunks[i])
    ensures NewPieces(h, file, c, n, {}, chunks)
    ensures forall k: nat :: k in Indices(chunks) <==> k < |chunks|
  {
    hide IsPiece;
    if chunks != [] {
      PiecesInOrder(h, file, c, n, chunks[..|chunks| - 1]);
    }
  }

  lemma {:induction false} TotalOfNone(size: nat, c: nat, n: nat)
    ensures Total(size, c, n, {}) == 0
  {
    if n > 0 {
      TotalOfNone(size, c, n - 1);
    }
  }

  /** From end to end: a file cut with full reads, each chunk written at its index times the chunk
      size over whatever was there, is that file, followed by what lay behind its end. */
  lemma CutThenWrittenAt(h: HashFn, fileIndex: nat, c: nat, chunks: seq<Chunk>, existing: Option<seq<byte>>)
    requires c > 0 && FullReads(c, chunks)
    requires forall j :: 0 <= j < |chunks| ==> WellCut(h, fileIndex, c, chunks, j)
    ensures var file := Joined(chunks);
            AllWrittenAt(h, ResumedWriter(existing, |file|, 0), c, chunks).disk ==
            file + (if existing.Some? && |existing.value| > |file| then existing.value[|file|..] else [])
  {
    hide AllWrittenAt, Total, Indices, NewPieces, IsPiece, Lo, Hi;
    var file, n := Joined(chunks), |chunks|;
    forall j | 0 <= j < n
      ensures IsPiece(h, file, c, n, chunks[j]) && chunks[j].chunkIndex == j
    {
      assert WellCut(h, fileIndex, c, chunks, j);
      FullReadsGivePieces(h, fileIndex, c, chunks, j);
    }
    assert HasChunks(|file|, c, n) by {
      if n > 0 { FullReadsGivePieces(h, fileIndex, c, chunks, n - 1); } else { NoChunks(c); }
    }
    PiecesInOrder(h, file, c, n, chunks);
    TotalOfNone(|file|, c, n);
    assert Holds(file, c, Extended(existing, |file|), {});
    ResumeInAnyOrder(h, bytes => bytes, file, c, n, existing, 0, {}, chunks);
  }

  lemma NoChunks(c: nat)
    ensures HasChunks(0, c, 0)
  {
  }
}
