/** Chunking, the manifest's shape, and downloading, of files.go. Hex digests are compared as the
digests they spell. */
module Files {
  import opened Bytes
  import MerkleRoot

  const MAX_FILE_SIZE: nat := 0x4000_0000
  const MAX_CHUNK_COUNT: nat := MAX_FILE_SIZE / 4096
  /** httpbody.Chunk: the most of a chunk a download reads. */
  const CHUNK_CAP: nat := 0x20_0000
  const DEFAULT_CHUNK_SIZE: nat := 262144

  datatype Manifest =
    Manifest(totalSize: U64, chunkCount: U32, chunkSize: U32, chunkMerkleRoot: Digest, contentHash: Digest)

  // ----- the shape of a manifest

  function CeilDiv(n: nat, d: nat): nat
    requires d > 0
  {
    (n + d - 1) / d
  }

  /** Products of a count and a size. */
  function Times(n: nat, size: nat): nat { n * size }

  lemma TimesNext(n: nat, size: nat)
    ensures Times(n + 1, size) == Times(n, size) + size
  {
  }

  lemma TimesGrows(a: nat, b: nat, size: nat)
    requires a <= b
    ensures Times(a, size) <= Times(b, size)
  {
    assert b * size - a * size == (b - a) * size;
  }

  lemma TimesFits(count: nat, size: U32)
    requires count <= MAX_CHUNK_COUNT
    ensures Times(count, size) < TWO64
  {
    TimesGrows(count, MAX_CHUNK_COUNT, size);
  }

  /** checkFileShape, in u64 arithmetic: the products are taken modulo 2^64. */
  predicate CheckFileShape(m: Manifest) {
    if m.totalSize == 0 || m.totalSize > MAX_FILE_SIZE then false
    else if m.chunkCount == 0 || m.chunkCount > MAX_CHUNK_COUNT then false
    else !(|| m.totalSize > Times(m.chunkCount, m.chunkSize) % TWO64
           || m.totalSize <= Times(m.chunkCount - 1, m.chunkSize) % TWO64)
  }

  /** It accepts exactly the manifests within the chain's limits whose chunk count is the ceiling of
      total over chunk size; no product wraps. */
  lemma ShapeIsCeiling(m: Manifest)
    ensures CheckFileShape(m) <==>
      && 1 <= m.totalSize <= 0x4000_0000
      && 1 <= m.chunkCount <= 262144
      && m.chunkSize > 0 && m.chunkCount == CeilDiv(m.totalSize, m.chunkSize)
  {
    hide CeilDiv, Times;
    if 1 <= m.totalSize <= MAX_FILE_SIZE && 1 <= m.chunkCount <= MAX_CHUNK_COUNT {
      TimesFits(m.chunkCount, m.chunkSize);
      TimesFits(m.chunkCount - 1, m.chunkSize);
      if m.chunkSize > 0 {
        CountIsCeiling(m.totalSize, m.chunkCount, m.chunkSize);
      } else {
        NoSize(m.chunkCount);
      }
    }
  }

  lemma NoSize(count: nat)
    ensures Times(count, 0) == 0
  {
  }

  lemma CeilBounds(total: nat, size: nat)
    requires size > 0
    ensures Times(CeilDiv(total, size), size) <= total + size - 1 < Times(CeilDiv(total, size), size) + size
  {
    var t := total + size - 1;
    assert t == t / size * size + t % size;
  }

  /** A count is the ceiling exactly when that many chunks hold the total and one fewer do not. */
  lemma CountIsCeiling(total: nat, count: nat, size: nat)
    requires size > 0 && total > 0 && count > 0
    ensures count == CeilDiv(total, size) <==> Times(count - 1, size) < total <= Times(count, size)
  {
    var q := CeilDiv(total, size);
    CeilBounds(total, size);
    hide CeilDiv, Times;
    TimesNext(count - 1, size);
    if count < q {
      TimesGrows(count + 1, q, size);
      TimesNext(count, size);
    } else if count > q {
      TimesGrows(q, count - 1, size);
    }
  }

  // ----- chunks

  function Chunks(data: Bytes, size: nat): seq<Bytes>
    requires size > 0
  {
    if |data| <= size then (if data == [] then [] else [data])
    else [data[..size]] + Chunks(data[size..], size)
  }

  method ChunkData(data: Bytes, size: nat) returns (chunks: seq<Bytes>)
    requires size > 0
    ensures chunks == Chunks(data, size)
  {
    chunks := [];
    var i := 0;
    assert data[0..] == data;
    while i < |data|
      invariant 0 <= i && chunks + (if i <= |data| then Chunks(data[i..], size) else []) == Chunks(data, size)
      decreases |data| - i
    {
      var end := i + size;
      if end > |data| { end := |data|; }
      ghost var left := data[i..];
      assert data[i..end] == if |left| <= size then left else left[..size];
      if |left| > size { assert left[size..] == data[i + size..]; }
      chunks := chunks + [data[i..end]];
      i := i + size;
    }
  }

  function Joined(chunks: seq<Bytes>): Bytes {
    if chunks == [] then [] else chunks[0] + Joined(chunks[1..])
  }

  lemma {:induction false} ChunksJoin(data: Bytes, size: nat)
    requires size > 0
    ensures Joined(Chunks(data, size)) == data
    decreases |data|
  {
    if |data| > size {
      ChunksJoin(data[size..], size);
      assert Chunks(data, size)[1..] == Chunks(data[size..], size);
    } else if data != [] {
      assert [data][1..] == [];
    }
  }

  /** Every chunk but the last is of the chunk size, and the last holds what is left. */
  lemma {:induction false} ChunkLengths(data: Bytes, size: nat)
    requires size > 0 && data != []
    ensures var cs := Chunks(data, size);
            && cs != [] && Times(|cs| - 1, size) < |data| <= Times(|cs|, size)
            && (forall i :: 0 <= i < |cs| - 1 ==> |cs[i]| == size)
            && |cs[|cs| - 1]| == |data| - Times(|cs| - 1, size)
    decreases |data|
  {
    if |data| <= size {
      OneChunk(size);
    } else {
      var cs, rest := Chunks(data, size), Chunks(data[size..], size);
      assert cs == [data[..size]] + rest;
      ChunkLengths(data[size..], size);
      hide Chunks, Times;
      TimesNext(|rest| - 1, size);
      TimesNext(|rest|, size);
      assert cs[|cs| - 1] == rest[|rest| - 1];
    }
  }

  lemma OneChunk(size: nat)
    ensures Times(0, size) == 0 && Times(1, size) == size
  {
  }

  // ----- a download

  /** What the storage node answers for a chunk: its bytes, or a failed request. */
  type Server = nat -> Result<Bytes>

  /** The length the manifest makes a chunk. */
  function Want(m: Manifest, i: nat): nat {
    if i + 1 == m.chunkCount then (m.totalSize - Times(i, m.chunkSize)) % TWO64 else m.chunkSize
  }

  /** One chunk's body: at most one byte more than wanted is read of it, under the cap, and a longer
      one is refused. */
  function Fetch(body: Bytes, want: nat): Result<Bytes> {
    var chunk := if |body| > want + 1 then body[..want + 1] else body;
    if |chunk| > CHUNK_CAP || |chunk| > want then Err else Ok(chunk)
  }

  function Fetched(m: Manifest, serve: Server, i: nat): Result<seq<Bytes>>
    decreases m.chunkCount - i
  {
    if i >= m.chunkCount then Ok([])
    else
      var body :- serve(i);
      var chunk :- Fetch(body, Want(m, i));
      var rest :- Fetched(m, serve, i + 1);
      Ok([chunk] + rest)
  }

  function Hashes(H: Hash, chunks: seq<Bytes>): (hs: seq<Digest>)
    ensures |hs| == |chunks|
  {
    seq<Digest>(|chunks|, i requires 0 <= i < |chunks| => H(chunks[i]))
  }

  function Downloaded(H: Hash, m: Manifest, serve: Server): Result<Bytes>
  {
    if !CheckFileShape(m) then Err
    else
      var chunks :- Fetched(m, serve, 0);
      if MerkleRoot.Root(H, Hashes(H, chunks)) != m.chunkMerkleRoot || H(Joined(chunks)) != m.contentHash then Err
      else Ok(Joined(chunks))
  }

  /** The chunk loop, gathering the file and the chunk hashes. */
  method FetchAll(H: Hash, m: Manifest, serve: Server) returns (ok: bool, file: Bytes, hashes: seq<Digest>)
    ensures ok == Fetched(m, serve, 0).Ok?
    ensures ok ==> file == Joined(Fetched(m, serve, 0).value) && hashes == Hashes(H, Fetched(m, serve, 0).value)
  {
    hide Want, Fetch;
    file, hashes := [], [];
    ghost var got: seq<Bytes> := [];
    ghost var all := Fetched(m, serve, 0);
    if all.Ok? { assert got + all.value == all.value; }
    for i := 0 to m.chunkCount
      invariant file == Joined(got) && hashes == Hashes(H, got)
      invariant Split(all, got, Fetched(m, serve, i))
    {
      var body := serve(i);
      if body.Err? { return false, [], []; }
      var chunk := Fetch(body.value, Want(m, i));
      if chunk.Err? { return false, [], []; }
      hashes := hashes + [H(chunk.value)];
      file := file + chunk.value;
      JoinedAppend(got, chunk.value);
      SplitMore(all, got, chunk.value, Fetched(m, serve, i + 1));
      got := got + [chunk.value];
      assert hashes == Hashes(H, got);
    }
    ok := true;
    assert got + [] == got;
    assert all == Ok(got);
  }

  /** What was to be fetched is what has been, and what is left. */
  ghost predicate Split(all: Result<seq<Bytes>>, got: seq<Bytes>, left: Result<seq<Bytes>>) {
    if left.Ok? then all == Ok(got + left.value) else all.Err?
  }

  lemma SplitMore(all: Result<seq<Bytes>>, got: seq<Bytes>, chunk: Bytes, left: Result<seq<Bytes>>)
    requires Split(all, got, if left.Ok? then Ok([chunk] + left.value) else Err)
    ensures Split(all, got + [chunk], left)
  {
    if left.Ok? { assert got + ([chunk] + left.value) == got + [chunk] + left.value; }
  }

  lemma {:induction false} JoinedAppend(chunks: seq<Bytes>, c: Bytes)
    ensures Joined(chunks + [c]) == Joined(chunks) + c
    decreases |chunks|
  {
    if chunks == [] {
      assert (chunks + [c])[1..] == [];
    } else {
      assert (chunks + [c])[1..] == chunks[1..] + [c];
      JoinedAppend(chunks[1..], c);
    }
  }

  method Download(H: Hash, m: Manifest, serve: Server) returns (r: Result<Bytes>)
    ensures r == Downloaded(H, m, serve)
    ensures r.Ok? ==> |r.value| <= m.totalSize
  {
    hide CheckFileShape, Fetched;
    DownloadLength(H, m, serve);
    if !CheckFileShape(m) { return Err; }
    var ok, file, hashes := FetchAll(H, m, serve);
    if !ok { return Err; }
    var root := MerkleRoot.ComputeMerkleRoot(H, hashes);
    if root != m.chunkMerkleRoot { return Err; }
    if H(file) != m.contentHash { return Err; }
    r := Ok(file);
  }

  // ----- how long a download is

  /** What is left of the file before chunk i. */
  function Left(m: Manifest, i: nat): int {
    if i < m.chunkCount then m.totalSize - Times(i, m.chunkSize) else 0
  }

  /** The lengths the manifest makes its chunks add up to its total. */
  lemma WantedAddUp(m: Manifest, i: nat)
    requires CheckFileShape(m) && i < m.chunkCount
    ensures Left(m, i) == Want(m, i) + Left(m, i + 1)
  {
    ShapeBounds(m);
    hide CheckFileShape, Left, Want, Times;
    if i + 1 == m.chunkCount {
      LastWanted(m, i);
    } else {
      MiddleWanted(m, i);
    }
  }

  lemma MiddleWanted(m: Manifest, i: nat)
    requires i + 1 < m.chunkCount
    ensures Left(m, i) == Want(m, i) + Left(m, i + 1)
  {
    hide Times;
    TimesNext(i, m.chunkSize);
  }

  lemma LastWanted(m: Manifest, i: nat)
    requires i + 1 == m.chunkCount && Times(m.chunkCount - 1, m.chunkSize) < m.totalSize <= MAX_FILE_SIZE
    ensures Left(m, i) == Want(m, i) + Left(m, i + 1)
  {
    hide Times;
    LastFits(m.totalSize, Times(i, m.chunkSize));
  }

  lemma ShapeBounds(m: Manifest)
    requires CheckFileShape(m)
    ensures m.chunkCount >= 1 && Times(m.chunkCount - 1, m.chunkSize) < m.totalSize <= MAX_FILE_SIZE
  {
    ShapeIsCeiling(m);
    hide CheckFileShape, Times;
    CountIsCeiling(m.totalSize, m.chunkCount, m.chunkSize);
  }

  lemma LastFits(total: nat, before: nat)
    requires before < total <= MAX_FILE_SIZE
    ensures (total - before) % TWO64 == total - before
  {
  }

  predicate AllWanted(m: Manifest, chunks: seq<Bytes>, i: nat) {
    forall j :: 0 <= j < |chunks| ==> |chunks[j]| == Want(m, i + j)
  }

  /** A body is taken exactly if it is no longer than wanted, nor than 2 MiB, and then it is taken
      whole. */
  lemma FetchExactlyWhen(body: Bytes, want: nat)
    ensures Fetch(body, want) == if |body| <= want && |body| <= 0x20_0000 then Ok(body) else Err
  {
  }

  /** Chunks fetched are each at most as long as wanted, so together at most what is left, and
      exactly that only if each is exactly as long as wanted. */
  lemma {:induction false} FetchedLengths(m: Manifest, serve: Server, i: nat)
    requires CheckFileShape(m) && i <= m.chunkCount && Fetched(m, serve, i).Ok?
    ensures var got := Fetched(m, serve, i).value;
            && |got| == m.chunkCount - i
            && |Joined(got)| <= Left(m, i)
            && (|Joined(got)| == Left(m, i) <==> AllWanted(m, got, i))
    decreases m.chunkCount - i
  {
    hide CheckFileShape, Want, Fetch, Left;
    if i == m.chunkCount {
      assert Left(m, i) == 0 by { NothingLeft(m); }
    } else {
      var rest := Fetched(m, serve, i + 1).value;
      var chunk := Fetch(serve(i).value, Want(m, i)).value;
      FetchExactlyWhen(serve(i).value, Want(m, i));
      WantedAddUp(m, i);
      FetchedLengths(m, serve, i + 1);
      AllWantedCons(m, chunk, rest, i);
      assert ([chunk] + rest)[1..] == rest;
    }
  }

  lemma NothingLeft(m: Manifest)
    ensures Left(m, m.chunkCount) == 0
  {
  }

  lemma AllWantedCons(m: Manifest, chunk: Bytes, rest: seq<Bytes>, i: nat)
    ensures AllWanted(m, [chunk] + rest, i) <==> |chunk| == Want(m, i) && AllWanted(m, rest, i + 1)
  {
    hide Want;
    var all := [chunk] + rest;
    if AllWanted(m, all, i) {
      assert |all[0]| == Want(m, i + 0);
      forall j | 0 <= j < |rest| ensures |rest[j]| == Want(m, i + 1 + j) {
        assert |all[j + 1]| == Want(m, i + (j + 1));
      }
    } else {
      var j :| 0 <= j < |all| && |all[j]| != Want(m, i + j);
      assert j > 0 ==> all[j] == rest[j - 1] && i + 1 + (j - 1) == i + j;
    }
  }

  /** An accepted download is never longer than the manifest's total, and has that length exactly
      when every chunk has the length the manifest makes it. */
  lemma DownloadLength(H: Hash, m: Manifest, serve: Server)
    ensures var r := Downloaded(H, m, serve);
            r.Ok? ==>
              && |r.value| <= m.totalSize
              && (|r.value| == m.totalSize <==> AllWanted(m, Fetched(m, serve, 0).value, 0))
  {
    hide Fetched, AllWanted;
    if Downloaded(H, m, serve).Ok? {
      FetchedLengths(m, serve, 0);
      assert Left(m, 0) == m.totalSize by { WholeLeft(m); }
    }
  }

  lemma WholeLeft(m: Manifest)
    requires CheckFileShape(m)
    ensures Left(m, 0) == m.totalSize
  {
    OneChunk(m.chunkSize);
  }

  /** A node that answers every request with the same bytes. */
  function Always(data: Bytes): Server { (i: nat) => Ok(data) }

  /** A shorter chunk is accepted: under a one-chunk manifest of any larger total that carries the
      hashes of a file, that file is downloaded. */
  lemma ShortDownloadIsAccepted(H: Hash, data: Bytes, total: nat)
    requires |data| <= CHUNK_CAP && |data| <= total && 1 <= total <= MAX_FILE_SIZE
    ensures var m := Manifest(total, 1, total, MerkleRoot.Root(H, [H(data)]), H(data));
            Downloaded(H, m, Always(data)) == Ok(data)
  {
    var m := Manifest(total, 1, total, MerkleRoot.Root(H, [H(data)]), H(data));
    var serve := Always(data);
    hide MerkleRoot.Root, Times;
    OneChunk(total);
    assert CheckFileShape(m);
    assert Want(m, 0) == total;
    assert Fetched(m, serve, 1) == Ok([]);
    assert Fetched(m, serve, 0) == Ok([data] + []);
    assert [data] + [] == [data];
    assert Hashes(H, [data]) == [H(data)];
    assert [data][1..] == [];
    assert Joined([data]) == data + [];
    assert data + [] == data;
  }

  /** So the documented length of a download can fail: three bytes for a manifest of ten. */
  lemma ThreeBytesForTen(H: Hash)
    ensures var m := Manifest(10, 1, 10, MerkleRoot.Root(H, [H([1, 2, 3])]), H([1, 2, 3]));
            CheckFileShape(m) && Want(m, 0) == 10 && Downloaded(H, m, Always([1, 2, 3])) == Ok([1, 2, 3])
  {
    ShortDownloadIsAccepted(H, [1, 2, 3], 10);
  }

  /** Under a manifest with the content hash of a file, an accepted download is that file, and each
      chunk has the length the manifest makes it if and only if the manifest's total is the file's
      length; or the download collides with the file. */
  lemma LengthsHoldExactlyWhen(H: Hash, m: Manifest, data: Bytes, serve: Server)
    requires m.contentHash == H(data)
    ensures var r := Downloaded(H, m, serve);
            r.Ok? ==>
              || Collide(H, r.value, data)
              || (&& r.value == data
                  && (AllWanted(m, Fetched(m, serve, 0).value, 0) <==> |data| == m.totalSize))
  {
    hide AllWanted;
    DownloadLength(H, m, serve);
  }

  // ----- what a download returns

  /** The manifest Upload makes, its count and chunk size converted to 32 bits. */
  function ManifestOf(H: Hash, data: Bytes, size: nat): Manifest
    requires size > 0 && |data| < TWO64
  {
    var chunks := Chunks(data, size);
    Manifest(|data|, |chunks| % TWO32, size % TWO32, MerkleRoot.Root(H, Hashes(H, chunks)), H(data))
  }

  function Honest(chunks: seq<Bytes>): Server {
    (i: nat) => if i < |chunks| then Ok(chunks[i]) else Err
  }

  /** A manifest within the limits truncates neither. */
  lemma NoTruncation(H: Hash, data: Bytes, size: nat)
    requires 0 < size < TWO32 && 1 <= |data| <= MAX_FILE_SIZE && |Chunks(data, size)| <= MAX_CHUNK_COUNT
    ensures var m := ManifestOf(H, data, size);
            m.chunkCount == |Chunks(data, size)| && m.chunkSize == size && CheckFileShape(m)
  {
    hide Chunks, Times, MerkleRoot.Root;
    var m := ManifestOf(H, data, size);
    ChunkLengths(data, size);
    CountIsCeiling(|data|, |Chunks(data, size)|, size);
    ShapeIsCeiling(m);
  }

  /** Each of a file's chunks has the length its manifest makes it. */
  lemma ChunkIsWanted(H: Hash, data: Bytes, size: nat, i: nat)
    requires 0 < size < TWO32 && 1 <= |data| <= MAX_FILE_SIZE && |Chunks(data, size)| <= MAX_CHUNK_COUNT
    requires i < |Chunks(data, size)|
    ensures |Chunks(data, size)[i]| == Want(ManifestOf(H, data, size), i) <= size
  {
    var cs, m := Chunks(data, size), ManifestOf(H, data, size);
    NoTruncation(H, data, size);
    ChunkLengths(data, size);
    hide Chunks, ManifestOf, CheckFileShape, Times;
    if i + 1 == |cs| {
      LastFits(m.totalSize, Times(i, size));
      TimesNext(i, size);
    }
  }

  lemma {:induction false} HonestFetch(H: Hash, data: Bytes, size: nat, i: nat)
    requires 0 < size <= CHUNK_CAP && 1 <= |data| <= MAX_FILE_SIZE && |Chunks(data, size)| <= MAX_CHUNK_COUNT
    requires i <= |Chunks(data, size)|
    ensures Fetched(ManifestOf(H, data, size), Honest(Chunks(data, size)), i) == Ok(Chunks(data, size)[i..])
    decreases |Chunks(data, size)| - i
  {
    var cs, m := Chunks(data, size), ManifestOf(H, data, size);
    NoTruncation(H, data, size);
    hide Chunks, ManifestOf, Want, CheckFileShape;
    if i == |cs| {
      assert cs[i..] == [];
    } else {
      HonestFetch(H, data, size, i + 1);
      ChunkIsWanted(H, data, size, i);
      assert Fetch(cs[i], Want(m, i)) == Ok(cs[i]);
      assert [cs[i]] + cs[i + 1..] == cs[i..];
    }
  }

  /** Chunking a file of 1 byte to 1 GiB and downloading its chunks returns it, for any chunk size
      that the node stores and that makes no more chunks than the chain takes. */
  lemma UploadThenDownload(H: Hash, data: Bytes, size: nat)
    requires 0 < size <= CHUNK_CAP && 1 <= |data| <= MAX_FILE_SIZE && |Chunks(data, size)| <= MAX_CHUNK_COUNT
    ensures Downloaded(H, ManifestOf(H, data, size), Honest(Chunks(data, size))) == Ok(data)
  {
    hide Chunks, Fetched, CheckFileShape;
    var cs := Chunks(data, size);
    NoTruncation(H, data, size);
    HonestFetch(H, data, size, 0);
    assert cs[0..] == cs;
    ChunksJoin(data, size);
  }

  /** The default chunk size makes few enough chunks of every file the chain takes. */
  lemma DefaultSizeFits(data: Bytes)
    requires 1 <= |data| <= MAX_FILE_SIZE
    ensures |Chunks(data, DEFAULT_CHUNK_SIZE)| <= MAX_CHUNK_COUNT
  {
    hide Chunks, Times;
    ChunkLengths(data, DEFAULT_CHUNK_SIZE);
    if |Chunks(data, DEFAULT_CHUNK_SIZE)| > MAX_CHUNK_COUNT {
      TimesGrows(MAX_CHUNK_COUNT, |Chunks(data, DEFAULT_CHUNK_SIZE)| - 1, DEFAULT_CHUNK_SIZE);
      LimitTimesDefault();
    }
  }

  lemma LimitTimesDefault()
    ensures Times(MAX_CHUNK_COUNT, DEFAULT_CHUNK_SIZE) > MAX_FILE_SIZE
  {
  }

  /** Pieces of the same lengths that join to the same bytes are the same pieces. */
  lemma {:induction false} PiecesAreEqual(a: seq<Bytes>, b: seq<Bytes>)
    requires |a| == |b| && Joined(a) == Joined(b) && forall i :: 0 <= i < |a| ==> |a[i]| == |b[i]|
    ensures a == b
    decreases |a|
  {
    if a == [] {
    } else {
      assert Joined(a)[..|a[0]|] == a[0] && Joined(b)[..|a[0]|] == b[0];
      assert Joined(a)[|a[0]|..] == Joined(a[1..]) && Joined(b)[|a[0]|..] == Joined(b[1..]);
      PiecesAreEqual(a[1..], b[1..]);
      assert a == [a[0]] + a[1..] && b == [b[0]] + b[1..];
    }
  }

  /** Whatever the node serves, a download accepted under the manifest of a file is that file, of
      the manifest's length, fetched chunk by chunk as it was cut; or it collides with the file. */
  lemma DownloadIsTheFile(H: Hash, data: Bytes, size: nat, serve: Server)
    requires 0 < size < TWO32 && 1 <= |data| <= MAX_FILE_SIZE && |Chunks(data, size)| <= MAX_CHUNK_COUNT
    ensures var m := ManifestOf(H, data, size);
            var r := Downloaded(H, m, serve);
            r.Ok? ==>
              || Collide(H, r.value, data)
              || (r.value == data && |r.value| == m.totalSize && Fetched(m, serve, 0).value == Chunks(data, size))
  {
    var cs, m := Chunks(data, size), ManifestOf(H, data, size);
    var r := Downloaded(H, m, serve);
    NoTruncation(H, data, size);
    LengthsHoldExactlyWhen(H, m, data, serve);
    if r.Ok? && !Collide(H, r.value, data) {
      var got := Fetched(m, serve, 0).value;
      FetchedLengths(m, serve, 0);
      assert Joined(got) == data;
      ChunksJoin(data, size);
      forall i | 0 <= i < |cs| ensures |got[i]| == |cs[i]| {
        assert |got[i]| == Want(m, 0 + i);
        ChunkIsWanted(H, data, size, i);
      }
      PiecesAreEqual(got, cs);
    }
  }

  /** The chunks of an accepted download have the manifest's chunk hashes, one for one, or the two
      trees of hashes hold a pair that collides. */
  lemma DownloadedChunksMatch(H: Hash, data: Bytes, size: nat, serve: Server)
    requires 0 < size < TWO32 && 1 <= |data| <= MAX_FILE_SIZE && |Chunks(data, size)| <= MAX_CHUNK_COUNT
    requires Downloaded(H, ManifestOf(H, data, size), serve).Ok?
    ensures var got := Fetched(ManifestOf(H, data, size), serve, 0).value;
            var hs, honest := Hashes(H, got), Hashes(H, Chunks(data, size));
            |got| == |Chunks(data, size)| &&
            (hs == honest || MerkleRoot.LevelsCollide(H, MerkleRoot.Leaves(hs), MerkleRoot.Leaves(honest)))
  {
    var m := ManifestOf(H, data, size);
    NoTruncation(H, data, size);
    FetchedLengths(m, serve, 0);
    hide Chunks, CheckFileShape, Fetched;
    MerkleRoot.RootBindsHashes(H, Hashes(H, Fetched(m, serve, 0).value), Hashes(H, Chunks(data, size)));
  }
}
