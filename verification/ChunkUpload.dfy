/** Resumable upload of a backup archive in chunks, with a state file rewritten after each of them. */
module ChunkUpload {
  import opened Prelude

  type byte = x: int | 0 <= x < 256

  /** A SHA-256 digest, represented by what it is the digest of. */
  datatype Digest = Digest(of: seq<byte>)

  datatype Chunk = Chunk(index: nat, bytes: nat, sha256: Digest)

  datatype Identity = Identity(organizationId: string, serverId: string, backupId: string, operationId: string)

  datatype Input = Input(
    identity: Identity, wellFormed: bool, expectedBytes: int, expectedSha256: Digest, chunkBytes: Option<int>)

  datatype UploadState = UploadState(
    identity: Identity, chunkBytes: int, totalBytes: int, archiveSha256: Digest,
    nextChunk: nat, chunks: seq<Chunk>, complete: bool, manifestSha256: Option<Digest>)

  datatype Receipt = Receipt(bytes: nat, sha256: Digest, chunks: nat, manifestSha256: Digest)

  datatype UploadError = InvalidInput | Cancelled | SizeLimit | CorruptState | CorruptRemote | TransportFailed | Crashed

  const MAX_CHUNK_BYTES := 4 * 1024 * 1024
  const MIN_CHUNK_BYTES := 64 * 1024
  const MAX_CHUNKS := 65536
  const MAX_BACKUP_BYTES := MAX_CHUNK_BYTES * MAX_CHUNKS

  // --- the partition -----------------------------------------------------------

  /** `Math.ceil(total / chunkBytes)`. */
  function ChunkCount(total: nat, chunkBytes: nat): nat
    requires chunkBytes > 0
  {
    (total + chunkBytes - 1) / chunkBytes
  }

  function ChunkSize(total: nat, chunkBytes: nat, index: nat): int
    requires chunkBytes > 0
  {
    if index == ChunkCount(total, chunkBytes) - 1 then total - index * chunkBytes else chunkBytes
  }

  predicate PolicyAllows(expectedBytes: int, chunkBytes: int) {
    && 0 < expectedBytes <= MAX_BACKUP_BYTES
    && MIN_CHUNK_BYTES <= chunkBytes <= MAX_CHUNK_BYTES
    && ChunkCount(expectedBytes, chunkBytes) <= MAX_CHUNKS
  }

  lemma ChunkBounds(total: nat, chunkBytes: nat, index: nat)
    requires total > 0 && chunkBytes > 0 && index < ChunkCount(total, chunkBytes)
    ensures 1 <= ChunkSize(total, chunkBytes, index) <= chunkBytes
    ensures index * chunkBytes + ChunkSize(total, chunkBytes, index) <= total
    ensures if index == ChunkCount(total, chunkBytes) - 1
            then index * chunkBytes + ChunkSize(total, chunkBytes, index) == total
            else ChunkSize(total, chunkBytes, index) == chunkBytes
  {
    var n := ChunkCount(total, chunkBytes);
    assert n * chunkBytes <= total + chunkBytes - 1 < n * chunkBytes + chunkBytes;
    assert (n - 1) * chunkBytes == n * chunkBytes - chunkBytes;
    if index < n - 1 {
      assert (index + 1) * chunkBytes <= (n - 1) * chunkBytes;
    }
  }

  /** The bytes of one chunk. */
  function Piece(archive: seq<byte>, chunkBytes: nat, index: nat): (p: seq<byte>)
    requires archive != [] && chunkBytes > 0 && index < ChunkCount(|archive|, chunkBytes)
    ensures 1 <= |p| <= chunkBytes
  {
    ChunkBounds(|archive|, chunkBytes, index);
    archive[index * chunkBytes..index * chunkBytes + ChunkSize(|archive|, chunkBytes, index)]
  }

  function Joined(archive: seq<byte>, chunkBytes: nat, count: nat): seq<byte>
    requires archive != [] && chunkBytes > 0 && count <= ChunkCount(|archive|, chunkBytes)
  {
    if count == 0 then [] else Joined(archive, chunkBytes, count - 1) + Piece(archive, chunkBytes, count - 1)
  }

  lemma SomeChunks(total: nat, chunkBytes: nat)
    requires total > 0 && chunkBytes > 0
    ensures ChunkCount(total, chunkBytes) >= 1
  {
  }

  lemma NextStart(count: nat, chunkBytes: nat)
    ensures (count - 1) * chunkBytes + chunkBytes == count * chunkBytes
  {
  }

  lemma PrefixGrows(archive: seq<byte>, start: nat, end: nat)
    requires start <= end <= |archive|
    ensures archive[..start] + archive[start..end] == archive[..end]
    ensures end == |archive| ==> archive[..end] == archive
  {
  }

  lemma {:induction false} JoinedIsPrefix(archive: seq<byte>, chunkBytes: nat, count: nat)
    requires archive != [] && chunkBytes > 0 && count <= ChunkCount(|archive|, chunkBytes)
    ensures count < ChunkCount(|archive|, chunkBytes) ==>
              count * chunkBytes <= |archive| && Joined(archive, chunkBytes, count) == archive[..count * chunkBytes]
    ensures count == ChunkCount(|archive|, chunkBytes) ==> Joined(archive, chunkBytes, count) == archive
  {
    hide ChunkCount, ChunkSize, PolicyAllows;
    SomeChunks(|archive|, chunkBytes);
    if count > 0 {
      ChunkBounds(|archive|, chunkBytes, count - 1);
      JoinedIsPrefix(archive, chunkBytes, count - 1);
      var start := (count - 1) * chunkBytes;
      NextStart(count, chunkBytes);
      var end := start + ChunkSize(|archive|, chunkBytes, count - 1);
      PrefixGrows(archive, start, end);
    }
  }

  /** The chunks are non-empty pieces that make up the archive in order, and there are at most 65,536 of them. */
  lemma ChunksPartition(archive: seq<byte>, chunkBytes: nat)
    requires PolicyAllows(|archive|, chunkBytes)
    ensures var n := ChunkCount(|archive|, chunkBytes);
            && 1 <= n <= MAX_CHUNKS
            && Joined(archive, chunkBytes, n) == archive
            && forall i :: 0 <= i < n ==> 1 <= |Piece(archive, chunkBytes, i)| <= chunkBytes
  {
    JoinedIsPrefix(archive, chunkBytes, ChunkCount(|archive|, chunkBytes));
  }

  /** What the records of the first `count` chunks must be. */
  function Records(archive: seq<byte>, chunkBytes: nat, count: nat): (r: seq<Chunk>)
    requires archive != [] && chunkBytes > 0 && count <= ChunkCount(|archive|, chunkBytes)
    ensures |r| == count
    ensures forall i :: 0 <= i < count ==> r[i] == RecordOf(archive, chunkBytes, i)
  {
    seq(count, i requires 0 <= i < count => RecordOf(archive, chunkBytes, i))
  }

  function RecordOf(archive: seq<byte>, chunkBytes: nat, index: nat): Chunk
    requires archive != [] && chunkBytes > 0 && index < ChunkCount(|archive|, chunkBytes)
  {
    var piece := Piece(archive, chunkBytes, index);
    Chunk(index, |piece|, Digest(piece))
  }

  /** The bytes the digests of the first `count` remote chunks stand for. */
  function Assembled(remote: map<nat, Chunk>, count: nat): seq<byte>
    requires forall i :: 0 <= i < count ==> i in remote
  {
    if count == 0 then [] else Assembled(remote, count - 1) + remote[count - 1].sha256.of
  }

  /** Remote chunks that match the records of an archive make up that archive. */
  lemma RemoteIsArchive(archive: seq<byte>, chunkBytes: nat, remote: map<nat, Chunk>)
    requires PolicyAllows(|archive|, chunkBytes)
    requires forall i :: 0 <= i < ChunkCount(|archive|, chunkBytes) ==>
               i in remote && remote[i] == RecordOf(archive, chunkBytes, i)
    ensures Assembled(remote, ChunkCount(|archive|, chunkBytes)) == archive
  {
    AssembledIsJoined(archive, chunkBytes, remote, ChunkCount(|archive|, chunkBytes));
    ChunksPartition(archive, chunkBytes);
  }

  lemma {:induction false} AssembledIsJoined(archive: seq<byte>, chunkBytes: nat, remote: map<nat, Chunk>, count: nat)
    requires archive != [] && chunkBytes > 0 && count <= ChunkCount(|archive|, chunkBytes)
    requires forall i :: 0 <= i < ChunkCount(|archive|, chunkBytes) ==>
               i in remote && remote[i] == RecordOf(archive, chunkBytes, i)
    ensures Assembled(remote, count) == Joined(archive, chunkBytes, count)
  {
    if count > 0 {
      AssembledIsJoined(archive, chunkBytes, remote, count - 1);
    }
  }

  /** The state is for just this request. */
  predicate SameRequest(s: UploadState, input: Input, chunkBytes: int) {
    && s.identity == input.identity
    && s.chunkBytes == chunkBytes
    && s.totalBytes == input.expectedBytes
    && s.archiveSha256 == input.expectedSha256
  }

  /** The records up to `nextChunk` are those of the archive. */
  predicate Faithful(s: UploadState, archive: seq<byte>, chunkBytes: nat)
    requires archive != [] && chunkBytes > 0
  {
    && s.nextChunk <= |s.chunks|
    && s.nextChunk <= ChunkCount(|archive|, chunkBytes)
    && s.chunks[..s.nextChunk] == Records(archive, chunkBytes, s.nextChunk)
  }

  class Uploader {
    const faulty: bool
    const archive: seq<byte>
    var stateFile: Option<UploadState>
    var remote: map<nat, Chunk>
    var cancelled: bool
    /** What the remote side held when each manifest was published. */
    ghost var published: seq<map<nat, Chunk>>
    /** Every state the loop wrote. */
    ghost var persisted: seq<UploadState>
    /** Chunks sent to the remote side. */
    ghost var sent: seq<nat>

    constructor (faulty: bool, archive: seq<byte>, prior: Option<UploadState>, remote: map<nat, Chunk>)
      ensures this.faulty == faulty && this.archive == archive && stateFile == prior && this.remote == remote
      ensures !cancelled && published == [] && persisted == [] && sent == []
    {
      this.faulty, this.archive, this.remote := faulty, archive, remote;
      stateFile, cancelled := prior, false;
      published, persisted, sent := [], [], [];
    }

    // --- steps -------------------------------------------------------------------

    method Disturbance(error: UploadError) returns (o: Outcome<UploadError>)
      ensures !faulty ==> o.Pass?
      ensures o.Fail? ==> o.error == Crashed || o.error == error
    {
      o := Pass;
      if faulty {
        if * {
          o := Fail(Crashed);
        } else if * {
          o := Fail(error);
        }
      }
    }

    method CheckCancelled() returns (o: Outcome<UploadError>)
      ensures o == if cancelled then Fail(Cancelled) else Pass
    {
      o := if cancelled then Fail(Cancelled) else Pass;
    }

    method HeadChunk(index: nat) returns (r: Result<Option<Chunk>, UploadError>)
      ensures r.Ok? ==> r.value == if index in remote then Some(remote[index]) else None
      ensures !faulty ==> r.Ok?
      ensures r.Err? ==> r.error != CorruptRemote
    {
      var o := Disturbance(TransportFailed);
      if o.Fail? {
        return Err(o.error);
      }
      r := Ok(if index in remote then Some(remote[index]) else None);
    }

    method PutChunk(index: nat, bytes: seq<byte>, sha256: Digest) returns (r: Result<Chunk, UploadError>)
      modifies `remote, `sent
      ensures remote == old(remote) || remote == old(remote)[index := Chunk(index, |bytes|, sha256)]
      ensures sent == old(sent) || sent == old(sent) + [index]
      ensures r.Ok? ==> r.value == Chunk(index, |bytes|, sha256) && remote == old(remote)[index := r.value]
      ensures !faulty ==> r.Ok?
    {
      var o := Disturbance(TransportFailed);
      if o.Fail? {
        return Err(o.error);
      }
      remote := remote[index := Chunk(index, |bytes|, sha256)];
      sent := sent + [index];
      o := Disturbance(TransportFailed);
      r := if o.Fail? then Err(o.error) else Ok(Chunk(index, |bytes|, sha256));
    }

    method WriteState(s: UploadState) returns (o: Outcome<UploadError>)
      modifies `stateFile, `persisted
      ensures (stateFile == old(stateFile) && persisted == old(persisted))
              || (stateFile == Some(s) && persisted == old(persisted) + [s])
      ensures o.Pass? ==> stateFile == Some(s)
      ensures !faulty ==> o.Pass?
    {
      o := Disturbance(TransportFailed);
      if o.Fail? {
        return;
      }
      stateFile, persisted := Some(s), persisted + [s];
      o := Disturbance(TransportFailed);
    }

    /** Publish the manifest. */
    method PutManifest() returns (r: Result<Digest, UploadError>)
      modifies `published
      ensures published == old(published) || published == old(published) + [remote]
      ensures r.Ok? ==> published == old(published) + [remote]
      ensures !faulty ==> r.Ok?
    {
      var o := Disturbance(TransportFailed);
      if o.Fail? {
        return Err(o.error);
      }
      published := published + [remote];
      o := Disturbance(TransportFailed);
      if o.Fail? {
        return Err(o.error);
      }
      var manifest: seq<byte> := *;
      r := Ok(Digest(manifest));
    }

    /** Fill a buffer from one position of the archive; a read may return less than asked. */
    method ReadExactly(position: nat, length: nat) returns (r: Result<seq<byte>, UploadError>)
      requires position + length <= |archive|
      ensures r.Ok? ==> r.value == archive[position..position + length]
      ensures !faulty ==> r.Ok?
    {
      var buffer := new byte[length](_ => 0);
      var offset := 0;
      while offset < length
        invariant 0 <= offset <= length
        invariant buffer[..offset] == archive[position..position + offset]
      {
        var o := Disturbance(CorruptState);
        if o.Fail? {
          return Err(o.error);
        }
        var bytesRead :| 1 <= bytesRead <= length - offset;
        for k := 0 to bytesRead
          invariant buffer[..offset + k] == archive[position..position + offset + k]
        {
          buffer[offset + k] := archive[position + offset + k];
          assert buffer[..offset + k + 1] == buffer[..offset + k] + [archive[position + offset + k]];
        }
        offset := offset + bytesRead;
      }
      assert buffer[..length] == buffer[..];
      r := Ok(buffer[..]);
    }

    // --- the upload ------------------------------------------------------------------

    /** Confirm that the remote side has exactly this chunk, sending it if it has none. */
    method ConfirmRemote(index: nat, bytes: seq<byte>) returns (o: Outcome<UploadError>)
      modifies `remote, `sent
      ensures o.Pass? ==> index in remote && remote[index] == Chunk(index, |bytes|, Digest(bytes))
      ensures remote == old(remote) || (index !in old(remote) && remote == old(remote)[index := Chunk(index, |bytes|, Digest(bytes))])
      // The remote side is called corrupt only if it has another chunk there.
      ensures o == Fail(CorruptRemote) ==> index in remote && remote[index] != Chunk(index, |bytes|, Digest(bytes))
      // A chunk that is there already is not sent again.
      ensures sent == old(sent) || (index !in old(remote) && sent == old(sent) + [index])
      ensures !faulty ==>
                (o.Pass? <==> index !in old(remote) || old(remote)[index] == Chunk(index, |bytes|, Digest(bytes)))
    {
      var expected := Chunk(index, |bytes|, Digest(bytes));
      var head := HeadChunk(index);
      if head.Err? {
        return Fail(head.error);
      }
      var observed := head.value;
      if observed.None? {
        var put := PutChunk(index, bytes, Digest(bytes));
        if put == Err(Crashed) {
          return Fail(Crashed);
        }
        if put.Ok? {
          observed := Some(put.value);
        } else {
          var recovered := HeadChunk(index);
          if recovered.Err? {
            return Fail(recovered.error);
          }
          if recovered.value != Some(expected) {
            return Fail(if recovered.value.None? then TransportFailed else CorruptRemote);
          }
          observed := recovered.value;
        }
      }
      o := if observed == Some(expected) then Pass else Fail(CorruptRemote);
    }

    method UploadChunk(index: nat, chunkBytes: nat, state: UploadState) returns (r: Result<UploadState, UploadError>)
      requires archive != [] && chunkBytes > 0 && index < ChunkCount(|archive|, chunkBytes)
      requires |state.chunks| >= index && state.chunks[..index] == Records(archive, chunkBytes, index)
      modifies `remote, `sent, `stateFile, `persisted
      ensures r.Ok? ==>
                && stateFile == Some(r.value)
                && r.value == state.(nextChunk := index + 1, chunks := r.value.chunks, complete := false)
                && Faithful(r.value, archive, chunkBytes)
                && |r.value.chunks| == Max(|state.chunks|, index + 1)
                && r.value.chunks[index + 1..] == state.chunks[Min(index + 1, |state.chunks|)..]
      ensures r.Ok? ==> index in remote && remote[index] == RecordOf(archive, chunkBytes, index)
      ensures r.Ok? && index < |state.chunks| ==> state.chunks[index] == RecordOf(archive, chunkBytes, index)
      ensures r.Ok? ==> !cancelled
      ensures remote == old(remote)
              || (index !in old(remote) && remote == old(remote)[index := RecordOf(archive, chunkBytes, index)])
      ensures persisted == old(persisted)
              || (|persisted| == |old(persisted)| + 1 && old(persisted) <= persisted
                  && Faithful(persisted[|persisted| - 1], archive, chunkBytes))
      ensures stateFile == old(stateFile) || (stateFile.Some? && stateFile.value in persisted)
      ensures sent == old(sent) || (index !in old(remote) && sent == old(sent) + [index])
      ensures !faulty ==>
                (r.Ok? <==>
                 && !cancelled
                 && (index < |state.chunks| ==> state.chunks[index] == RecordOf(archive, chunkBytes, index))
                 && (index in old(remote) ==> old(remote)[index] == RecordOf(archive, chunkBytes, index)))
    {
      hide ChunkCount;
      ChunkBounds(|archive|, chunkBytes, index);
      var o := CheckCancelled();
      if o.Fail? {
        return Err(o.error);
      }
      var read := ReadExactly(index * chunkBytes, ChunkSize(|archive|, chunkBytes, index));
      if read.Err? {
        return Err(read.error);
      }
      hide ChunkSize;
      var expected := Chunk(index, |read.value|, Digest(read.value));
      assert expected == RecordOf(archive, chunkBytes, index);
      if index < |state.chunks| && state.chunks[index] != expected {
        return Err(CorruptState);
      }
      o := ConfirmRemote(index, read.value);
      if o.Fail? {
        return Err(o.error);
      }
      var next := state.(
        nextChunk := index + 1,
        chunks := state.chunks[..index] + [expected] + state.chunks[Min(index + 1, |state.chunks|)..],
        complete := false);
      assert next.chunks[..index + 1] == state.chunks[..index] + [expected] == Records(archive, chunkBytes, index + 1);
      o := WriteState(next);
      r := if o.Pass? then Ok(next) else Err(o.error);
    }

    /** Whether a persisted record, where there is one, is that of the archive. */
    predicate RecordsAgree(chunks: seq<Chunk>, chunkBytes: nat)
      requires archive != [] && chunkBytes > 0
    {
      forall i :: 0 <= i < |chunks| && i < ChunkCount(|archive|, chunkBytes) ==>
        chunks[i] == RecordOf(archive, chunkBytes, i)
    }

    /** Whether the remote side has nothing but chunks of the archive. */
    predicate RemoteAgrees(remote: map<nat, Chunk>, chunkBytes: nat)
      requires archive != [] && chunkBytes > 0
    {
      forall i <- remote :: i < ChunkCount(|archive|, chunkBytes) ==> remote[i] == RecordOf(archive, chunkBytes, i)
    }

    /** The requested chunk size, or the largest one. */
    function ChunkBytesOf(input: Input): int {
      if input.chunkBytes.Some? then input.chunkBytes.value else MAX_CHUNK_BYTES
    }

    /** The request is acceptable and is for the archive that is there. */
    predicate Accepted(input: Input) {
      && input.wellFormed
      && PolicyAllows(input.expectedBytes, ChunkBytesOf(input))
      && |archive| == input.expectedBytes
    }

    method Upload(input: Input) returns (r: Result<Receipt, UploadError>)
      modifies this
      // A request that is not acceptable changes nothing.
      ensures !Accepted(input) ==> r.Err? && remote == old(remote) && stateFile == old(stateFile) && published == old(published)
      // Every state written in this run records just the chunks of the archive.
      ensures Accepted(input) ==>
                && old(persisted) <= persisted
                && forall k :: |old(persisted)| <= k < |persisted| ==> Faithful(persisted[k], archive, ChunkBytesOf(input))
      // The manifest is published at most once, and only after every chunk was confirmed.
      ensures published == old(published)
              || (Accepted(input)
                  && published == old(published) + [remote]
                  && AllThere(remote, ChunkBytesOf(input))
                  && Assembled(remote, ChunkCount(|archive|, ChunkBytesOf(input))) == archive)
      ensures r.Ok? ==>
                && Accepted(input) && published != old(published)
                && r.value.bytes == input.expectedBytes && r.value.sha256 == input.expectedSha256
                && r.value.chunks == ChunkCount(|archive|, ChunkBytesOf(input))
                && stateFile.Some? && stateFile.value.complete && SameRequest(stateFile.value, input, ChunkBytesOf(input))
                && stateFile.value.manifestSha256 == Some(r.value.manifestSha256)
                && stateFile.value.nextChunk == r.value.chunks
      // Without faults it succeeds exactly if nothing on record contradicts the archive.
      ensures !faulty && Accepted(input) ==>
                (r.Ok? <==>
                 && !cancelled
                 && (old(stateFile.Some?) ==>
                       && SameRequest(old(stateFile.value), input, ChunkBytesOf(input))
                       && RecordsAgree(old(stateFile.value).chunks, ChunkBytesOf(input)))
                 && RemoteAgrees(old(remote), ChunkBytesOf(input)))
    {
      if !input.wellFormed || input.expectedBytes <= 0 || input.expectedBytes > MAX_BACKUP_BYTES {
        return Err(InvalidInput);
      }
      var chunkBytes := ChunkBytesOf(input);
      if chunkBytes < MIN_CHUNK_BYTES || chunkBytes > MAX_CHUNK_BYTES
         || ChunkCount(input.expectedBytes, chunkBytes) > MAX_CHUNKS {
        return Err(SizeLimit);
      }
      var o := CheckCancelled();
      if o.Fail? {
        return Err(o.error);
      }
      o := Disturbance(CorruptState);
      if o.Fail? {
        return Err(o.error);
      }
      if stateFile.Some?
         && (|| stateFile.value.identity != input.identity || stateFile.value.chunkBytes != chunkBytes
             || stateFile.value.totalBytes != input.expectedBytes
             || stateFile.value.archiveSha256 != input.expectedSha256)
      {
        return Err(CorruptState);
      }
      if |archive| != input.expectedBytes {
        return Err(CorruptState);
      }
      var state := if stateFile.Some? then stateFile.value
                   else UploadState(input.identity, chunkBytes, input.expectedBytes, input.expectedSha256, 0, [], false, None);
      r := UploadAll(input, chunkBytes, state);
      if AllThere(remote, chunkBytes) {
        RemoteIsArchive(archive, chunkBytes, remote);
      }
    }

    /** The remote side has every chunk of the archive. */
    predicate AllThere(remote: map<nat, Chunk>, chunkBytes: nat)
      requires archive != [] && chunkBytes > 0
    {
      forall i :: 0 <= i < ChunkCount(|archive|, chunkBytes) ==> i in remote && remote[i] == RecordOf(archive, chunkBytes, i)
    }

    /** The chunk loop, the manifest, and the final state. */
    method UploadAll(input: Input, chunkBytes: nat, start: UploadState) returns (r: Result<Receipt, UploadError>)
      requires archive != [] && chunkBytes > 0 && SameRequest(start, input, chunkBytes)
      requires |archive| == input.expectedBytes
      modifies this
      ensures cancelled == old(cancelled)
      ensures old(persisted) <= persisted
      ensures forall k :: |old(persisted)| <= k < |persisted| ==> Faithful(persisted[k], archive, chunkBytes)
      ensures published == old(published)
              || (published == old(published) + [remote] && AllThere(remote, chunkBytes))
      ensures r.Ok? ==>
                && published != old(published)
                && r.value.bytes == input.expectedBytes && r.value.sha256 == input.expectedSha256
                && r.value.chunks == ChunkCount(|archive|, chunkBytes)
                && stateFile.Some? && stateFile.value.complete && SameRequest(stateFile.value, input, chunkBytes)
                && stateFile.value.manifestSha256 == Some(r.value.manifestSha256)
                && stateFile.value.nextChunk == r.value.chunks
      ensures !faulty ==>
                (r.Ok? <==> !cancelled && RecordsAgree(start.chunks, chunkBytes) && RemoteAgrees(old(remote), chunkBytes))
    {
      hide ChunkCount, RecordsAgree, RemoteAgrees, AllThere, Records;
      var uploaded := UploadChunks(input, chunkBytes, start);
      if uploaded.Err? {
        return Err(uploaded.error);
      }
      var totalChunks := ChunkCount(|archive|, chunkBytes);
      var o := CheckCancelled();
      if o.Fail? {
        return Err(o.error);
      }
      var manifest := PutManifest();
      if manifest.Err? {
        return Err(manifest.error);
      }
      var state := uploaded.value.(nextChunk := totalChunks, complete := true, manifestSha256 := Some(manifest.value));
      o := WriteState(state);
      if o.Fail? {
        return Err(o.error);
      }
      r := Ok(Receipt(input.expectedBytes, input.expectedSha256, totalChunks, manifest.value));
    }

    /** The chunk loop: confirm every chunk and write the state after each. */
    method UploadChunks(input: Input, chunkBytes: nat, start: UploadState) returns (r: Result<UploadState, UploadError>)
      requires archive != [] && chunkBytes > 0 && SameRequest(start, input, chunkBytes)
      modifies `remote, `sent, `stateFile, `persisted
      ensures old(persisted) <= persisted
      ensures forall k :: |old(persisted)| <= k < |persisted| ==> Faithful(persisted[k], archive, chunkBytes)
      ensures r.Ok? ==>
                && SameRequest(r.value, input, chunkBytes) && Faithful(r.value, archive, chunkBytes)
                && r.value.nextChunk == ChunkCount(|archive|, chunkBytes)
                && AllThere(remote, chunkBytes)
      ensures !faulty ==>
                (r.Ok? <==> !cancelled && RecordsAgree(start.chunks, chunkBytes) && RemoteAgrees(old(remote), chunkBytes))
    {
      hide ChunkCount, RecordOf;
      SomeChunks(|archive|, chunkBytes);
      var state := start;
      var totalChunks := ChunkCount(|archive|, chunkBytes);
      for index := 0 to totalChunks
        invariant old(persisted) <= persisted
        invariant forall k :: |old(persisted)| <= k < |persisted| ==> Faithful(persisted[k], archive, chunkBytes)
        invariant SameRequest(state, input, chunkBytes)
        invariant Reached(start.chunks, state, old(remote), remote, chunkBytes, index)
        invariant index > 0 ==> !cancelled
      {
        ghost var before, was := state, remote;
        var next := UploadChunk(index, chunkBytes, state);
        if next.Err? {
          return Err(next.error);
        }
        state := next.value;
        ReachedNext(start.chunks, before, state, old(remote), was, remote, chunkBytes, index);
      }
      r := Ok(state);
    }

    /** What the loop has established before chunk `index`. */
    ghost predicate Reached(first: seq<Chunk>, state: UploadState, before: map<nat, Chunk>, after: map<nat, Chunk>,
                            chunkBytes: nat, index: nat)
      requires archive != [] && chunkBytes > 0 && index <= ChunkCount(|archive|, chunkBytes)
    {
      && |state.chunks| == Max(|first|, index)
      && state.chunks[..index] == Records(archive, chunkBytes, index)
      && (index > 0 ==> state.nextChunk == index)
      && (forall i :: index <= i < |first| ==> state.chunks[i] == first[i])
      && (forall i :: 0 <= i < index && i < |first| ==> first[i] == RecordOf(archive, chunkBytes, i))
      && (forall i :: 0 <= i < index ==> i in after && after[i] == RecordOf(archive, chunkBytes, i))
      && (forall i <- before :: i in after && after[i] == before[i])
      && (forall i <- after :: i in before || i < index)
    }

    lemma ReachedNext(first: seq<Chunk>, state: UploadState, next: UploadState,
                      before: map<nat, Chunk>, was: map<nat, Chunk>, after: map<nat, Chunk>, chunkBytes: nat, index: nat)
      requires archive != [] && chunkBytes > 0 && index < ChunkCount(|archive|, chunkBytes)
      requires Reached(first, state, before, was, chunkBytes, index)
      requires Faithful(next, archive, chunkBytes) && next.nextChunk == index + 1
      requires |next.chunks| == Max(|state.chunks|, index + 1)
      requires next.chunks[index + 1..] == state.chunks[Min(index + 1, |state.chunks|)..]
      requires index < |state.chunks| ==> state.chunks[index] == RecordOf(archive, chunkBytes, index)
      requires after == was || (index !in was && after == was[index := RecordOf(archive, chunkBytes, index)])
      requires index in after && after[index] == RecordOf(archive, chunkBytes, index)
      ensures Reached(first, next, before, after, chunkBytes, index + 1)
    {
      hide ChunkCount, RecordOf;
      forall i | index + 1 <= i < |first|
        ensures next.chunks[i] == first[i]
      {
        assert next.chunks[i] == next.chunks[index + 1..][i - index - 1] == state.chunks[i];
      }
    }
  }
}
