// Upload staging: a streamed body is appended to the session's staging file in large
// batches, hashed as it is written, and taken back when anything fails.

module Upload {
  import opened Core

  const WRITE_BATCH: nat := 0x10_0000

  datatype StorageError =
    | NotFound
    | TooLarge(limit: nat, actual: nat)
    | StreamFailed
    | WriteFailed
    | RollbackFailed
    | RangeNotSatisfiable(expected: nat, got: nat)
    | DigestMismatch(expectedDigest: Digest)

  // One item of the request body.
  datatype Chunk = Data(bytes: seq<byte>) | Broken

  // Incremental hash state, represented by the bytes it has been fed.
  datatype StagedHash = StagedHash(fed: seq<byte>)

  function Update(hash: Option<StagedHash>, bytes: seq<byte>): Option<StagedHash> {
    if hash.Some? then Some(StagedHash(hash.value.fed + bytes)) else None
  }

  lemma UpdateParts(hash: Option<StagedHash>, a: seq<byte>, b: seq<byte>)
    ensures Update(hash, []) == hash && Update(Update(hash, a), b) == Update(hash, a + b)
  {
    if hash.Some? {
      var fed := hash.value.fed;
      assert fed + [] == fed && fed + a + b == fed + (a + b);
    }
  }

  // What a body amounts to when every write succeeds: its content, or the first problem.
  function Outcome(body: seq<Chunk>, limit: nat, got: seq<byte>): (r: Result<seq<byte>, StorageError>)
    ensures r.Err? ==> r.error.TooLarge? || r.error.StreamFailed?
  {
    if body == [] then Ok(got)
    else if body[0].Broken? then Err(StreamFailed)
    else if |got| + |body[0].bytes| > limit then Err(TooLarge(limit, |got| + |body[0].bytes|))
    else Outcome(body[1..], limit, got + body[0].bytes)
  }

  function Concat(body: seq<Chunk>): seq<byte> {
    if body == [] then [] else (if body[0].Data? then body[0].bytes else []) + Concat(body[1..])
  }

  /** A body is accepted exactly when it arrives whole and within the limit, and then its
      content is the concatenation of its chunks: how it was cut up does not matter. */
  lemma {:induction false} AcceptedIff(body: seq<Chunk>, limit: nat, got: seq<byte>)
    requires |got| <= limit
    ensures Outcome(body, limit, got).Ok? <==>
              (forall i | 0 <= i < |body| :: body[i].Data?) && |got| + |Concat(body)| <= limit
    ensures Outcome(body, limit, got).Ok? ==> Outcome(body, limit, got).value == got + Concat(body)
  {
    if body != [] && body[0].Data? && |got| + |body[0].bytes| <= limit {
      AcceptedIff(body[1..], limit, got + body[0].bytes);
      assert got + Concat(body) == got + body[0].bytes + Concat(body[1..]);
      assert (forall i | 0 <= i < |body| :: body[i].Data?) <==>
             (forall i | 0 <= i < |body[1..]| :: body[1..][i].Data?) by {
        assert forall i | 0 < i < |body| :: body[i] == body[1..][i - 1];
      }
    }
  }

  // The chunk that stops a body: everything before it arrived and fits.
  predicate Stops(body: seq<Chunk>, limit: nat, had: nat, i: nat, e: StorageError)
    requires i < |body|
  {
    var before := had + |Concat(body[..i])|;
    && (forall j | 0 <= j < i :: body[j].Data?) && before <= limit
    && if body[i].Broken? then e == StreamFailed
       else before + |body[i].bytes| > limit && e == TooLarge(limit, before + |body[i].bytes|)
  }

  /** A body that is not accepted is refused at its first problem, a broken stream or the
      chunk that goes past the limit, and for that reason. */
  lemma {:induction false} RefusedAtFirstProblem(body: seq<Chunk>, limit: nat, got: seq<byte>)
    requires |got| <= limit && Outcome(body, limit, got).Err?
    ensures exists i: nat :: i < |body| && Stops(body, limit, |got|, i, Outcome(body, limit, got).error)
  {
    var e := Outcome(body, limit, got).error;
    if body[0].Broken? || |got| + |body[0].bytes| > limit {
      assert body[..0] == [];
      assert Stops(body, limit, |got|, 0, e);
    } else {
      RefusedAtFirstProblem(body[1..], limit, got + body[0].bytes);
      var i: nat :| i < |body[1..]| && Stops(body[1..], limit, |got + body[0].bytes|, i, e);
      assert body[..i + 1][0] == body[0] && body[..i + 1][1..] == body[1..][..i];
      forall j | 0 <= j < i + 1 ensures body[j].Data? {
        if j > 0 { assert body[j] == body[1..][j - 1]; }
      }
      assert Stops(body, limit, |got|, i + 1, e);
    }
  }

  // The staging file, opened for appending. A write may stop anywhere and fail, and so
  // may a truncation; on a healthy disk neither does.
  class StagingFile {
    const healthy: bool
    var data: seq<byte>

    constructor (healthy: bool)
      ensures this.healthy == healthy && data == []
    {
      this.healthy := healthy;
      data := [];
    }

    method WriteAll(bytes: seq<byte>) returns (ok: bool)
      modifies this
      ensures ok ==> data == old(data) + bytes
      ensures !ok ==> exists n: nat :: n <= |bytes| && data == old(data) + bytes[..n]
      ensures healthy ==> ok
    {
      ok := *;
      ok := ok || healthy;
      if ok {
        data := data + bytes;
      } else {
        var n: nat :| n <= |bytes|;
        data := data + bytes[..n];
      }
    }

    method SetLen(n: nat) returns (ok: bool)
      requires n <= |data|
      modifies this
      ensures data == if ok then old(data)[..n] else old(data)
      ensures healthy ==> ok
    {
      ok := *;
      ok := ok || healthy;
      if ok { data := data[..n]; }
    }
  }

  // What an append leaves to be done: the tail is not in the file yet.
  datatype Deferred = Deferred(len: nat, hash: Option<StagedHash>, tail: seq<byte>, tailAt: nat)

  // Write a batch and hash it.
  method WriteBatch(file: StagingFile, batch: seq<byte>, hash: Option<StagedHash>)
    returns (ok: bool, hash': Option<StagedHash>)
    modifies file
    ensures ok ==> file.data == old(file.data) + batch && hash' == Update(hash, batch)
    ensures old(file.data) <= file.data && (file.healthy ==> ok)
  {
    ok := file.WriteAll(batch);
    hash' := if ok then Update(hash, batch) else None;
  }

  // Put one chunk through the batch; full batches go to the file.
  method Feed(file: StagingFile, chunk: seq<byte>, batch0: seq<byte>, hash0: Option<StagedHash>)
    returns (ok: bool, batch: seq<byte>, hash: Option<StagedHash>, written: nat)
    requires |batch0| < WRITE_BATCH
    modifies file
    ensures |batch| < WRITE_BATCH && old(file.data) <= file.data && (file.healthy ==> ok)
    ensures ok ==> file.data + batch == old(file.data) + batch0 + chunk
    ensures ok ==> hash == Update(hash0, file.data[|old(file.data)|..])
    ensures ok ==> |file.data| == |old(file.data)| + written
  {
    var rest := chunk;
    batch, hash, written := batch0, hash0, 0;
    UpdateParts(hash0, [], []);
    assert file.data[|file.data|..] == [];
    while rest != []
      invariant |batch| < WRITE_BATCH && old(file.data) <= file.data
      invariant file.data + batch + rest == old(file.data) + batch0 + chunk
      invariant hash == Update(hash0, file.data[|old(file.data)|..])
      invariant |file.data| == |old(file.data)| + written
      decreases |rest|
    {
      var take := if |rest| < WRITE_BATCH - |batch| then |rest| else WRITE_BATCH - |batch|;
      ghost var whole := file.data + batch + rest;
      batch, rest := batch + rest[..take], rest[take..];
      assert file.data + batch + rest == whole;
      if |batch| == WRITE_BATCH {
        ghost var before := file.data;
        ok, hash := WriteBatch(file, batch, hash);
        if !ok { return false, [], None, 0; }
        written := written + WRITE_BATCH;
        assert file.data[|old(file.data)|..] == before[|old(file.data)|..] + batch;
        UpdateParts(hash0, before[|old(file.data)|..], batch);
        batch := [];
        assert file.data + batch + rest == whole;
      }
    }
    ok := true;
  }

  // The loop over the body; `got` is the content received so far.
  method Receive(file: StagingFile, body: seq<Chunk>, limit: nat, hash0: Option<StagedHash>)
    returns (r: Result<seq<byte>, StorageError>, batch: seq<byte>, hash: Option<StagedHash>, written: nat)
    modifies file
    ensures |batch| < WRITE_BATCH && old(file.data) <= file.data
    ensures r.Ok? ==> r == Outcome(body, limit, []) && file.data + batch == old(file.data) + r.value
    ensures r.Ok? ==> hash == Update(hash0, file.data[|old(file.data)|..])
    ensures r.Ok? ==> |file.data| == |old(file.data)| + written
    ensures r.Err? ==> r.error == WriteFailed || r == Outcome(body, limit, [])
    ensures file.healthy ==> r == Outcome(body, limit, [])
  {
    var got: seq<byte> := [];
    batch, hash, written := [], hash0, 0;
    UpdateParts(hash0, [], []);
    assert file.data[|file.data|..] == [];
    var i := 0;
    assert body[0..] == body;
    while i < |body|
      invariant i <= |body| && |batch| < WRITE_BATCH && old(file.data) <= file.data
      invariant file.data + batch == old(file.data) + got && |file.data| == |old(file.data)| + written
      invariant hash == Update(hash0, file.data[|old(file.data)|..])
      invariant Outcome(body, limit, []) == Outcome(body[i..], limit, got)
    {
      assert body[i..][1..] == body[i + 1..];
      if body[i].Broken? { return Err(StreamFailed), batch, hash, written; }
      var received := written + |batch| + |body[i].bytes|;
      assert received == |got| + |body[i].bytes|;
      if received > limit { return Err(TooLarge(limit, received)), batch, hash, written; }
      ghost var before := file.data;
      var ok, n;
      ok, batch, hash, n := Feed(file, body[i].bytes, batch, hash);
      if !ok { return Err(WriteFailed), [], None, written; }
      written := written + n;
      assert file.data[|old(file.data)|..] == before[|old(file.data)|..] + file.data[|before|..];
      UpdateParts(hash0, before[|old(file.data)|..], file.data[|before|..]);
      got := got + body[i].bytes;
      assert file.data + batch == old(file.data) + got;
      i := i + 1;
    }
    r := Ok(got);
  }

  /** Append a body to a file of length `start`, all or nothing. */
  method AppendInner(file: StagingFile, start: nat, body: seq<Chunk>, limit: nat, hash0: Option<StagedHash>,
                     deferTail: bool)
    returns (r: Result<Deferred, StorageError>)
    requires start == |file.data|
    modifies file
    ensures r.Ok? ==> old(file.data) <= file.data && Outcome(body, limit, []) == Ok((file.data + r.value.tail)[start..])
    ensures r.Ok? ==> r.value.tailAt == |file.data| && r.value.len == |file.data| + |r.value.tail|
    ensures r.Ok? ==> |r.value.tail| < WRITE_BATCH && (!deferTail ==> r.value.tail == [])
    ensures r.Ok? ==> r.value.hash == if hash0.Some? && |hash0.value.fed| == start
                                      then Update(hash0, file.data[start..]) else None
    ensures r.Err? ==> if r.error == RollbackFailed then old(file.data) <= file.data else file.data == old(file.data)
    ensures r.Err? ==> r.error == WriteFailed || r.error == RollbackFailed || Outcome(body, limit, []) == Err(r.error)
    ensures file.healthy ==> (r.Ok? <==> Outcome(body, limit, []).Ok?)
    ensures file.healthy && r.Err? ==> file.data == old(file.data) && Outcome(body, limit, []) == Err(r.error)
  {
    var hash := if hash0.Some? && |hash0.value.fed| == start then hash0 else None;
    ghost var seed := hash;
    var got, batch, written;
    got, batch, hash, written := Receive(file, body, limit, hash);
    var problem: Option<StorageError> := if got.Err? then Some(got.error) else None;
    if got.Ok? && !deferTail && batch != [] {
      ghost var before := file.data;
      var ok;
      ok, hash := WriteBatch(file, batch, hash);
      if ok {
        assert file.data[start..] == before[start..] + batch;
        UpdateParts(seed, before[start..], batch);
        written, batch := written + |batch|, [];
      } else {
        problem := Some(WriteFailed);
      }
    }
    if problem.Some? {
      var ok := file.SetLen(start);
      return Err(if ok then problem.value else RollbackFailed);
    }
    assert (file.data + batch)[start..] == got.value;
    r := Ok(Deferred(start + written + |batch|, hash, batch, start + written));
  }

  /** Write the deferred tail, or take it back. */
  method WriteTail(file: StagingFile, d: Deferred) returns (r: Result<Option<StagedHash>, StorageError>)
    requires d.tailAt == |file.data|
    modifies file
    ensures r.Ok? ==> file.data == old(file.data) + d.tail && r.value == Update(d.hash, d.tail)
    ensures r.Err? ==> r.error == WriteFailed && old(file.data) <= file.data <= old(file.data) + d.tail
    ensures file.healthy ==> r.Ok?
  {
    if d.tail != [] {
      var ok := file.WriteAll(d.tail);
      if !ok {
        var _ := file.SetLen(d.tailAt);
        return Err(WriteFailed);
      }
      r := Ok(Update(d.hash, d.tail));
    } else {
      UpdateParts(d.hash, [], []);
      r := Ok(d.hash);
    }
  }

  /** On a healthy disk, appending with the tail deferred and then writing the tail ends
      in the same file, length and hash as appending directly. */
  method AppendThenTail(file: StagingFile, start: nat, body: seq<Chunk>, limit: nat, hash0: Option<StagedHash>)
    returns (r: Result<(nat, Option<StagedHash>), StorageError>)
    requires start == |file.data|
    modifies file
    ensures r.Ok? ==>
              && Outcome(body, limit, []).Ok? && file.data == old(file.data) + Outcome(body, limit, []).value
              && r.value.0 == |file.data|
              && r.value.1 == if hash0.Some? && |hash0.value.fed| == start then Update(hash0, file.data[start..])
                              else None
    ensures file.healthy && r.Err? ==> file.data == old(file.data) && Outcome(body, limit, []) == Err(r.error)
    ensures file.healthy ==> (r.Ok? <==> Outcome(body, limit, []).Ok?)
  {
    var d := AppendInner(file, start, body, limit, hash0, true);
    if d.Err? { return Err(d.error); }
    ghost var before := file.data;
    var h := WriteTail(file, d.value);
    if h.Err? { return Err(h.error); }
    assert file.data == old(file.data) + file.data[start..];
    assert file.data[start..] == before[start..] + d.value.tail;
    UpdateParts(hash0, before[start..], d.value.tail);
    r := Ok((d.value.len, h.value));
  }

  // An upload session: its staging file, whether that is still there, and the hash carried
  // from request to request.
  class UploadSession {
    const file: StagingFile
    var live: bool
    var hash: Option<StagedHash>

    // A carried hash is the hash of the whole file.
    ghost predicate Valid()
      reads this, file
    {
      hash.Some? ==> hash.value.fed == file.data
    }

    constructor (file: StagingFile)
      ensures Valid() && this.file == file && live && hash == None
    {
      this.file := file;
      live := true;
      hash := None;
    }

    method TakeSeed() returns (seed: Option<StagedHash>)
      requires Valid()
      modifies `hash
      ensures hash == None && (seed.Some? ==> seed.value.fed == file.data)
      ensures seed.Some? <==> old(hash).Some? || file.data == []
    {
      seed := if hash.Some? then hash else if |file.data| == 0 then Some(StagedHash([])) else None;
      hash := None;
    }

    /** One append request. */
    method Append(body: seq<Chunk>, offset: Option<nat>, limit: nat) returns (r: Result<nat, StorageError>)
      requires Valid()
      modifies this, file
      ensures Valid() && live == old(live) && (r == Err(NotFound) <==> !live)
      ensures r.Ok? ==>
                && Outcome(body, limit, []).Ok? && file.data == old(file.data) + Outcome(body, limit, []).value
                && r.value == |file.data|
      ensures r.Ok? && (old(hash).Some? || old(file.data) == []) ==> hash.Some?
      ensures r.Err? && r.error != RollbackFailed ==> file.data == old(file.data)
      ensures live && offset.Some? && offset.value != |old(file.data)| ==>
                r == Err(RangeNotSatisfiable(|old(file.data)|, offset.value)) && hash == old(hash)
    {
      if !live { return Err(NotFound); }
      var start := |file.data|;
      if offset.Some? && offset.value != start { return Err(RangeNotSatisfiable(start, offset.value)); }
      var seed := TakeSeed();
      var d := AppendInner(file, start, body, limit, seed, false);
      if d.Err? { return Err(d.error); }
      assert file.data == old(file.data) + file.data[start..];
      assert file.data + [] == file.data;
      hash := d.value.hash;
      r := Ok(d.value.len);
    }

    /** The last request: append what trails, then compare digests. Whether the digest was
        carried, completed on landing or recomputed, the upload is accepted only if it is
        the digest of the whole content, and on a healthy disk exactly then. The session
        ends with acceptance, a mismatch or an oversized upload; any other failure leaves it
        to be tried again, on a healthy disk with the content it had. */
    method Finish(trailing: seq<Chunk>, limit: nat, maxSize: nat, algorithm: string, expected: Digest, commit: bool,
                  hashOf: (string, seq<byte>) -> Digest) returns (r: Result<(), StorageError>)
      requires Valid()
      modifies this, file
      ensures Valid() && (r == Err(NotFound) <==> !old(live))
      ensures old(live) ==>
                (!live <==> r.Ok? || r.error.DigestMismatch? || (r.error.TooLarge? && Outcome(trailing, limit, []).Ok?))
      ensures live && file.healthy ==> file.data == old(file.data)
      ensures r.Ok? ==>
                && Outcome(trailing, limit, []).Ok? && file.data == old(file.data) + Outcome(trailing, limit, []).value
                && |file.data| <= maxSize && hashOf(algorithm, file.data) == expected
      ensures r.Err? && r.error.DigestMismatch? ==>
                Outcome(trailing, limit, []).Ok? &&
                  hashOf(algorithm, old(file.data) + Outcome(trailing, limit, []).value) != expected
      ensures file.healthy && old(live) ==>
                (r.Ok? <==> Outcome(trailing, limit, []).Ok?
                            && |old(file.data)| + |Outcome(trailing, limit, []).value| <= maxSize
                            && hashOf(algorithm, old(file.data) + Outcome(trailing, limit, []).value) == expected)
    {
      if !live { return Err(NotFound); }
      var start := |file.data|;
      var seed := TakeSeed();
      var appended := AppendInner(file, start, trailing, limit, seed, true);
      if appended.Err? { return Err(appended.error); }
      var d := appended.value;
      ghost var whole := file.data + d.tail;
      assert whole == old(file.data) + whole[start..];
      if d.len > maxSize { live := false; return Err(TooLarge(maxSize, d.len)); }
      if d.hash.Some? { assert d.hash.value.fed == file.data; }
      var covers := d.hash.Some? && |d.hash.value.fed| == d.tailAt && algorithm == "sha256";
      var h := WriteTail(file, d);
      if h.Err? { return Err(h.error); }
      live := false;
      var actual;
      if covers && !commit {
        if h.value.None? { return Err(DigestMismatch(expected)); }
        actual := hashOf("sha256", h.value.value.fed);
      } else {
        actual := if covers && h.value.Some? then hashOf("sha256", h.value.value.fed) else hashOf(algorithm, file.data);
      }
      if actual != expected { return Err(DigestMismatch(expected)); }
      r := Ok(());
    }
  }
}
