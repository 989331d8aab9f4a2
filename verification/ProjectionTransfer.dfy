/** `CompatibilityLedgerService._read_projection`: a file is fetched in slices through the container shell. */
module ProjectionTransfer {
  import opened Wrappers

  const CHUNK_CHARS := 12_000

  /** The structured result of one shell call, reduced to the fields that the loop reads. */
  datatype Reply = Reply(infrastructureError: bool, timedOut: bool, truncated: bool, output: Option<string>)

  datatype Request = Request(offset: nat, count: nat)

  /** Raised stands for the UnicodeEncodeError of `encoded.encode("ascii")`. */
  datatype Transfer = Rejected | Raised | Delivered(encoded: string)

  /** The number of slices that a file of this size takes: the size over the slice length, rounded up. */
  function SliceCount(size: nat): nat {
    (size + CHUNK_CHARS - 1) / CHUNK_CHARS
  }

  /** The slice with number `k`. */
  function Slice(size: nat, k: nat): Request
    requires k < SliceCount(size)
  {
    Request(k * CHUNK_CHARS, if size - k * CHUNK_CHARS < CHUNK_CHARS then size - k * CHUNK_CHARS else CHUNK_CHARS)
  }

  /** The chunk that a reply to a request for `count` characters is worth, one trailing newline forgiven. */
  function Chunk(reply: Option<Reply>, count: nat): Option<string> {
    if reply.None? || reply.value.infrastructureError || reply.value.timedOut || reply.value.truncated
       || reply.value.output.None?
    then None
    else
      var text := reply.value.output.value;
      var chunk := if |text| == count + 1 && text[count] == '\n' then text[..count] else text;
      if |chunk| == count then Some(chunk) else None
  }

  /** The part of `text` that slice `k` of a file of this size covers. */
  function Part(size: nat, text: string, k: nat): string
    requires k < SliceCount(size) && Slice(size, k).offset + Slice(size, k).count <= |text|
  {
    text[Slice(size, k).offset..Slice(size, k).offset + Slice(size, k).count]
  }

  /** The length of the first `k` slices. */
  function Covered(size: nat, k: nat): nat {
    if k * CHUNK_CHARS < size then k * CHUNK_CHARS else size
  }

  /** The first `n` replies carry the first `n` slices of a file that starts with `text`. */
  ghost predicate CarriesFirst(replies: nat -> Option<Reply>, size: nat, text: string, n: nat) {
    && n <= SliceCount(size)
    && |text| == Covered(size, n)
    && forall k :: 0 <= k < n ==> Chunk(replies(k), Slice(size, k).count) == Some(Part(size, text, k))
  }

  /** The replies carry exactly the slices of `data`. */
  ghost predicate Carries(replies: nat -> Option<Reply>, data: string) {
    CarriesFirst(replies, |data|, data, SliceCount(|data|))
  }

  lemma CarriesOneMore(replies: nat -> Option<Reply>, size: nat, text: string, n: nat, chunk: string)
    requires CarriesFirst(replies, size, text, n) && n < SliceCount(size)
    requires Chunk(replies(n), Slice(size, n).count) == Some(chunk)
    ensures CarriesFirst(replies, size, text + chunk, n + 1)
  {
    forall k | 0 <= k <= n ensures Chunk(replies(k), Slice(size, k).count) == Some(Part(size, text + chunk, k)) {
      if k < n {
        assert Part(size, text + chunk, k) == Part(size, text, k);
      } else {
        assert Part(size, text + chunk, k) == chunk;
      }
    }
  }

  /** The replies carry one file of a given size at most. */
  lemma CarriedIsUnique(replies: nat -> Option<Reply>, a: string, b: string)
    requires |a| == |b| && Carries(replies, a) && Carries(replies, b)
    ensures a == b
  {
    forall i | 0 <= i < |a| ensures a[i] == b[i] {
      var k := SlicesTile(|a|, i);
      assert Part(|a|, a, k) == Part(|a|, b, k);
      assert Part(|a|, a, k)[i - Slice(|a|, k).offset] == a[i];
      assert Part(|a|, b, k)[i - Slice(|a|, k).offset] == b[i];
    }
  }

  predicate Ascii(text: string) {
    forall i :: 0 <= i < |text| ==> text[i] < 128 as char
  }

  method ReadProjection(size: nat, digest: string, replies: nat -> Option<Reply>, sha256: string -> string)
    returns (transfer: Transfer, requests: seq<Request>)
    // the slices are requested in order, and no slice is requested after one that came back wrong
    ensures |requests| <= SliceCount(size)
    ensures forall k :: 0 <= k < |requests| ==> requests[k] == Slice(size, k)
    ensures forall k :: 0 <= k < |requests| - 1 ==> Chunk(replies(k), requests[k].count).Some?
    // what is delivered is the file, and every file that was served intact is delivered
    ensures forall data :: |data| == size && Carries(replies, data) ==>
              && |requests| == SliceCount(size)
              && transfer == if !Ascii(data) then Raised else if sha256(data) == digest then Delivered(data) else Rejected
    ensures !transfer.Rejected? ==> exists data :: |data| == size && Carries(replies, data)
    ensures transfer.Delivered? ==> |transfer.encoded| == size && sha256(transfer.encoded) == digest
  {
    requests := [];
    var encoded := "";
    var k := 0;
    while k < SliceCount(size)
      invariant 0 <= k <= SliceCount(size) && |requests| == k
      invariant forall j :: 0 <= j < k ==> requests[j] == Slice(size, j)
      invariant CarriesFirst(replies, size, encoded, k)
    {
      var request := Slice(size, k);
      requests := requests + [request];
      var chunk := Chunk(replies(k), request.count);
      if chunk.None? {
        return Rejected, requests;
      }
      CarriesOneMore(replies, size, encoded, k, chunk.value);
      encoded := encoded + chunk.value;
      k := k + 1;
    }
    assert Carries(replies, encoded);
    forall data | |data| == size && Carries(replies, data) ensures data == encoded {
      CarriedIsUnique(replies, data, encoded);
    }
    if !Ascii(encoded) {
      return Raised, requests;
    }
    if sha256(encoded) != digest {
      return Rejected, requests;
    }
    return Delivered(encoded), requests;
  }

  /** Every position of the file lies in exactly one slice. */
  lemma SlicesTile(size: nat, i: nat) returns (k: nat)
    requires i < size
    ensures k < SliceCount(size) && Slice(size, k).offset <= i < Slice(size, k).offset + Slice(size, k).count
    ensures forall j :: 0 <= j < SliceCount(size) && Slice(size, j).offset <= i < Slice(size, j).offset + Slice(size, j).count ==> j == k
  {
    k := i / CHUNK_CHARS;
  }

  /** What an honest shell prints for a slice: the slice itself, or the slice and a newline. */
  predicate Serves(reply: Option<Reply>, slice: string) {
    && reply.Some?
    && !reply.value.infrastructureError && !reply.value.timedOut && !reply.value.truncated
    && (reply.value.output == Some(slice) || reply.value.output == Some(slice + "\n"))
  }

  /** Serving every slice of a file is enough, also when the file itself contains newlines. */
  lemma HonestShellCarries(replies: nat -> Option<Reply>, data: string)
    requires forall k :: 0 <= k < SliceCount(|data|) ==> Serves(replies(k), Part(|data|, data, k))
    ensures Carries(replies, data)
  {
    forall k | 0 <= k < SliceCount(|data|)
      ensures Chunk(replies(k), Slice(|data|, k).count) == Some(Part(|data|, data, k))
    {
      var slice := Part(|data|, data, k);
      assert Serves(replies(k), slice);
      assert (slice + "\n")[..|slice|] == slice;
    }
  }
}
