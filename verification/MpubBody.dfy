/** The binary body of an HTTP mpub request (asyncnsq/http/writer.py), and its relation to
    the body of a TCP MPUB command. */
module MpubBody {
  import opened Prelude
  import opened BigEndian
  import opened Commands

  lemma ConcatPair(chunks: seq<bytes>, x: bytes, y: bytes)
    ensures Concat(chunks + [x, y]) == Concat(chunks) + (x + y)
  {
    ConcatAppend(chunks, [x, y]);
    assert [x, y][1..] == [y] && Concat([y]) == y + Concat([]);
  }

  lemma {:induction false} EncodePartsAppend(parts: seq<bytes>, part: bytes)
    requires EncodeParts(parts).Some? && IsLength(|part|)
    ensures EncodeParts(parts + [part]) == Some(EncodeParts(parts).value + (PackLength(|part|) + part))
  {
    if parts == [] {
      var encoded := PackLength(|part|) + part;
      assert encoded + [] == encoded && [] + encoded == encoded;
      assert parts + [part] == [part] && [part][1..] == parts;
    } else {
      assert (parts + [part])[1..] == parts[1..] + [part];
      EncodePartsAppend(parts[1..], part);
      var first, others := PackLength(|parts[0]|) + parts[0], EncodeParts(parts[1..]).value;
      assert first + (others + (PackLength(|part|) + part)) == (first + others) + (PackLength(|part|) + part);
    }
  }

  /** The chunks collected for the parts read so far. */
  ghost predicate Collected(payload: seq<bytes>, count: bytes, parts: seq<bytes>)
  {
    EncodeParts(parts).Some? && Concat(payload) == count + EncodeParts(parts).value
  }

  lemma CollectedAppend(payload: seq<bytes>, count: bytes, parts: seq<bytes>, part: bytes)
    requires Collected(payload, count, parts) && IsLength(|part|)
    ensures Collected(payload + [PackLength(|part|), part], count, parts + [part])
  {
    EncodePartsAppend(parts, part);
    ConcatPair(payload, PackLength(|part|), part);
    AppendAssociates(count, EncodeParts(parts).value, PackLength(|part|) + part);
  }

  /** `None` stands for the `struct.error` that a length of 2^31 or more raises. */
  method EncodeHttpMpubBody(parts: seq<bytes>) returns (r: Option<bytes>)
    ensures r.Some? <==> IsLength(|parts|) && forall p :: p in parts ==> IsLength(|p|)
    ensures r.Some? ==> EncodeParts(parts).Some? && r.value == PackLength(|parts|) + EncodeParts(parts).value
  {
    if !IsLength(|parts|) {
      return None;
    }
    EncodePartsSize(parts);
    var payload := [PackLength(|parts|)];
    for i := 0 to |parts|
      invariant Collected(payload, PackLength(|parts|), parts[..i])
    {
      var part := parts[i];
      if !IsLength(|part|) {
        return None;
      }
      CollectedAppend(payload, PackLength(|parts|), parts[..i], part);
      assert parts[..i + 1] == parts[..i] + [part];
      payload := payload + [PackLength(|part|), part];
    }
    assert parts[..|parts|] == parts;
    return Some(Concat(payload));
  }

  /** The TCP body is the HTTP body `h` behind its 4-byte length, and the sizes agree; the
      TCP encoder also refuses an `h` that is too long for that length. */
  lemma MpubBodiesAgree(parts: seq<bytes>)
    requires IsLength(|parts|) && EncodeParts(parts).Some?
    ensures var h := PackLength(|parts|) + EncodeParts(parts).value;
            && |h| == 4 + PartsSize(parts)
            && EncodeData(Many(parts)) == if IsLength(|h|) then Some(PackLength(|h|) + h) else None
  {
    EncodePartsSize(parts);
  }
}
