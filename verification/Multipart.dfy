/**
 Streaming upload to S3 (core/blob_storage.py): chunks of any size are re-cut into parts of
 exactly 5 MiB and a last one, and a failure aborts the upload.
 */
module Multipart {
  import opened Wrappers

  type Byte = b: int | 0 <= b < 256
  type Bytes = seq<Byte>

  const MIN_MULTIPART_PART_BYTES := 5 * 1024 * 1024

  function Concat(parts: seq<Bytes>): Bytes {
    if parts == [] then [] else Concat(parts[..|parts| - 1]) + parts[|parts| - 1]
  }

  lemma ConcatAppend(parts: seq<Bytes>, p: Bytes)
    ensures Concat(parts + [p]) == Concat(parts) + p
  {
    assert (parts + [p])[..|parts + [p]| - 1] == parts;
  }

  /** Every part but the last is full; the last is not empty unless it is the only one. */
  predicate WellCut(parts: seq<Bytes>, size: nat) {
    && |parts| >= 1
    && (forall i :: 0 <= i < |parts| - 1 ==> |parts[i]| == size)
    && |parts[|parts| - 1]| <= size
    && (|parts| > 1 ==> |parts[|parts| - 1]| > 0)
  }

  lemma {:induction false} FullPartsLength(parts: seq<Bytes>, size: nat)
    requires forall i :: 0 <= i < |parts| ==> |parts[i]| == size
    ensures |Concat(parts)| == |parts| * size
  {
    if parts != [] {
      var n := |parts| - 1;
      FullPartsLength(parts[..n], size);
      assert |Concat(parts)| == |Concat(parts[..n])| + size;
      hide Concat;
      assert |parts| * size == n * size + size;
    }
  }

  /** There is only one way to cut data like that, so the parts depend on the data and not on the chunks. */
  lemma {:induction false} WellCutIsUnique(a: seq<Bytes>, b: seq<Bytes>, size: nat)
    requires size > 0 && WellCut(a, size) && WellCut(b, size) && Concat(a) == Concat(b)
    ensures a == b
  {
    hide Concat;
    var fullA, lastA := a[..|a| - 1], a[|a| - 1];
    var fullB, lastB := b[..|b| - 1], b[|b| - 1];
    assert a == fullA + [lastA] && b == fullB + [lastB];
    ConcatAppend(fullA, lastA);
    ConcatAppend(fullB, lastB);
    FullPartsLength(fullA, size);
    FullPartsLength(fullB, size);
    SameQuotient(|fullA|, |lastA|, |fullB|, |lastB|, size);
    SameSplit(Concat(fullA), lastA, Concat(fullB), lastB);
    FullPartsEqual(fullA, fullB, size);
  }

  lemma SameSplit(p: Bytes, q: Bytes, r: Bytes, t: Bytes)
    requires p + q == r + t && |p| == |r|
    ensures p == r && q == t
  {
    assert p == (p + q)[..|p|] && r == (r + t)[..|r|];
    assert q == (p + q)[|p|..] && t == (r + t)[|r|..];
  }

  lemma SameQuotient(m: nat, r: nat, n: nat, t: nat, size: nat)
    requires size > 0 && m * size + r == n * size + t
    requires r <= size && t <= size && (m > 0 ==> r > 0) && (n > 0 ==> t > 0)
    ensures m == n
  {
    if m < n {
      NextMultiple(m, n, size);
    } else if n < m {
      NextMultiple(n, m, size);
    }
  }

  lemma {:induction false} NextMultiple(m: nat, n: nat, size: nat)
    requires m < n
    ensures n * size >= m * size + size
    decreases n
  {
    if m < n - 1 {
      NextMultiple(m, n - 1, size);
    }
    assert n * size == (n - 1) * size + size;
  }

  lemma {:induction false} FullPartsEqual(a: seq<Bytes>, b: seq<Bytes>, size: nat)
    requires |a| == |b| && Concat(a) == Concat(b)
    requires forall i :: 0 <= i < |a| ==> |a[i]| == size && |b[i]| == size
    ensures a == b
  {
    if a != [] {
      var n := |a| - 1;
      FullPartsLength(a[..n], size);
      FullPartsLength(b[..n], size);
      SameSplit(Concat(a[..n]), a[n], Concat(b[..n]), b[n]);
      FullPartsEqual(a[..n], b[..n], size);
      assert a == a[..n] + [a[n]] && b == b[..n] + [b[n]];
    }
  }

  /** What the caller's chunk iterator does at one step. */
  datatype Chunk = Data(bytes: Bytes) | TooLarge | SourceFails

  datatype Error = S3StorageError | PayloadTooLarge

  datatype Upload = Upload(key: string, parts: map<nat, Bytes>)

  /**
   The bucket. `calls` counts the calls; `broken` are the ordinal numbers of those that fail without effect, `lost` of
   those that take effect but whose reply does not arrive. A completed upload becomes the object made of the listed
   parts, in order; S3 takes it only if the upload and the parts exist, the parts ascend, and all but the last have
   the minimum size.
   */
  class Bucket {
    var objects: map<string, Bytes>
    var uploads: map<nat, Upload>
    var nextUpload: nat
    var calls: nat
    const broken: set<nat>
    const lost: set<nat>

    constructor (broken: set<nat>, lost: set<nat>)
      ensures this.broken == broken && this.lost == lost
      ensures objects == map[] && uploads == map[] && nextUpload == 0 && calls == 0
    {
      this.broken, this.lost, objects, uploads, nextUpload, calls := broken, lost, map[], map[], 0, 0;
    }

    /** The next call takes effect, and whether its caller is told. */
    predicate TakesEffect()
      reads this
    {
      calls !in broken
    }

    predicate Works()
      reads this
    {
      calls !in broken && calls !in lost
    }

    method CreateMultipartUpload(key: string) returns (r: Option<nat>)
      requires forall u :: u in uploads ==> u < nextUpload
      modifies this
      ensures objects == old(objects) && calls == old(calls) + 1
      ensures r == if old(calls) !in broken && old(calls) !in lost then Some(old(nextUpload)) else None
      ensures uploads == if old(TakesEffect()) then old(uploads)[old(nextUpload) := Upload(key, map[])] else old(uploads)
      ensures forall u :: u in uploads ==> u < nextUpload
    {
      r := if Works() then Some(nextUpload) else None;
      if TakesEffect() {
        uploads, nextUpload := uploads[nextUpload := Upload(key, map[])], nextUpload + 1;
      }
      calls := calls + 1;
    }

    method UploadPart(id: nat, number: nat, body: Bytes) returns (ok: bool)
      requires id in uploads
      modifies this`uploads, this`calls
      ensures calls == old(calls) + 1 && ok == (old(calls) !in broken && old(calls) !in lost)
      ensures uploads == if old(TakesEffect())
                         then old(uploads)[id := old(uploads)[id].(parts := old(uploads)[id].parts[number := body])]
                         else old(uploads)
    {
      ok := Works();
      if TakesEffect() {
        var u := uploads[id];
        uploads := uploads[id := u.(parts := u.parts[number := body])];
      }
      calls := calls + 1;
    }

    method CompleteMultipartUpload(id: nat, numbers: seq<nat>) returns (ok: bool)
      requires id in uploads
      modifies this`objects, this`uploads, this`calls
      ensures calls == old(calls) + 1
      ensures ok == (old(calls) !in broken && old(calls) !in lost && Acceptable(old(uploads)[id].parts, numbers))
      ensures if old(TakesEffect()) && Acceptable(old(uploads)[id].parts, numbers)
              then uploads == old(uploads) - {id}
                   && objects == old(objects)[old(uploads)[id].key := Concat(Bodies(old(uploads)[id].parts, numbers))]
              else uploads == old(uploads) && objects == old(objects)
    {
      var accepted := Acceptable(uploads[id].parts, numbers);
      ok := Works() && accepted;
      if TakesEffect() && accepted {
        objects := objects[uploads[id].key := Concat(Bodies(uploads[id].parts, numbers))];
        uploads := uploads - {id};
      }
      calls := calls + 1;
    }

    /** Aborting an upload that is not there is an error. */
    method AbortMultipartUpload(id: nat) returns (ok: bool)
      modifies this`uploads, this`calls
      ensures calls == old(calls) + 1 && ok == (old(calls) !in broken && old(calls) !in lost && id in old(uploads))
      ensures uploads == if old(TakesEffect()) then old(uploads) - {id} else old(uploads)
    {
      ok := Works() && id in uploads;
      if TakesEffect() {
        uploads := uploads - {id};
      }
      calls := calls + 1;
    }
  }

  predicate Acceptable(parts: map<nat, Bytes>, numbers: seq<nat>) {
    && numbers != []
    && (forall i :: 0 <= i < |numbers| ==> numbers[i] in parts)
    && (forall i, j :: 0 <= i < j < |numbers| ==> numbers[i] < numbers[j])
    && (forall i :: 0 <= i < |numbers| - 1 ==> |parts[numbers[i]]| >= MIN_MULTIPART_PART_BYTES)
  }

  function Bodies(parts: map<nat, Bytes>, numbers: seq<nat>): (r: seq<Bytes>)
    requires forall i :: 0 <= i < |numbers| ==> numbers[i] in parts
    ensures |r| == |numbers| && forall i :: 0 <= i < |r| ==> r[i] == parts[numbers[i]]
  {
    seq(|numbers|, i requires 0 <= i < |numbers| => parts[numbers[i]])
  }

  predicate AllData(chunks: seq<Chunk>) {
    forall i :: 0 <= i < |chunks| ==> chunks[i].Data?
  }

  function Payload(chunks: seq<Chunk>): Bytes {
    if chunks == [] then []
    else Payload(chunks[..|chunks| - 1])
         + (if chunks[|chunks| - 1].Data? then chunks[|chunks| - 1].bytes else [])
  }

  /** The payload is the bytes of the chunks, all of them and in their order. */
  lemma {:induction false} PayloadIsInOrder(chunks: seq<Chunk>, more: seq<Chunk>, bytes: Bytes)
    ensures Payload([]) == [] && Payload([Data(bytes)]) == bytes
    ensures Payload(chunks + more) == Payload(chunks) + Payload(more)
    decreases |more|
  {
    assert [Data(bytes)][..0] == [];
    if more == [] {
      assert chunks + more == chunks;
    } else {
      var front := more[..|more| - 1];
      PayloadIsInOrder(chunks, front, bytes);
      assert (chunks + more)[..|chunks + more| - 1] == chunks + front;
    }
  }

  lemma PayloadNext(chunks: seq<Chunk>, i: nat)
    requires i < |chunks|
    ensures Payload(chunks[..i + 1]) == Payload(chunks[..i]) + if chunks[i].Data? then chunks[i].bytes else []
    ensures AllData(chunks[..i]) && chunks[i].Data? ==> AllData(chunks[..i + 1])
    ensures !chunks[i].Data? ==> !AllData(chunks)
  {
    assert chunks[..i + 1][..i] == chunks[..i];
  }

  /** The parts sent so far: numbered from 1 without gaps, each of the full size. */
  ghost predicate Sent(b: Bucket, id: nat, sent: seq<Bytes>, numbers: seq<nat>)
    reads b
  {
    && |sent| == |numbers|
    && (forall i :: 0 <= i < |numbers| ==> numbers[i] == i + 1)
    && id in b.uploads && (forall n :: n in b.uploads[id].parts ==> n <= |numbers|)
    && (forall i :: 0 <= i < |sent| ==> numbers[i] in b.uploads[id].parts && b.uploads[id].parts[numbers[i]] == sent[i])
  }

  /** How an attempt at the parts ended. */
  datatype Outcome = Complete | Broken(error: Error)

  /** Some call made since there were `since` of them has failed, or seemed to. */
  ghost predicate CallFailed(b: Bucket, since: nat)
    reads b
  {
    exists c :: since <= c < b.calls && c in b.broken + b.lost
  }

  /** Nothing but the parts of this upload has changed. */
  twostate predicate OnlyPartsOf(b: Bucket, id: nat)
    reads b
  {
    && id in old(b.uploads) && id in b.uploads && b.uploads[id].key == old(b.uploads)[id].key
    && b.uploads - {id} == old(b.uploads) - {id}
    && b.calls >= old(b.calls)
  }

  /** Sends one part under the next number. */
  method SendPart(b: Bucket, id: nat, body: Bytes, ghost sent: seq<Bytes>, numbers: seq<nat>) returns (ok: bool)
    requires Sent(b, id, sent, numbers)
    modifies b`uploads, b`calls
    ensures OnlyPartsOf(b, id)
    ensures ok ==> Sent(b, id, sent + [body], numbers + [|numbers| + 1])
    ensures !ok ==> CallFailed(b, old(b.calls))
  {
    ghost var first := b.calls;
    ok := b.UploadPart(id, |numbers| + 1, body);
    assert !ok ==> first in b.broken + b.lost;
  }

  /** The inner loop: full parts leave the buffer until less than one is left. */
  method Drain(b: Bucket, id: nat, buffer: Bytes, ghost sent0: seq<Bytes>, numbers0: seq<nat>)
      returns (ok: bool, pending: Bytes, ghost sent: seq<Bytes>, numbers: seq<nat>)
    requires Sent(b, id, sent0, numbers0)
    requires forall k :: 0 <= k < |sent0| ==> |sent0[k]| == MIN_MULTIPART_PART_BYTES
    modifies b`uploads, b`calls
    ensures OnlyPartsOf(b, id)
    ensures !ok ==> CallFailed(b, old(b.calls))
    ensures ok ==> Sent(b, id, sent, numbers) && |pending| < 5 * 1024 * 1024
    ensures forall k :: 0 <= k < |sent| ==> |sent[k]| == 5 * 1024 * 1024
    ensures Concat(sent) + pending == Concat(sent0) + buffer
  {
    ok, pending, sent, numbers := true, buffer, sent0, numbers0;
    while |pending| >= MIN_MULTIPART_PART_BYTES
      invariant OnlyPartsOf(b, id) && Sent(b, id, sent, numbers)
      invariant forall k :: 0 <= k < |sent| ==> |sent[k]| == MIN_MULTIPART_PART_BYTES
      invariant Concat(sent) + pending == Concat(sent0) + buffer
      decreases |pending|
    {
      var part := pending[..MIN_MULTIPART_PART_BYTES];
      ghost var before := b.calls;
      ok := SendPart(b, id, part, sent, numbers);
      if !ok {
        ghost var c :| before <= c < b.calls && c in b.broken + b.lost;
        return;
      }
      ConcatAppend(sent, part);
      assert Concat(sent + [part]) + pending[MIN_MULTIPART_PART_BYTES..] == Concat(sent) + pending;
      pending := pending[MIN_MULTIPART_PART_BYTES..];
      sent, numbers := sent + [part], numbers + [|numbers| + 1];
    }
  }

  /** What is left goes as the last part; empty input still makes one. */
  method SendLast(b: Bucket, id: nat, pending: Bytes, ghost sent0: seq<Bytes>, numbers0: seq<nat>)
      returns (ok: bool, ghost sent: seq<Bytes>, numbers: seq<nat>)
    requires Sent(b, id, sent0, numbers0) && |pending| < MIN_MULTIPART_PART_BYTES
    requires forall k :: 0 <= k < |sent0| ==> |sent0[k]| == MIN_MULTIPART_PART_BYTES
    modifies b`uploads, b`calls
    ensures OnlyPartsOf(b, id)
    ensures !ok ==> CallFailed(b, old(b.calls))
    ensures ok ==> Sent(b, id, sent, numbers) && WellCut(sent, MIN_MULTIPART_PART_BYTES)
                   && Concat(sent) == Concat(sent0) + pending
  {
    ok, sent, numbers := true, sent0, numbers0;
    if pending != [] || numbers == [] {
      ok := SendPart(b, id, pending, sent, numbers);
      ConcatAppend(sent, pending);
      sent, numbers := sent + [pending], numbers + [|numbers| + 1];
    }
  }

  /** The part loop (core/blob_storage.py:200-237). */
  method SendParts(b: Bucket, id: nat, chunks: seq<Chunk>)
      returns (outcome: Outcome, ghost sent: seq<Bytes>, numbers: seq<nat>)
    requires id in b.uploads && b.uploads[id].parts == map[]
    modifies b`uploads, b`calls
    ensures OnlyPartsOf(b, id)
    ensures outcome.Complete? ==>
              && AllData(chunks) && Sent(b, id, sent, numbers)
              && WellCut(sent, 5 * 1024 * 1024) && Concat(sent) == Payload(chunks)
    ensures outcome == Broken(PayloadTooLarge) ==> TooLarge in chunks
    ensures outcome.Broken? && AllData(chunks) ==> CallFailed(b, old(b.calls))
  {
    sent, numbers := [], [];
    var pending: Bytes := [];
    assert Concat(sent) + pending == Payload(chunks[..0]) && AllData(chunks[..0]) && Sent(b, id, sent, numbers);
    hide Acceptable, WellCut, Concat, Payload, AllData, Sent;
    var i := 0;
    while i < |chunks|
      invariant 0 <= i <= |chunks|
      invariant id in b.uploads && OnlyPartsOf(b, id) && Sent(b, id, sent, numbers)
      invariant forall k :: 0 <= k < |sent| ==> |sent[k]| == MIN_MULTIPART_PART_BYTES
      invariant AllData(chunks[..i]) && Concat(sent) + pending == Payload(chunks[..i])
      invariant |pending| < MIN_MULTIPART_PART_BYTES
    {
      PayloadNext(chunks, i);
      match chunks[i] {
        case TooLarge =>
          return Broken(PayloadTooLarge), sent, numbers;
        case SourceFails =>
          return Broken(S3StorageError), sent, numbers;
        case Data(bytes) =>
          assert Concat(sent) + (pending + bytes) == Payload(chunks[..i + 1]);
          ghost var before := b.calls;
          var ok;
          ok, pending, sent, numbers := Drain(b, id, pending + bytes, sent, numbers);
          if !ok {
            ghost var c :| before <= c < b.calls && c in b.broken + b.lost;
            return Broken(S3StorageError), sent, numbers;
          }
      }
      i := i + 1;
    }
    assert chunks[..i] == chunks;
    var ok;
    ok, sent, numbers := SendLast(b, id, pending, sent, numbers);
    outcome := if ok then Complete else Broken(S3StorageError);
  }

  lemma WellCutIsAcceptable(b: Bucket, id: nat, sent: seq<Bytes>, numbers: seq<nat>)
    requires Sent(b, id, sent, numbers) && WellCut(sent, MIN_MULTIPART_PART_BYTES)
    ensures Acceptable(b.uploads[id].parts, numbers)
  {
  }

  /** How far an upload got: the ordinal number of its complete call, if it came to that. */
  datatype Progress = NotCreated | NotCompleting | Completing(call: nat)

  /** The complete call took effect, although the upload may have been told otherwise. */
  predicate Completed(b: Bucket, p: Progress)
    reads b
  {
    p.Completing? && p.call !in b.broken
  }

  /** A new upload is there that was not there before. */
  twostate predicate UploadLeft(b: Bucket)
    reads b
  {
    exists u :: u in b.uploads && u !in old(b.uploads)
  }

  /**
   The whole upload, with the abort on any failure and the mapping of errors. A failure leaves an effect in exactly
   these cases: the object is written if the reply to the complete call was lost; an upload is left, which nobody
   aborts, if the reply to the create call was lost, or if the abort itself had no effect on an upload that was not
   completed.
   */
  method UploadStream(b: Bucket, key: string, chunks: seq<Chunk>)
      returns (r: Result<string, Error>, ghost sent: seq<Bytes>, ghost progress: Progress)
    requires forall u :: u in b.uploads ==> u < b.nextUpload
    modifies b
    ensures r.Success? ==>
              && r.value == key && AllData(chunks)
              && b.objects == old(b.objects)[key := Payload(chunks)]
              && WellCut(sent, 5 * 1024 * 1024) && Concat(sent) == Payload(chunks)
              && b.uploads == old(b.uploads)
    ensures r.Failure? ==>
              b.objects == if Completed(b, progress) then old(b.objects)[key := Payload(chunks)] else old(b.objects)
    ensures r.Failure? && Completed(b, progress) ==> AllData(chunks) && progress.call in b.lost
    ensures r.Failure? ==>
              (UploadLeft(b) <==>
                 if progress.NotCreated? then old(b.TakesEffect())
                 else !Completed(b, progress) && b.calls - 1 in b.broken)
    ensures progress.NotCreated? ==> r.Failure? && b.calls == old(b.calls) + 1 && old(b.calls) in b.broken + b.lost
    ensures r.Failure? && progress.Completing? ==> old(b.calls) < progress.call == b.calls - 2
    ensures r.Failure? ==> forall u :: u in old(b.uploads) ==> u in b.uploads && b.uploads[u] == old(b.uploads)[u]
    ensures r == Failure(PayloadTooLarge) ==>
              TooLarge in chunks && b.uploads == old(b.uploads) && b.objects == old(b.objects)
    ensures r.Failure? && AllData(chunks) ==> CallFailed(b, old(b.calls))
  {
    hide Concat, Payload, AllData, WellCut;
    sent, progress := [], NotCreated;
    ghost var first := b.calls;
    var created := b.CreateMultipartUpload(key);
    if created.None? {
      assert first in b.broken + b.lost;
      assert first !in b.broken ==> old(b.nextUpload) in b.uploads;
      return Failure(S3StorageError), sent, progress;
    }
    var id := created.value;
    progress := NotCompleting;
    ghost var afterCreate := b.calls;
    var outcome, parts, numbers := SendParts(b, id, chunks);
    sent := parts;
    if outcome.Broken? && AllData(chunks) {
      ghost var c :| afterCreate <= c < b.calls && c in b.broken + b.lost;
    }
    if outcome.Complete? {
      progress := Completing(b.calls);
      WellCutIsAcceptable(b, id, sent, numbers);
      assert Bodies(b.uploads[id].parts, numbers) == sent;
      var ok := b.CompleteMultipartUpload(id, numbers);
      if ok {
        assert b.uploads == old(b.uploads);
        return Success(key), sent, progress;
      }
      assert progress.call in b.broken + b.lost;
      outcome := Broken(S3StorageError);
    }
    ghost var before := b.uploads;
    assert before - {id} == old(b.uploads) - {id} == old(b.uploads);
    assert forall u :: u in old(b.uploads) ==> u in before - {id} && (before - {id})[u] == old(b.uploads)[u];
    var aborted := b.AbortMultipartUpload(id);
    if b.calls - 1 !in b.broken {
      assert b.uploads == old(b.uploads);
    } else {
      assert b.uploads == before && (id in before <==> !Completed(b, progress));
    }
    r := Failure(if aborted then outcome.error else S3StorageError);
  }
}
