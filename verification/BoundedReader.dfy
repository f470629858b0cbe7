/**
 The bounded reader: the line index of one byte snapshot, excerpts cut from it, and the greedy
 choice of record bodies that keeps a serialized response within its byte budget.
 */
module BoundedReader {
  import opened Common

  const RESPONSE_BYTES: nat := 64 * 1024
  const EXCERPT_BYTES: nat := 8 * 1024
  const EXCERPT_LINES: nat := 80
  const NEWLINE: nat := 10
  const RECEIPT_CAP: nat := 20

  type Byte = n: nat | n < 256

  datatype ReaderError =
    | InvalidExcerptSpan | ExcerptLineBudgetExceeded | ExcerptOutOfRange | ExcerptByteBudgetExceeded
    | MetadataBudgetExceeded | InvalidReadReceipts | ReadReceiptCapReached

  // ---------------------------------------------------------------- the line index

  ghost function StartOf(ends: seq<nat>, line: nat): nat
    requires line < |ends|
  {
    if line == 0 then 0 else ends[line - 1]
  }

  /** A non-empty line, closed by its only newline or by the end of the bytes. */
  ghost predicate IsLine(bytes: seq<Byte>, start: nat, end: nat) {
    && start < end <= |bytes|
    && (forall i :: start <= i < end - 1 ==> bytes[i] != NEWLINE)
    && (end < |bytes| ==> bytes[end - 1] == NEWLINE)
  }

  /** ends cuts the bytes into lines: each starts where the one before it ends, and the last ends the bytes. */
  ghost predicate Partitions(bytes: seq<Byte>, ends: seq<nat>) {
    && (bytes == [] <==> ends == [])
    && (ends != [] ==> ends[|ends| - 1] == |bytes|)
    && forall k {:trigger StartOf(ends, k)} :: 0 <= k < |ends| ==> IsLine(bytes, StartOf(ends, k), ends[k])
  }

  /** The lines closed so far, and no newline since. */
  ghost predicate Indexed(bytes: seq<Byte>, ends: seq<nat>, offset: nat) {
    && offset <= |bytes|
    && (forall k {:trigger StartOf(ends, k)} :: 0 <= k < |ends| ==> IsLine(bytes, StartOf(ends, k), ends[k]))
    && var closed := if ends == [] then 0 else ends[|ends| - 1];
       && closed <= offset
       && (forall i :: closed <= i < offset ==> bytes[i] != NEWLINE)
  }

  lemma CloseLine(bytes: seq<Byte>, ends: seq<nat>, offset: nat)
    requires Indexed(bytes, ends, offset) && offset < |bytes| && (bytes[offset] == NEWLINE || offset + 1 == |bytes|)
    ensures Indexed(bytes, ends + [offset + 1], offset + 1)
  {
    var more := ends + [offset + 1];
    forall k {:trigger StartOf(more, k)} | 0 <= k < |more|
      ensures IsLine(bytes, StartOf(more, k), more[k])
    {
      if k < |ends| {
        assert StartOf(more, k) == StartOf(ends, k) && more[k] == ends[k];
      }
    }
  }

  method IndexLines(bytes: seq<Byte>) returns (lineEnds: seq<nat>)
    ensures Partitions(bytes, lineEnds)
  {
    lineEnds := [];
    var offset := 0;
    while offset < |bytes|
      invariant 0 <= offset <= |bytes|
      invariant Indexed(bytes, lineEnds, offset) && (lineEnds != [] ==> offset > 0)
    {
      if bytes[offset] == NEWLINE {
        CloseLine(bytes, lineEnds, offset);
        lineEnds := lineEnds + [offset + 1];
      }
      offset := offset + 1;
    }
    if bytes != [] && (lineEnds == [] || lineEnds[|lineEnds| - 1] != |bytes|) {
      assert Indexed(bytes, lineEnds, |bytes| - 1);
      CloseLine(bytes, lineEnds, |bytes| - 1);
      lineEnds := lineEnds + [|bytes|];
    }
  }

  lemma {:induction false} EndsIncrease(bytes: seq<Byte>, ends: seq<nat>, j: nat, k: nat)
    requires Partitions(bytes, ends) && j < k < |ends|
    ensures ends[j] < ends[k]
    decreases k
  {
    assert IsLine(bytes, StartOf(ends, k), ends[k]);
    if j < k - 1 {
      EndsIncrease(bytes, ends, j, k - 1);
    }
  }

  lemma LineFromHereIsUnique(bytes: seq<Byte>, start: nat, a: nat, b: nat)
    requires IsLine(bytes, start, a) && IsLine(bytes, start, b)
    ensures a == b
  {
  }

  lemma {:induction false} IndexesAgree(bytes: seq<Byte>, a: seq<nat>, b: seq<nat>, k: nat)
    requires Partitions(bytes, a) && Partitions(bytes, b) && k < |a|
    ensures k < |b| && a[k] == b[k]
    decreases k
  {
    assert IsLine(bytes, StartOf(a, k), a[k]);
    if k > 0 {
      IndexesAgree(bytes, a, b, k - 1);
    }
    assert IsLine(bytes, StartOf(b, k), b[k]);
    LineFromHereIsUnique(bytes, StartOf(a, k), a[k], b[k]);
  }

  /** A snapshot has only one line index. */
  lemma IndexIsUnique(bytes: seq<Byte>, a: seq<nat>, b: seq<nat>)
    requires Partitions(bytes, a) && Partitions(bytes, b)
    ensures a == b
  {
    forall k: nat | k < |a|
      ensures k < |b| && a[k] == b[k]
    {
      IndexesAgree(bytes, a, b, k);
    }
    if |a| < |b| {
      IndexesAgree(bytes, b, a, |a|);
    }
  }

  ghost function LineBytes(bytes: seq<Byte>, ends: seq<nat>, line: nat): seq<Byte>
    requires line < |ends| && StartOf(ends, line) <= ends[line] <= |bytes|
  {
    bytes[StartOf(ends, line)..ends[line]]
  }

  /** Lines first to last, counted from zero, one after the other. */
  ghost function Concatenated(bytes: seq<Byte>, ends: seq<nat>, first: nat, last: nat): seq<Byte>
    requires Partitions(bytes, ends) && first <= last < |ends|
    decreases last - first
  {
    assert IsLine(bytes, StartOf(ends, last), ends[last]);
    if first == last then LineBytes(bytes, ends, last)
    else Concatenated(bytes, ends, first, last - 1) + LineBytes(bytes, ends, last)
  }

  /** The lines between two indexes are exactly the bytes between the first one's start and the last one's end. */
  lemma {:induction false} LinesConcatenate(bytes: seq<Byte>, ends: seq<nat>, first: nat, last: nat)
    requires Partitions(bytes, ends) && first <= last < |ends|
    ensures StartOf(ends, first) <= ends[last] <= |bytes|
    ensures Concatenated(bytes, ends, first, last) == bytes[StartOf(ends, first)..ends[last]]
    decreases last - first
  {
    assert IsLine(bytes, StartOf(ends, last), ends[last]);
    if first < last {
      LinesConcatenate(bytes, ends, first, last - 1);
      var from, to := StartOf(ends, first), ends[last];
      assert bytes[from..to] == bytes[from..ends[last - 1]] + bytes[ends[last - 1]..to];
    }
  }

  // ---------------------------------------------------------------- excerpts

  datatype Excerpt = Excerpt(byteStart: nat, byteEnd: nat, bytes: seq<Byte>)

  function ValidateSpan(startLine: int, endLine: int): Option<ReaderError> {
    if startLine < 1 || endLine < startLine then Some(InvalidExcerptSpan)
    else if endLine - startLine + 1 > EXCERPT_LINES then Some(ExcerptLineBudgetExceeded)
    else None
  }

  method CutExcerpt(bytes: seq<Byte>, lineEnds: seq<nat>, startLine: int, endLine: int)
      returns (result: Result<Excerpt, ReaderError>)
    requires Partitions(bytes, lineEnds)
    ensures ValidateSpan(startLine, endLine).Some? ==> result == Failure(ValidateSpan(startLine, endLine).value)
    ensures ValidateSpan(startLine, endLine).None? ==>
              if endLine > |lineEnds| then result == Failure(ExcerptOutOfRange)
              else
                var lines := Concatenated(bytes, lineEnds, startLine - 1, endLine - 1);
                if |lines| > EXCERPT_BYTES then result == Failure(ExcerptByteBudgetExceeded)
                else result.Success? && result.value.bytes == lines
                     && result.value.byteEnd == lineEnds[endLine - 1]
                     && result.value.byteStart + |lines| == result.value.byteEnd
  {
    var invalid := ValidateSpan(startLine, endLine);
    if invalid.Some? {
      return Failure(invalid.value);
    }
    if endLine > |lineEnds| {
      return Failure(ExcerptOutOfRange);
    }
    LinesConcatenate(bytes, lineEnds, startLine - 1, endLine - 1);
    var start := if startLine == 1 then 0 else lineEnds[startLine - 2];
    var end := lineEnds[endLine - 1];
    if end - start > EXCERPT_BYTES {
      return Failure(ExcerptByteBudgetExceeded);
    }
    return Success(Excerpt(start, end, bytes[start..end]));
  }

  // ---------------------------------------------------------------- the response and its size

  function Width(c: char): nat {
    var code := c as int;
    if code < 0x80 then 1 else if code < 0x800 then 2 else if code < 0x1_0000 then 3 else 4
  }

  function ByteLength(text: string): nat {
    if text == [] then 0 else ByteLength(text[..|text| - 1]) + Width(text[|text| - 1])
  }

  lemma {:induction false} ByteLengthAdds(a: string, b: string)
    ensures ByteLength(a + b) == ByteLength(a) + ByteLength(b)
  {
    if b == [] {
      assert a + b == a;
    } else {
      assert (a + b)[..|a + b| - 1] == a + b[..|b| - 1];
      ByteLengthAdds(a, b[..|b| - 1]);
    }
  }

  datatype Receipt = Receipt(receiptId: string, preparedAt: string, reused: bool)

  /** The parts of the response that do not depend on the records or the receipt. */
  datatype Frame = Frame(head: string, claim: string, review: string, limits: string)

  function RenderBool(b: bool): string {
    if b then "true" else "false"
  }

  function RenderReceipt(frame: Frame, receipt: Receipt): string {
    "{\"receipt_id\":\"" + (receipt.receiptId + ("\",\"prepared_at\":\""
                                                 + (receipt.preparedAt
                                                    + ("\",\"reused\":" + (RenderBool(receipt.reused) + frame.claim)))))
  }

  function Join(results: seq<string>): string {
    if results == [] then ""
    else if |results| == 1 then results[0]
    else Join(results[..|results| - 1]) + ("," + results[|results| - 1])
  }

  function Render(frame: Frame, receipt: Receipt, results: seq<string>): string {
    frame.head + (RenderReceipt(frame, receipt) + (frame.review + (Join(results) + frame.limits)))
  }

  function Size(frame: Frame, receipt: Receipt, results: seq<string>): nat {
    ByteLength(Render(frame, receipt, results))
  }

  lemma SizeOfParts(frame: Frame, receipt: Receipt, results: seq<string>)
    ensures Size(frame, receipt, results)
            == ByteLength(frame.head) + ByteLength(RenderReceipt(frame, receipt)) + ByteLength(frame.review)
              + ByteLength(Join(results)) + ByteLength(frame.limits)
  {
    ByteLengthAdds(Join(results), frame.limits);
    ByteLengthAdds(frame.review, Join(results) + frame.limits);
    ByteLengthAdds(RenderReceipt(frame, receipt), frame.review + (Join(results) + frame.limits));
    ByteLengthAdds(frame.head, RenderReceipt(frame, receipt) + (frame.review + (Join(results) + frame.limits)));
  }

  lemma SizeOfReceipt(frame: Frame, receipt: Receipt)
    ensures ByteLength(RenderReceipt(frame, receipt))
            == ByteLength("{\"receipt_id\":\"") + ByteLength(receipt.receiptId) + ByteLength("\",\"prepared_at\":\"")
               + ByteLength(receipt.preparedAt) + ByteLength("\",\"reused\":") + ByteLength(RenderBool(receipt.reused))
               + ByteLength(frame.claim)
  {
    hide ByteLength;
    var tail := RenderBool(receipt.reused) + frame.claim;
    ByteLengthAdds(RenderBool(receipt.reused), frame.claim);
    ByteLengthAdds("\",\"reused\":", tail);
    ByteLengthAdds(receipt.preparedAt, "\",\"reused\":" + tail);
    ByteLengthAdds("\",\"prepared_at\":\"", receipt.preparedAt + ("\",\"reused\":" + tail));
    ByteLengthAdds(receipt.receiptId, "\",\"prepared_at\":\"" + (receipt.preparedAt + ("\",\"reused\":" + tail)));
    ByteLengthAdds("{\"receipt_id\":\"",
                   receipt.receiptId + ("\",\"prepared_at\":\"" + (receipt.preparedAt + ("\",\"reused\":" + tail))));
  }

  lemma TrueIsShorter()
    ensures ByteLength("true") == 4 && ByteLength("false") == 5
  {
    ByteLengthAdds("tr", "ue");
    ByteLengthAdds("t", "r");
    ByteLengthAdds("u", "e");
    assert "true" == "tr" + "ue" && "tr" == "t" + "r" && "ue" == "u" + "e";
    ByteLengthAdds("fal", "se");
    ByteLengthAdds("fa", "l");
    ByteLengthAdds("f", "a");
    ByteLengthAdds("s", "e");
    assert "false" == "fal" + "se" && "fal" == "fa" + "l" && "fa" == "f" + "a" && "se" == "s" + "e";
    assert ByteLength("t") == 1 && ByteLength("r") == 1 && ByteLength("u") == 1 && ByteLength("e") == 1;
    assert ByteLength("f") == 1 && ByteLength("a") == 1 && ByteLength("l") == 1 && ByteLength("s") == 1;
  }

  // ---------------------------------------------------------------- the greedy budget loop

  /** A prepared record: its full rendering, and the rendering that reserves only its metadata. */
  datatype Prepared = Prepared(full: string, metadata: string)

  function MetadataOnly(prepared: seq<Prepared>): seq<string> {
    seq(|prepared|, i requires 0 <= i < |prepared| => prepared[i].metadata)
  }

  /** Body k is kept exactly when it fits after the bodies kept before it and the metadata after it. */
  ghost predicate Greedy(frame: Frame, receipt: Receipt, prepared: seq<Prepared>, results: seq<string>) {
    && |results| == |prepared|
    && forall k :: 0 <= k < |results| ==>
         var candidate := results[..k] + [prepared[k].full] + MetadataOnly(prepared)[k + 1..];
         results[k] == if Size(frame, receipt, candidate) <= RESPONSE_BYTES then prepared[k].full
                       else prepared[k].metadata
  }

  method ChooseBodies(frame: Frame, receipt: Receipt, prepared: seq<Prepared>)
      returns (result: Result<seq<string>, ReaderError>)
    ensures result.Failure? <==> Size(frame, receipt, MetadataOnly(prepared)) > RESPONSE_BYTES
    ensures result.Failure? ==> result.error == MetadataBudgetExceeded
    ensures result.Success? ==>
              Size(frame, receipt, result.value) <= RESPONSE_BYTES && Greedy(frame, receipt, prepared, result.value)
  {
    hide Size;
    var results := MetadataOnly(prepared);
    if Size(frame, receipt, results) > RESPONSE_BYTES {
      return Failure(MetadataBudgetExceeded);
    }
    var index := 0;
    while index < |prepared|
      invariant 0 <= index <= |prepared| == |results|
      invariant Size(frame, receipt, results) <= RESPONSE_BYTES
      invariant results[index..] == MetadataOnly(prepared)[index..]
      invariant forall k :: 0 <= k < index ==>
                  var candidate := results[..k] + [prepared[k].full] + MetadataOnly(prepared)[k + 1..];
                  results[k] == if Size(frame, receipt, candidate) <= RESPONSE_BYTES then prepared[k].full
                                else prepared[k].metadata
    {
      ghost var before := results;
      var fallback := results[index];
      assert fallback == results[index..][0] == prepared[index].metadata;
      assert results[index + 1..] == results[index..][1..];
      results := results[index := prepared[index].full];
      assert results == before[..index] + [prepared[index].full] + MetadataOnly(prepared)[index + 1..];
      if Size(frame, receipt, results) > RESPONSE_BYTES {
        results := results[index := fallback];
        assert results == before;
      }
      forall k | 0 <= k <= index
        ensures results[..k] == before[..k]
      {
      }
      index := index + 1;
    }
    return Success(results);
  }

  const PLACEHOLDER: string := "read_" + seq(64, _ => '0')

  /**
   The response stays within its budget when the placeholder receipt id gives way to the real one,
   of the same length, and when a reused receipt brings back an earlier, no longer timestamp.
   */
  lemma OverwrittenReceiptStillFits(frame: Frame, results: seq<string>, preparedAt: string, receiptId: string,
                                    earlier: string)
    requires Size(frame, Receipt(PLACEHOLDER, preparedAt, false), results) <= RESPONSE_BYTES
    requires ByteLength(receiptId) == ByteLength(PLACEHOLDER) && ByteLength(earlier) <= ByteLength(preparedAt)
    ensures Size(frame, Receipt(receiptId, preparedAt, false), results) <= RESPONSE_BYTES
    ensures Size(frame, Receipt(receiptId, earlier, true), results) <= RESPONSE_BYTES
  {
    hide ByteLength, Size;
    SizeOfParts(frame, Receipt(PLACEHOLDER, preparedAt, false), results);
    SizeOfParts(frame, Receipt(receiptId, preparedAt, false), results);
    SizeOfParts(frame, Receipt(receiptId, earlier, true), results);
    SizeOfReceipt(frame, Receipt(PLACEHOLDER, preparedAt, false));
    SizeOfReceipt(frame, Receipt(receiptId, preparedAt, false));
    SizeOfReceipt(frame, Receipt(receiptId, earlier, true));
    TrueIsShorter();
  }

  // ---------------------------------------------------------------- one read

  /** What the invocation artifact keeps of an earlier read. */
  datatype StoredReceipt = StoredReceipt(receiptId: string, preparedAt: string)

  datatype Response = Response(receipt: Receipt, results: seq<string>)

  predicate IsHex(c: char) {
    '0' <= c <= '9' || 'a' <= c <= 'f'
  }

  predicate IsReceiptId(id: string) {
    |id| == 69 && id[..5] == "read_" && forall k :: 5 <= k < 69 ==> IsHex(id[k])
  }

  predicate IsDigit(c: char) {
    '0' <= c <= '9'
  }

  const TIMESTAMP := "dddd-dd-ddTdd:dd:dd.dddZ"

  /** Four-digit years only; a clock beyond them writes a longer timestamp. */
  predicate IsTimestamp(text: string) {
    |text| == |TIMESTAMP|
    && forall k :: 0 <= k < |text| ==> if TIMESTAMP[k] == 'd' then IsDigit(text[k]) else text[k] == TIMESTAMP[k]
  }

  predicate ValidReceipts(receipts: seq<StoredReceipt>) {
    && |receipts| <= RECEIPT_CAP
    && (forall r <- receipts :: IsReceiptId(r.receiptId) && IsTimestamp(r.preparedAt))
    && forall i, j :: 0 <= i < j < |receipts| ==> receipts[i].receiptId != receipts[j].receiptId
  }

  ghost predicate Ascii(text: string) {
    forall k :: 0 <= k < |text| ==> text[k] < 128 as char
  }

  lemma {:induction false} AsciiIsOneByteEach(text: string)
    requires Ascii(text)
    ensures ByteLength(text) == |text|
  {
    if text != [] {
      AsciiIsOneByteEach(text[..|text| - 1]);
    }
  }

  lemma {:induction false} AtLeastOneByteEach(text: string)
    ensures ByteLength(text) >= |text|
  {
    if text != [] {
      AtLeastOneByteEach(text[..|text| - 1]);
    }
  }

  lemma ReceiptIdLength(id: string)
    requires IsReceiptId(id)
    ensures ByteLength(id) == ByteLength(PLACEHOLDER) == 69
  {
    assert id == "read_" + id[5..];
    assert forall k :: 0 <= k < 5 ==> id[k] == "read_"[k];
    AsciiIsOneByteEach(id);
    AsciiIsOneByteEach(PLACEHOLDER);
  }

  lemma TimestampLength(text: string)
    requires IsTimestamp(text)
    ensures ByteLength(text) == 24
  {
    assert Ascii(TIMESTAMP);
    AsciiIsOneByteEach(text);
  }

  ghost predicate Known(receipts: seq<StoredReceipt>, receiptId: string) {
    exists r <- receipts :: r.receiptId == receiptId
  }

  method FindReceipt(receipts: seq<StoredReceipt>, receiptId: string) returns (existing: Option<StoredReceipt>)
    ensures existing.Some? <==> Known(receipts, receiptId)
    ensures existing.Some? ==> existing.value in receipts && existing.value.receiptId == receiptId
  {
    for i := 0 to |receipts|
      invariant !Known(receipts[..i], receiptId)
    {
      if receipts[i].receiptId == receiptId {
        return Some(receipts[i]);
      }
      assert receipts[..i + 1] == receipts[..i] + [receipts[i]];
    }
    assert receipts[..|receipts|] == receipts;
    return None;
  }

  /**
   One whole read. The bodies are chosen under the placeholder receipt; the response that leaves,
   with the receipt id computed from the chosen bodies and, for a reused receipt, the time of the
   first read, is still within the budget.
   */
  method ReadRecords(frame: Frame, prepared: seq<Prepared>, now: string, receiptIdOf: seq<string> -> string,
                     receipts: seq<StoredReceipt>)
      returns (result: Result<Response, ReaderError>, stored: seq<StoredReceipt>)
    requires |now| >= 24
    requires forall results: seq<string> :: IsReceiptId(receiptIdOf(results))
    ensures var placeholder := Receipt(PLACEHOLDER, now, false);
            && (result == Failure(MetadataBudgetExceeded)
                <==> Size(frame, placeholder, MetadataOnly(prepared)) > RESPONSE_BYTES)
            && (result.Success? ==> Greedy(frame, placeholder, prepared, result.value.results))
    ensures result.Success? ==>
              var Response(receipt, results) := result.value;
              && ValidReceipts(receipts) && (IsTimestamp(now) ==> ValidReceipts(stored))
              && Size(frame, receipt, results) <= RESPONSE_BYTES
              && receipt.receiptId == receiptIdOf(results)
              && receipt.reused == Known(receipts, receipt.receiptId)
              && if receipt.reused then
                stored == receipts && StoredReceipt(receipt.receiptId, receipt.preparedAt) in receipts
              else
                && receipt.preparedAt == now && |stored| <= RECEIPT_CAP
                && stored == receipts + [StoredReceipt(receipt.receiptId, now)]
    ensures result.Failure? ==> stored == receipts
    ensures result.Failure? && result.error != MetadataBudgetExceeded ==>
              if !ValidReceipts(receipts) then result.error == InvalidReadReceipts
              else result.error == ReadReceiptCapReached && |receipts| == RECEIPT_CAP
  {
    hide Size, Greedy, ByteLength, IsReceiptId, IsTimestamp, MetadataOnly;
    stored := receipts;
    var placeholder := Receipt(PLACEHOLDER, now, false);
    var chosen := ChooseBodies(frame, placeholder, prepared);
    if chosen.Failure? {
      return Failure(chosen.error), stored;
    }
    var results := chosen.value;
    var receiptId := receiptIdOf(results);
    if !ValidReceipts(receipts) {
      return Failure(InvalidReadReceipts), stored;
    }
    ReceiptIdLength(receiptId);
    AtLeastOneByteEach(now);
    var existing := FindReceipt(receipts, receiptId);
    if existing.Some? {
      var reused := existing.value;
      TimestampLength(reused.preparedAt);
      OverwrittenReceiptStillFits(frame, results, now, receiptId, reused.preparedAt);
      return Success(Response(Receipt(receiptId, reused.preparedAt, true), results)), stored;
    }
    if |receipts| == RECEIPT_CAP {
      return Failure(ReadReceiptCapReached), stored;
    }
    OverwrittenReceiptStillFits(frame, results, now, receiptId, now);
    stored := receipts + [StoredReceipt(receiptId, now)];
    return Success(Response(Receipt(receiptId, now, false), results)), stored;
  }
}
