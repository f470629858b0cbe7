/**
 What a bounded read promises its caller: which spans and receipts are accepted, what the rendered
 response holds, and how its size adds up.
 */
module ReaderAnswers {
  import opened Common
  import opened BoundedReader

  // ---------------------------------------------------------------- sizes

  /** The bytes of a character in UTF-8. */
  ghost predicate TakesBytes(c: char, width: nat) {
    && (width == 1 <==> c as int <= 127) && (width == 2 <==> 128 <= c as int <= 2047)
    && (width == 3 <==> 2048 <= c as int <= 65535) && (width == 4 <==> 65536 <= c as int)
  }

  /** The size of a text is the sum of its characters' bytes. */
  ghost predicate Measures(text: string, widths: seq<nat>) {
    && |widths| == |text| && forall k :: 0 <= k < |text| ==> TakesBytes(text[k], widths[k])
  }

  ghost function Sum(sizes: seq<nat>): nat {
    if sizes == [] then 0 else sizes[0] + Sum(sizes[1..])
  }

  lemma {:induction false} SumSnoc(sizes: seq<nat>, last: nat)
    ensures Sum(sizes + [last]) == Sum(sizes) + last
  {
    if sizes == [] {
      assert [] + [last] == [last];
    } else {
      SumSnoc(sizes[1..], last);
      assert (sizes + [last])[1..] == sizes[1..] + [last];
    }
  }

  lemma {:induction false} ByteLengthMeasures(text: string) returns (widths: seq<nat>)
    ensures Measures(text, widths) && ByteLength(text) == Sum(widths)
  {
    widths := [];
    if text != [] {
      var n := |text| - 1;
      var earlier := ByteLengthMeasures(text[..n]);
      widths := earlier + [Width(text[n])];
      SumSnoc(earlier, Width(text[n]));
    }
  }

  ghost function SizesOf(texts: seq<string>): seq<nat> {
    seq(|texts|, i requires 0 <= i < |texts| => ByteLength(texts[i]))
  }

  lemma CommaIsOneByte()
    ensures ByteLength(",") == 1
  {
    assert ","[..0] == "";
  }

  lemma {:induction false} JoinedSize(results: seq<string>)
    ensures ByteLength(Join(results)) == Sum(SizesOf(results)) + if results == [] then 0 else |results| - 1
  {
    if results != [] {
      hide ByteLength;
      var n := |results| - 1;
      SumSnoc(SizesOf(results[..n]), ByteLength(results[n]));
      assert SizesOf(results) == SizesOf(results[..n]) + [ByteLength(results[n])];
      if n > 0 {
        JoinedSize(results[..n]);
        CommaIsOneByte();
        ByteLengthAdds(",", results[n]);
        ByteLengthAdds(Join(results[..n]), "," + results[n]);
      } else {
        assert SizesOf(results[..0]) == [];
      }
    }
  }

  /** The size of a response is that of its records, a comma between each two, and its fixed parts. */
  lemma SizesAddUp(frame: Frame, receipt: Receipt, results: seq<string>)
    ensures Size(frame, receipt, results)
         == Sum(SizesOf(results)) + (if results == [] then 0 else |results| - 1)
            + ByteLength(frame.head) + ByteLength(RenderReceipt(frame, receipt)) + ByteLength(frame.review)
            + ByteLength(frame.limits)
  {
    hide ByteLength, Size;
    SizeOfParts(frame, receipt, results);
    JoinedSize(results);
  }

  // ---------------------------------------------------------------- what the response holds

  ghost predicate HoldsAt(text: string, part: string, offset: nat) {
    offset + |part| <= |text| && text[offset..offset + |part|] == part
  }

  /** A comma stands between a record and the one before it. */
  ghost predicate FollowsOn(text: string, parts: seq<string>, offsets: seq<nat>, k: nat)
    requires 0 < k < |parts| == |offsets|
  {
    && offsets[k] == offsets[k - 1] + |parts[k - 1]| + 1
    && HoldsAt(text, ",", offsets[k] - 1)
  }

  /** Every record stands in the text, right after a comma that follows the one before it. */
  ghost predicate HoldsInOrder(text: string, parts: seq<string>, offsets: seq<nat>) {
    && |offsets| == |parts|
    && (forall k :: 0 <= k < |parts| ==> HoldsAt(text, parts[k], offsets[k]))
    && forall k: nat :: 0 < k < |parts| ==> FollowsOn(text, parts, offsets, k)
  }

  /** The joined text is exactly the records and the commas between them. */
  ghost predicate IsJoined(text: string, parts: seq<string>, offsets: seq<nat>) {
    && HoldsInOrder(text, parts, offsets)
    && (parts == [] ==> text == "")
    && (parts != [] ==> offsets[0] == 0 && offsets[|parts| - 1] + |parts[|parts| - 1]| == |text|)
  }

  lemma HoldsFurther(text: string, tail: string, part: string, offset: nat)
    requires HoldsAt(text, part, offset)
    ensures HoldsAt(text + tail, part, offset)
  {
    assert (text + tail)[offset..offset + |part|] == text[offset..offset + |part|];
  }

  lemma HoldsLater(head: string, text: string, part: string, offset: nat)
    requires HoldsAt(text, part, offset)
    ensures HoldsAt(head + text, part, |head| + offset)
  {
    assert (head + text)[|head| + offset..|head| + offset + |part|] == text[offset..offset + |part|];
  }

  lemma JoinOneMore(text: string, parts: seq<string>, offsets: seq<nat>, last: string)
    requires IsJoined(text, parts, offsets) && parts != []
    ensures IsJoined(text + ("," + last), parts + [last], offsets + [|text| + 1])
  {
    hide HoldsAt;
    var all, places, longer := parts + [last], offsets + [|text| + 1], text + ("," + last);
    forall k | 0 <= k < |all|
      ensures HoldsAt(longer, all[k], places[k])
    {
      if k < |parts| {
        HoldsFurther(text, "," + last, parts[k], offsets[k]);
      } else {
        HoldsItself(text + ",", last, "");
        assert (text + ",") + last + "" == longer;
      }
    }
    forall k: nat | 0 < k < |all|
      ensures FollowsOn(longer, all, places, k)
    {
      if k < |parts| {
        assert FollowsOn(text, parts, offsets, k);
        HoldsFurther(text, "," + last, ",", offsets[k] - 1);
      } else {
        HoldsItself(text, ",", last);
        assert text + "," + last == longer;
      }
    }
  }

  lemma HoldsItself(head: string, part: string, tail: string)
    ensures HoldsAt(head + part + tail, part, |head|)
  {
    assert (head + part + tail)[|head|..|head| + |part|] == part;
  }

  lemma JoinSnoc(results: seq<string>, last: string)
    ensures Join(results + [last]) == if results == [] then last else Join(results) + ("," + last)
  {
    assert (results + [last])[..|results|] == results;
  }

  lemma OneIsJoined(last: string)
    ensures IsJoined(last, [last], [0])
  {
    HoldsItself("", last, "");
    assert "" + last + "" == last;
  }

  lemma NoneIsJoined()
    ensures IsJoined(Join([]), [], [])
  {
  }

  lemma {:induction false} JoinJoins(results: seq<string>) returns (offsets: seq<nat>)
    ensures IsJoined(Join(results), results, offsets)
  {
    hide Join, IsJoined;
    if results == [] {
      offsets := [];
      NoneIsJoined();
    } else {
      var n := |results| - 1;
      assert results == results[..n] + [results[n]];
      JoinSnoc(results[..n], results[n]);
      if n == 0 {
        offsets := [0];
        OneIsJoined(results[0]);
        assert results == [results[0]];
      } else {
        var earlier := JoinJoins(results[..n]);
        JoinOneMore(Join(results[..n]), results[..n], earlier, results[n]);
        offsets := earlier + [|Join(results[..n])| + 1];
      }
    }
  }

  /** The response is its head, the receipt, the review notice, the joined records and the limits, in this order. */
  ghost predicate IsRendered(frame: Frame, receipt: Receipt, results: seq<string>, text: string) {
    exists joined: string, offsets: seq<nat> ::
      && IsJoined(joined, results, offsets)
      && text == frame.head + RenderReceipt(frame, receipt) + frame.review + joined + frame.limits
  }

  lemma ResponsesHoldTheirRecords(frame: Frame, receipt: Receipt, results: seq<string>)
    ensures IsRendered(frame, receipt, results, Render(frame, receipt, results))
  {
    hide IsJoined, RenderReceipt, Join;
    var offsets := JoinJoins(results);
    var joined := Join(results);
    assert Render(frame, receipt, results)
        == frame.head + RenderReceipt(frame, receipt) + frame.review + joined + frame.limits;
  }

  // ---------------------------------------------------------------- what is accepted

  /** A span names lines from one, in order, and no more than a read may return. */
  lemma SpansRefusedExactlyWhen(startLine: int, endLine: int)
    ensures var refused := ValidateSpan(startLine, endLine);
            && (refused == Some(InvalidExcerptSpan) <==> startLine <= 0 || endLine < startLine)
            && (refused == Some(ExcerptLineBudgetExceeded) <==>
                  1 <= startLine <= endLine && endLine - startLine >= 80)
            && (refused == None <==> 1 <= startLine <= endLine && endLine - startLine < 80)
  {
  }

  /** read_ and the 64 lower-case hexadecimal digits of a digest. */
  ghost predicate NamesReceipt(id: string) {
    exists digits: string ::
      id == "read_" + digits && |digits| == 64 && forall c <- digits :: c in "0123456789abcdef"
  }

  /** An ISO time with milliseconds, in UTC and within four-digit years. */
  ghost predicate NamesTime(text: string) {
    && |text| == 24
    && text[4] == '-' && text[7] == '-' && text[10] == 'T' && text[13] == ':' && text[16] == ':'
    && text[19] == '.' && text[23] == 'Z'
    && forall k :: 0 <= k < 23 && k !in {4, 7, 10, 13, 16, 19} ==> text[k] in "0123456789"
  }

  lemma HexDigits(c: char)
    ensures IsHex(c) <==> c in "0123456789abcdef"
    ensures IsDigit(c) <==> c in "0123456789"
  {
    var hex, ten := "0123456789abcdef", "0123456789";
    if IsDigit(c) {
      assert c == ten[c as int - '0' as int] && c == hex[c as int - '0' as int];
    } else if IsHex(c) {
      assert c == hex[c as int - 'a' as int + 10];
    }
  }

  lemma ReceiptIdsExactly(id: string)
    ensures IsReceiptId(id) <==> NamesReceipt(id)
  {
    forall c: char
      ensures IsHex(c) <==> c in "0123456789abcdef"
    {
      HexDigits(c);
    }
    hide IsHex;
    if IsReceiptId(id) {
      assert id == "read_" + id[5..];
    }
    if digits: string :| id == "read_" + digits && |digits| == 64 && forall c <- digits :: c in "0123456789abcdef" {
      assert id[..5] == "read_" && id[5..] == digits;
    }
  }

  lemma TimesExactly(text: string)
    ensures IsTimestamp(text) <==> NamesTime(text)
  {
    forall c: char
      ensures IsDigit(c) <==> c in "0123456789"
    {
      HexDigits(c);
    }
    hide IsDigit;
    var form := TIMESTAMP;
    assert |form| == 24 && form[4] == '-' && form[7] == '-' && form[10] == 'T' && form[13] == ':' && form[16] == ':';
    assert form[19] == '.' && form[23] == 'Z';
    assert forall k :: 0 <= k < 23 && k !in {4, 7, 10, 13, 16, 19} ==> form[k] == 'd';
  }

  /** At most twenty receipts, each properly named and timed, under different ids. */
  lemma ReceiptsAcceptedExactlyWhen(receipts: seq<StoredReceipt>)
    ensures ValidReceipts(receipts) <==>
              && |receipts| <= 20
              && (forall r <- receipts :: NamesReceipt(r.receiptId) && NamesTime(r.preparedAt))
              && forall i, j :: 0 <= i < j < |receipts| ==> receipts[i].receiptId != receipts[j].receiptId
  {
    hide IsReceiptId, IsTimestamp, NamesReceipt, NamesTime;
    forall r | r in receipts
      ensures IsReceiptId(r.receiptId) <==> NamesReceipt(r.receiptId)
      ensures IsTimestamp(r.preparedAt) <==> NamesTime(r.preparedAt)
    {
      ReceiptIdsExactly(r.receiptId);
      TimesExactly(r.preparedAt);
    }
  }
}
