/** The bytes of a revision's files, taken out of one stream of headers and blobs. */
module Release {
  import opened Wrappers
  import opened ByteStrings
  import opened Framing
  import Decimal

  /** One requested file, and the blob the stream answers it with. */
  datatype Request = Request(name: Bytes, mode: Bytes)
  datatype Blob = Blob(sha: Bytes, kind: Bytes, data: Bytes)

  type Payload = map<Bytes, (Bytes, Bytes)>

  // ------------------------------------------------------------ reading

  function IndexOf(batch: Bytes, mark: byte, from: nat): Option<nat>
    requires from <= |batch|
    ensures IndexOf(batch, mark, from).Some? ==> from <= IndexOf(batch, mark, from).value < |batch|
    decreases |batch| - from
  {
    if from == |batch| then None
    else if batch[from] == mark then Some(from)
    else IndexOf(batch, mark, from + 1)
  }

  /** The fields of a header between single spaces. */
  function Fields(header: Bytes): (fields: seq<Bytes>)
    ensures fields != []
    decreases |header|
  {
    match IndexOf(header, SPACE, 0)
    case None => [header]
    case Some(at) => [header[..at]] + Fields(header[at + 1..])
  }

  predicate IsNumeral(text: Bytes) {
    text != [] && forall i | 0 <= i < |text| :: 48 <= text[i] <= 57
  }

  function NumberOf(text: Bytes): nat
    requires forall i | 0 <= i < |text| :: 48 <= text[i] <= 57
  {
    if text == [] then 0 else NumberOf(text[..|text| - 1]) * 10 + (text[|text| - 1] - 48)
  }

  /** The size a header states, and None where it has no third field or that is no number. */
  function SizeOf(header: Bytes): Option<nat> {
    var fields := Fields(header);
    if |fields| < 3 || !IsNumeral(fields[2]) then None else Some(NumberOf(fields[2]))
  }

  function Clamp(n: nat, limit: nat): nat {
    if n < limit then n else limit
  }

  /** One entry of the stream at an offset: its data and where the next one starts; None where
      reading it raises. */
  function EntryAt(batch: Bytes, offset: nat): Option<(Bytes, nat)> {
    var from := Clamp(offset, |batch|);
    match IndexOf(batch, NEWLINE, from)
    case None => None
    case Some(end) =>
      match SizeOf(batch[from..end])
      case None => None
      case Some(size) =>
        var start := end + 1;
        Some((batch[Clamp(start, |batch|)..Clamp(start + size, |batch|)], start + size + 1))
  }

  /** What the offset loop does from an offset on: the payload it fills, and where it ends. */
  function Taken(batch: Bytes, offset: nat, requests: seq<Request>, payload: Payload): Option<(Payload, nat)>
    decreases |requests|
  {
    if requests == [] then Some((payload, offset))
    else
      match EntryAt(batch, offset)
      case None => None
      case Some((data, next)) =>
        Taken(batch, next, requests[1..], payload[requests[0].name := (requests[0].mode, data)])
  }

  method ReadBatch(batch: Bytes, requests: seq<Request>) returns (answer: Option<(Payload, nat)>)
    ensures answer == Taken(batch, 0, requests, map[])
  {
    hide IndexOf, SizeOf, Fields;
    var payload: Payload := map[];
    var offset: nat := 0;
    var i := 0;
    while i < |requests|
      invariant 0 <= i <= |requests|
      invariant Taken(batch, offset, requests[i..], payload) == Taken(batch, 0, requests, map[])
    {
      assert requests[i..][0] == requests[i] && requests[i..][1..] == requests[i + 1..];
      var from := Clamp(offset, |batch|);
      var headerEnd := IndexOf(batch, NEWLINE, from);
      if headerEnd == None { return None; }
      var size := SizeOf(batch[from..headerEnd.value]);
      if size == None { return None; }
      var start := headerEnd.value + 1;
      var data := batch[Clamp(start, |batch|)..Clamp(start + size.value, |batch|)];
      assert EntryAt(batch, offset) == Some((data, start + size.value + 1));
      payload := payload[requests[i].name := (requests[i].mode, data)];
      offset := start + size.value + 1;
      i := i + 1;
    }
    return Some((payload, offset));
  }

  // ------------------------------------------------------------ what is read back

  predicate BlobOk(blob: Blob) {
    && SPACE !in blob.sha && NEWLINE !in blob.sha
    && SPACE !in blob.kind && NEWLINE !in blob.kind
  }

  function Header(blob: Blob): Bytes {
    blob.sha + [SPACE] + blob.kind + [SPACE] + LengthOf(blob.data)
  }

  /** The stream: a header, the data, each with a newline, whatever the data holds. */
  function Batch(blobs: seq<Blob>): Bytes {
    if blobs == [] then []
    else Header(blobs[0]) + [NEWLINE] + blobs[0].data + [NEWLINE] + Batch(blobs[1..])
  }

  /** Every request with its own blob's bytes; a name asked for twice keeps the later answer. */
  function Answered(requests: seq<Request>, blobs: seq<Blob>, payload: Payload): Payload
    requires |requests| == |blobs|
  {
    if requests == [] then payload
    else Answered(requests[1..], blobs[1..], payload[requests[0].name := (requests[0].mode, blobs[0].data)])
  }

  lemma {:induction false} FindsIndex(batch: Bytes, mark: byte, from: nat, at: nat)
    requires from <= at < |batch| && batch[at] == mark
    requires forall i | from <= i < at :: batch[i] != mark
    ensures IndexOf(batch, mark, from) == Some(at)
    decreases at - from
  {
    if from < at { FindsIndex(batch, mark, from + 1, at); }
  }

  lemma {:induction false} FindsNothing(batch: Bytes, mark: byte, from: nat)
    requires from <= |batch| && mark !in batch
    ensures IndexOf(batch, mark, from) == None
    decreases |batch| - from
  {
    if from < |batch| { FindsNothing(batch, mark, from + 1); }
  }

  lemma OneField(first: Bytes, rest: Bytes)
    requires SPACE !in first
    ensures Fields(first + [SPACE] + rest) == [first] + Fields(rest)
    ensures Fields(first) == [first]
  {
    var header := first + [SPACE] + rest;
    FindsIndex(header, SPACE, 0, |first|);
    assert header[..|first|] == first && header[|first| + 1..] == rest;
    FindsNothing(first, SPACE, 0);
  }

  lemma {:induction false} AsciiReads(text: string)
    requires Decimal.AllDigits(text)
    ensures forall i | 0 <= i < |Ascii(text)| :: 48 <= Ascii(text)[i] <= 57
    ensures NumberOf(Ascii(text)) == Decimal.Value(text)
  {
    var bytes := Ascii(text);
    forall i | 0 <= i < |bytes| ensures 48 <= bytes[i] <= 57 {
      assert Decimal.IsDigit(text[i]);
    }
    if text != "" {
      AsciiReads(text[..|text| - 1]);
      assert bytes[..|bytes| - 1] == Ascii(text[..|text| - 1]);
    }
  }

  lemma LengthReads(data: Bytes)
    ensures var length := LengthOf(data);
            && SPACE !in length && NEWLINE !in length
            && IsNumeral(length) && NumberOf(length) == |data|
  {
    AsciiReads(Decimal.Numeral(|data|));
    Decimal.ValueOfNumeral(|data|);
  }

  lemma ThreeFields(a: Bytes, b: Bytes, c: Bytes)
    requires SPACE !in a && SPACE !in b && SPACE !in c
    ensures Fields(a + [SPACE] + b + [SPACE] + c) == [a, b, c]
  {
    assert a + [SPACE] + b + [SPACE] + c == a + [SPACE] + (b + [SPACE] + c);
    OneField(a, b + [SPACE] + c);
    OneField(b, c);
    OneField(c, []);
  }

  lemma HeaderReads(blob: Blob)
    requires BlobOk(blob)
    ensures SizeOf(Header(blob)) == Some(|blob.data|) && NEWLINE !in Header(blob)
  {
    LengthReads(blob.data);
    hide LengthOf, IsNumeral, NumberOf, Fields;
    ThreeFields(blob.sha, blob.kind, LengthOf(blob.data));
  }

  /** Where the parts of one entry lie in the stream. */
  lemma EntryParts(before: Bytes, header: Bytes, data: Bytes, rest: Bytes)
    ensures var batch := before + (header + [NEWLINE] + data + [NEWLINE]) + rest;
            var end := |before| + |header|;
            && end + 1 + |data| < |batch| && batch[end] == NEWLINE
            && batch[|before|..end] == header
            && batch[end + 1..end + 1 + |data|] == data
            && end + 1 + |data| + 1 == |before + (header + [NEWLINE] + data + [NEWLINE])|
  {
  }

  /** An entry is found where the last one's data ended, and its data is taken by the length its header
      states, newlines and header-like text included. */
  lemma EntryReads(before: Bytes, blob: Blob, rest: Bytes)
    requires BlobOk(blob)
    ensures var taken := before + (Header(blob) + [NEWLINE] + blob.data + [NEWLINE]);
            EntryAt(taken + rest, |before|) == Some((blob.data, |taken|))
  {
    var header := Header(blob);
    var taken := before + (header + [NEWLINE] + blob.data + [NEWLINE]);
    var batch := taken + rest;
    var end := |before| + |header|;
    hide Header, SizeOf, IndexOf, Fields;
    HeaderReads(blob);
    EntryParts(before, header, blob.data, rest);
    NoMarkBefore(batch, |before|, header);
    FindsIndex(batch, NEWLINE, |before|, end);
  }

  lemma NoMarkBefore(batch: Bytes, from: nat, header: Bytes)
    requires NEWLINE !in header && from + |header| <= |batch| && batch[from..from + |header|] == header
    ensures forall i | from <= i < from + |header| :: batch[i] != NEWLINE
  {
    forall i | from <= i < from + |header| ensures batch[i] != NEWLINE {
      assert batch[from..from + |header|][i - from] == batch[i];
    }
  }

  lemma {:induction false} BatchReads(before: Bytes, requests: seq<Request>, blobs: seq<Blob>, payload: Payload)
    requires |requests| == |blobs| && forall i | 0 <= i < |blobs| :: BlobOk(blobs[i])
    ensures Taken(before + Batch(blobs), |before|, requests, payload)
            == Some((Answered(requests, blobs, payload), |before + Batch(blobs)|))
    decreases |blobs|
  {
    if blobs != [] {
      var blob, rest := blobs[0], Batch(blobs[1..]);
      var taken := before + (Header(blob) + [NEWLINE] + blob.data + [NEWLINE]);
      BatchOpens(before, blobs);
      hide Header, EntryAt, Batch, BlobOk;
      EntryReads(before, blob, rest);
      BatchReads(taken, requests[1..], blobs[1..],
                 payload[requests[0].name := (requests[0].mode, blob.data)]);
    } else {
      assert before + Batch(blobs) == before;
    }
  }

  lemma BatchOpens(before: Bytes, blobs: seq<Blob>)
    requires blobs != []
    ensures before + Batch(blobs)
            == before + (Header(blobs[0]) + [NEWLINE] + blobs[0].data + [NEWLINE]) + Batch(blobs[1..])
  {
    hide Header;
  }

  lemma {:induction false} AnsweredByName(requests: seq<Request>, blobs: seq<Blob>, payload: Payload, i: nat)
    requires |requests| == |blobs| && i < |requests|
    requires forall j | i < j < |requests| :: requests[j].name != requests[i].name
    ensures requests[i].name in Answered(requests, blobs, payload)
    ensures Answered(requests, blobs, payload)[requests[i].name] == (requests[i].mode, blobs[i].data)
  {
    var next := payload[requests[0].name := (requests[0].mode, blobs[0].data)];
    if i > 0 {
      AnsweredByName(requests[1..], blobs[1..], next, i - 1);
    } else {
      AnsweredKeeps(requests[1..], blobs[1..], next, requests[0].name);
    }
  }

  lemma {:induction false} AnsweredKeeps(requests: seq<Request>, blobs: seq<Blob>, payload: Payload, name: Bytes)
    requires |requests| == |blobs| && name in payload
    requires forall j | 0 <= j < |requests| :: requests[j].name != name
    ensures name in Answered(requests, blobs, payload) && Answered(requests, blobs, payload)[name] == payload[name]
  {
    if requests != [] {
      AnsweredKeeps(requests[1..], blobs[1..],
                    payload[requests[0].name := (requests[0].mode, blobs[0].data)], name);
    }
  }

  /** For any blobs, each requested name is given exactly its own bytes and the whole stream is used. */
  lemma BatchIsTakenApart(requests: seq<Request>, blobs: seq<Blob>)
    requires |requests| == |blobs| && forall i | 0 <= i < |blobs| :: BlobOk(blobs[i])
    requires forall i, j | 0 <= i < j < |requests| :: requests[i].name != requests[j].name
    ensures var answer := Taken(Batch(blobs), 0, requests, map[]);
            && answer.Some? && answer.value.1 == |Batch(blobs)|
            && forall i | 0 <= i < |requests| ::
                 requests[i].name in answer.value.0
                 && answer.value.0[requests[i].name] == (requests[i].mode, blobs[i].data)
  {
    BatchReads([], requests, blobs, map[]);
    assert [] + Batch(blobs) == Batch(blobs);
    forall i | 0 <= i < |requests|
      ensures requests[i].name in Answered(requests, blobs, map[])
              && Answered(requests, blobs, map[])[requests[i].name] == (requests[i].mode, blobs[i].data)
    {
      AnsweredByName(requests, blobs, map[], i);
    }
  }
}
