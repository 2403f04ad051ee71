/** The two byte streams that are hashed over a set of files, and what each of them determines. */
module Framing {
  import opened Wrappers
  import opened ByteStrings
  import Decimal

  // ------------------------------------------------------------ sorting by name

  function Insert<T>(item: (Bytes, T), into: seq<(Bytes, T)>): seq<(Bytes, T)> {
    if into == [] || Before(item.0, into[0].0) then [item] + into
    else [into[0]] + Insert(item, into[1..])
  }

  function Sorted<T>(items: seq<(Bytes, T)>): seq<(Bytes, T)> {
    if items == [] then [] else Insert(items[0], Sorted(items[1..]))
  }

  predicate Increasing<T>(items: seq<(Bytes, T)>) {
    forall i, j | 0 <= i < j < |items| :: Before(items[i].0, items[j].0)
  }

  predicate Distinct<T>(items: seq<(Bytes, T)>) {
    forall i, j | 0 <= i < j < |items| :: items[i].0 != items[j].0
  }

  predicate Among<T(==)>(a: seq<(Bytes, T)>, b: seq<(Bytes, T)>) {
    forall i | 0 <= i < |a| :: a[i] in b
  }

  lemma {:induction false} InsertKeeps<T>(item: (Bytes, T), into: seq<(Bytes, T)>)
    ensures var after := Insert(item, into);
            && |after| == |into| + 1 && item in after && Among(into, after)
            && forall k | 0 <= k < |after| :: after[k] == item || after[k] in into
  {
    if !(into == [] || Before(item.0, into[0].0)) {
      var rest := Insert(item, into[1..]);
      var after := [into[0]] + rest;
      InsertKeeps(item, into[1..]);
      forall k | 0 <= k < |after| ensures after[k] == item || after[k] in into {
        if k > 0 && after[k] != item { assert rest[k - 1] in into[1..]; }
      }
      forall k | 0 <= k < |into| ensures into[k] in after {
        if k > 0 { assert into[1..][k - 1] in rest; }
      }
    }
  }

  lemma {:induction false} InsertIncreases<T>(item: (Bytes, T), into: seq<(Bytes, T)>)
    requires Increasing(into) && forall i | 0 <= i < |into| :: into[i].0 != item.0
    ensures Increasing(Insert(item, into))
  {
    if into != [] {
      BeforeIsTotal(item.0, into[0].0);
      if Before(item.0, into[0].0) {
        forall j | 0 <= j < |into| ensures Before(item.0, into[j].0) {
          if j > 0 { BeforeIsTransitive(item.0, into[0].0, into[j].0); }
        }
      } else {
        var rest := Insert(item, into[1..]);
        InsertIncreases(item, into[1..]);
        InsertKeeps(item, into[1..]);
        forall j | 0 <= j < |rest| ensures Before(into[0].0, rest[j].0) {
          if rest[j] != item {
            var k :| 0 <= k < |into[1..]| && into[1..][k] == rest[j];
            assert into[k + 1] == rest[j];
          }
        }
      }
    }
  }

  lemma RestDiffers<T>(items: seq<(Bytes, T)>, rest: seq<(Bytes, T)>)
    requires items != [] && Distinct(items) && Among(rest, items[1..])
    ensures forall i | 0 <= i < |rest| :: rest[i].0 != items[0].0
  {
    forall i | 0 <= i < |rest| ensures rest[i].0 != items[0].0 {
      var k :| 0 <= k < |items[1..]| && items[1..][k] == rest[i];
      assert items[k + 1] == rest[i];
    }
  }

  lemma AmongBothWays<T>(items: seq<(Bytes, T)>, rest: seq<(Bytes, T)>, sorted: seq<(Bytes, T)>)
    requires items != [] && Among(rest, items[1..]) && Among(items[1..], rest)
    requires items[0] in sorted && Among(rest, sorted)
    requires forall k | 0 <= k < |sorted| :: sorted[k] == items[0] || sorted[k] in rest
    ensures Among(sorted, items) && Among(items, sorted)
  {
    forall i | 0 <= i < |sorted| ensures sorted[i] in items {
      if sorted[i] != items[0] {
        var k :| 0 <= k < |rest| && rest[k] == sorted[i];
        assert rest[k] in items[1..];
      }
    }
    forall i | 0 <= i < |items| ensures items[i] in sorted {
      if i > 0 {
        assert items[1..][i - 1] in rest;
        var k :| 0 <= k < |rest| && rest[k] == items[i];
      }
    }
  }

  lemma {:induction false} SortedIsASorting<T>(items: seq<(Bytes, T)>)
    requires Distinct(items)
    ensures Increasing(Sorted(items)) && |Sorted(items)| == |items|
    ensures Among(Sorted(items), items) && Among(items, Sorted(items))
  {
    if items != [] {
      var rest := Sorted(items[1..]);
      SortedIsASorting(items[1..]);
      hide Before, Insert, Increasing, Among;
      RestDiffers(items, rest);
      InsertIncreases(items[0], rest);
      InsertKeeps(items[0], rest);
      AmongBothWays(items, rest, Sorted(items));
    }
  }

  /** Two increasing lists of the same things are the same list. */
  lemma {:induction false} OneSorting<T>(a: seq<(Bytes, T)>, b: seq<(Bytes, T)>)
    requires Increasing(a) && Increasing(b) && Among(a, b) && Among(b, a)
    ensures a == b
  {
    if a != [] { assert a[0] in b; }
    if b != [] { assert b[0] in a; }
    if a != [] && b != [] {
      var i :| 0 <= i < |b| && b[i] == a[0];
      var j :| 0 <= j < |a| && a[j] == b[0];
      assert i > 0 ==> Before(b[0].0, b[i].0);
      assert j > 0 ==> Before(a[0].0, a[j].0);
      BeforeIsTotal(a[0].0, b[0].0);
      assert a[0] == b[0];
      TailAmong(a, b);
      TailAmong(b, a);
      OneSorting(a[1..], b[1..]);
    }
  }

  lemma TailAmong<T>(a: seq<(Bytes, T)>, b: seq<(Bytes, T)>)
    requires a != [] && b != [] && a[0] == b[0] && Increasing(a) && Among(a, b)
    ensures Among(a[1..], b[1..])
  {
    forall k | 0 <= k < |a| - 1 ensures a[1..][k] in b[1..] {
      assert a[k + 1] in b;
      var i :| 0 <= i < |b| && b[i] == a[k + 1];
      BeforeIsTotal(a[0].0, a[0].0);
      assert Before(a[0].0, a[k + 1].0);
      assert b[1..][i - 1] == a[k + 1];
    }
  }

  // ------------------------------------------------------------ taking a framed stream apart

  const COLON: byte := 58
  const SPACE: byte := 32
  const NEWLINE: byte := 10
  const NUL: byte := 0

  function Ascii(text: string): Bytes
    requires Decimal.AllDigits(text)
  {
    seq(|text|, i requires 0 <= i < |text| => text[i] as int)
  }

  function LengthOf(name: Bytes): Bytes {
    Ascii(Decimal.Numeral(|name|))
  }

  /** A separator that neither front holds splits both in the same place. */
  lemma {:induction false} SplitsAlike(a: Bytes, restA: Bytes, b: Bytes, restB: Bytes, mark: byte)
    requires mark !in a && mark !in b
    requires a + [mark] + restA == b + [mark] + restB
    ensures a == b && restA == restB
  {
    var whole := a + [mark] + restA;
    assert whole[|a|] == mark && whole[|b|] == mark;
    assert forall k | 0 <= k < |a| :: whole[k] == a[k] != mark;
    assert forall k | 0 <= k < |b| :: whole[k] == b[k] != mark;
    assert |a| == |b|;
    assert a == whole[..|a|] == b;
    assert restA == whole[|a| + 1..] == restB;
  }

  lemma SameLengthAlike(a: Bytes, restA: Bytes, b: Bytes, restB: Bytes)
    requires |a| == |b| && a + restA == b + restB
    ensures a == b && restA == restB
  {
    assert a == (a + restA)[..|a|] && b == (b + restB)[..|b|];
    assert restA == (a + restA)[|a|..] && restB == (b + restB)[|b|..];
  }

  lemma LengthsAlike(a: Bytes, b: Bytes)
    requires LengthOf(a) == LengthOf(b)
    ensures |a| == |b|
  {
    var x, y := Decimal.Numeral(|a|), Decimal.Numeral(|b|);
    forall i | 0 <= i < |x| ensures i < |y| && x[i] == y[i] {
      assert Ascii(x)[i] == Ascii(y)[i];
    }
    assert x == y;
    Decimal.NumeralsDiffer(|a|, |b|);
  }

  // ------------------------------------------------------------ the payload digest

  const HEX_DIGITS := 64

  /** What a file's line is hashed over: its mode, and its content's hash in hexadecimal. */
  datatype File = File(mode: Bytes, hash: Bytes)

  predicate FileOk(file: File) {
    SPACE !in file.mode && |file.hash| == HEX_DIGITS
  }

  function Block(name: Bytes, file: File): Bytes {
    LengthOf(name) + [COLON] + name + [SPACE] + file.mode + [SPACE] + file.hash
  }

  function Lines(items: seq<(Bytes, File)>): Bytes {
    if items == [] then []
    else if |items| == 1 then Block(items[0].0, items[0].1)
    else Block(items[0].0, items[0].1) + [NEWLINE] + Lines(items[1..])
  }

  lemma NoColonInLength(name: Bytes)
    ensures COLON !in LengthOf(name)
  {
    var text := Decimal.Numeral(|name|);
    forall i | 0 <= i < |text| ensures LengthOf(name)[i] != COLON {
      assert Decimal.IsDigit(text[i]);
    }
  }

  /** A block ends where its own length prefix says, whatever follows it. */
  lemma BlocksAlike(nameA: Bytes, fileA: File, restA: Bytes, nameB: Bytes, fileB: File, restB: Bytes)
    requires FileOk(fileA) && FileOk(fileB)
    requires Block(nameA, fileA) + restA == Block(nameB, fileB) + restB
    ensures nameA == nameB && fileA == fileB && restA == restB
  {
    var a2 := fileA.hash + restA;
    var b2 := fileB.hash + restB;
    var a1 := fileA.mode + [SPACE] + a2;
    var b1 := fileB.mode + [SPACE] + b2;
    var a0 := nameA + ([SPACE] + a1);
    var b0 := nameB + ([SPACE] + b1);
    assert Block(nameA, fileA) + restA == LengthOf(nameA) + [COLON] + a0;
    assert Block(nameB, fileB) + restB == LengthOf(nameB) + [COLON] + b0;
    NoColonInLength(nameA);
    NoColonInLength(nameB);
    hide LengthOf, Block;
    SplitsAlike(LengthOf(nameA), a0, LengthOf(nameB), b0, COLON);
    LengthsAlike(nameA, nameB);
    SameLengthAlike(nameA, [SPACE] + a1, nameB, [SPACE] + b1);
    SameLengthAlike([SPACE], a1, [SPACE], b1);
    SplitsAlike(fileA.mode, a2, fileB.mode, b2, SPACE);
    SameLengthAlike(fileA.hash, restA, fileB.hash, restB);
  }

  function AfterFirst(items: seq<(Bytes, File)>): Bytes
    requires items != []
  {
    if |items| == 1 then [] else [NEWLINE] + Lines(items[1..])
  }

  lemma Associates(a: Bytes, b: Bytes, c: Bytes)
    ensures a + b + c == a + (b + c) && a + [] == a
    ensures a != [] ==> a + b != []
  {
  }

  lemma LinesUnfold(items: seq<(Bytes, File)>)
    requires items != []
    ensures var block := Block(items[0].0, items[0].1);
            Lines(items) == if |items| == 1 then block else block + [NEWLINE] + Lines(items[1..])
    ensures AfterFirst(items) == if |items| == 1 then [] else [NEWLINE] + Lines(items[1..])
  {
    hide Block;
  }

  lemma LinesOpen(items: seq<(Bytes, File)>)
    requires items != []
    ensures Lines(items) == Block(items[0].0, items[0].1) + AfterFirst(items) && Lines(items) != []
    ensures |items| > 1 ==> AfterFirst(items) == [NEWLINE] + Lines(items[1..])
    ensures |items| == 1 ==> AfterFirst(items) == []
  {
    hide *;
    var block := Block(items[0].0, items[0].1);
    LinesUnfold(items);
    BlockIsSomething(items[0].0, items[0].1);
    Associates(block, [NEWLINE], Lines(items[1..]));
    Associates(block, AfterFirst(items), []);
  }

  lemma BlockIsSomething(name: Bytes, file: File)
    ensures Block(name, file) != []
  {
    hide LengthOf;
    assert |Block(name, file)| >= 3;
  }

  lemma NoLines(items: seq<(Bytes, File)>)
    ensures items == [] ==> Lines(items) == []
  {
  }

  /** The lines determine the list. */
  lemma {:induction false} LinesDetermine(a: seq<(Bytes, File)>, b: seq<(Bytes, File)>)
    requires forall i | 0 <= i < |a| :: FileOk(a[i].1)
    requires forall i | 0 <= i < |b| :: FileOk(b[i].1)
    requires Lines(a) == Lines(b)
    ensures a == b
  {
    hide *;
    NoLines(a);
    NoLines(b);
    if a != [] { LinesOpen(a); }
    if b != [] { LinesOpen(b); }
    if a != [] && b != [] {
      BlocksAlike(a[0].0, a[0].1, AfterFirst(a), b[0].0, b[0].1, AfterFirst(b));
      assert a == [a[0]] + a[1..] && b == [b[0]] + b[1..];
      if |a| > 1 && |b| > 1 {
        SameLengthAlike([NEWLINE], Lines(a[1..]), [NEWLINE], Lines(b[1..]));
        LinesDetermine(a[1..], b[1..]);
      }
    }
  }

  /** A payload, and a listing of it in whatever order a dictionary gives. */
  type Payload = map<Bytes, (Bytes, Bytes)>

  ghost predicate Lists<T(!new)>(payload: map<Bytes, T>, items: seq<(Bytes, T)>) {
    && Distinct(items)
    && forall name, value :: (name, value) in items <==> name in payload && payload[name] == value
  }

  function Hashed(items: seq<(Bytes, (Bytes, Bytes))>, hash: Bytes -> Bytes): (files: seq<(Bytes, File)>)
    ensures |files| == |items|
    ensures forall i | 0 <= i < |items| ::
              files[i] == (items[i].0, File(items[i].1.0, hash(items[i].1.1)))
  {
    seq(|items|, i requires 0 <= i < |items| => (items[i].0, File(items[i].1.0, hash(items[i].1.1))))
  }

  /** The bytes the payload digest is taken of. */
  function PayloadStream(items: seq<(Bytes, (Bytes, Bytes))>, hash: Bytes -> Bytes): Bytes {
    Lines(Hashed(Sorted(items), hash))
  }

  function JoinLines(blocks: seq<Bytes>): Bytes {
    if blocks == [] then []
    else if |blocks| == 1 then blocks[0]
    else blocks[0] + [NEWLINE] + JoinLines(blocks[1..])
  }

  lemma {:induction false} JoinedBlocks(items: seq<(Bytes, File)>, blocks: seq<Bytes>)
    requires |blocks| == |items| && forall i | 0 <= i < |items| :: blocks[i] == Block(items[i].0, items[i].1)
    ensures JoinLines(blocks) == Lines(items)
  {
    if |items| > 1 { JoinedBlocks(items[1..], blocks[1..]); }
  }

  /** The loop that builds them: one block a file, in name order, joined by newlines. */
  method DigestStream(items: seq<(Bytes, (Bytes, Bytes))>, hash: Bytes -> Bytes) returns (stream: Bytes)
    ensures stream == PayloadStream(items, hash)
  {
    var sorted := Sorted(items);
    var blocks: seq<Bytes> := [];
    for i := 0 to |sorted|
      invariant |blocks| == i
      invariant forall k | 0 <= k < i ::
        blocks[k] == Block(Hashed(sorted, hash)[k].0, Hashed(sorted, hash)[k].1)
    {
      var (name, (mode, data)) := sorted[i];
      blocks := blocks + [LengthOf(name) + [COLON] + name + [SPACE] + mode + [SPACE] + hash(data)];
    }
    JoinedBlocks(Hashed(sorted, hash), blocks);
    stream := JoinLines(blocks);
  }

  /** The same files with the same modes and the same content hashes. */
  ghost predicate SamePayload(p: Payload, q: Payload, hash: Bytes -> Bytes) {
    && p.Keys == q.Keys
    && forall name | name in p :: p[name].0 == q[name].0 && hash(p[name].1) == hash(q[name].1)
  }

  predicate PayloadOk(items: seq<(Bytes, (Bytes, Bytes))>) {
    forall i | 0 <= i < |items| :: SPACE !in items[i].1.0
  }

  lemma ListedSorted<T(!new)>(payload: map<Bytes, T>, items: seq<(Bytes, T)>)
    requires Lists(payload, items)
    ensures Increasing(Sorted(items)) && Lists(payload, Sorted(items))
  {
    SortedIsASorting(items);
    var sorted := Sorted(items);
    forall i, j | 0 <= i < j < |sorted| ensures sorted[i].0 != sorted[j].0 {
      BeforeIsTotal(sorted[i].0, sorted[i].0);
      assert Before(sorted[i].0, sorted[j].0);
    }
    forall name, value ensures (name, value) in sorted <==> (name, value) in items {
      if (name, value) in items {
        var k :| 0 <= k < |items| && items[k] == (name, value);
        assert items[k] in sorted;
      }
      if (name, value) in sorted {
        var k :| 0 <= k < |sorted| && sorted[k] == (name, value);
        assert sorted[k] in items;
      }
    }
  }

  /** An increasing listing depends on the map alone, and the map on it. */
  lemma OneListing<T(!new)>(payload: map<Bytes, T>, a: seq<(Bytes, T)>, b: seq<(Bytes, T)>)
    requires Lists(payload, a) && Lists(payload, b) && Increasing(a) && Increasing(b)
    ensures a == b
  {
    forall i | 0 <= i < |a| ensures a[i] in b {
      var (name, value) := a[i];
      assert (name, value) in a;
    }
    forall i | 0 <= i < |b| ensures b[i] in a {
      var (name, value) := b[i];
      assert (name, value) in b;
    }
    OneSorting(a, b);
  }

  lemma OneMap<T(!new)>(p: map<Bytes, T>, q: map<Bytes, T>, items: seq<(Bytes, T)>)
    requires Lists(p, items) && Lists(q, items)
    ensures p == q
  {
    forall name ensures name in p <==> name in q {
      if name in p { assert (name, p[name]) in items; }
      if name in q { assert (name, q[name]) in items; }
    }
    forall name | name in p ensures p[name] == q[name] {
      assert (name, p[name]) in items;
    }
  }

  /** A payload with each file's content replaced by its hash. */
  ghost function Fingerprint(payload: Payload, hash: Bytes -> Bytes): map<Bytes, File> {
    map name | name in payload :: File(payload[name].0, hash(payload[name].1))
  }

  lemma FingerprintIsListed(payload: Payload, items: seq<(Bytes, (Bytes, Bytes))>, hash: Bytes -> Bytes)
    requires Lists(payload, items)
    ensures Lists(Fingerprint(payload, hash), Hashed(items, hash))
  {
    var files := Hashed(items, hash);
    var prints := Fingerprint(payload, hash);
    forall name, value
      ensures (name, value) in files <==> name in prints && prints[name] == value
    {
      if (name, value) in files {
        var i :| 0 <= i < |files| && files[i] == (name, value);
        assert (items[i].0, items[i].1) in items;
      }
      if name in prints && prints[name] == value {
        assert (name, payload[name]) in items;
        var i :| 0 <= i < |items| && items[i] == (name, payload[name]);
        assert files[i] == (name, value);
      }
    }
  }

  lemma {:induction false} HashedIncreases(items: seq<(Bytes, (Bytes, Bytes))>, hash: Bytes -> Bytes)
    requires Increasing(items)
    ensures Increasing(Hashed(items, hash))
  {
  }

  /** The payload digest's bytes are the same exactly for the same files: names, modes and content
      hashes, in whatever order either payload was listed. */
  lemma PayloadDetermined(p: Payload, itemsP: seq<(Bytes, (Bytes, Bytes))>,
                          q: Payload, itemsQ: seq<(Bytes, (Bytes, Bytes))>, hash: Bytes -> Bytes)
    requires Lists(p, itemsP) && Lists(q, itemsQ) && PayloadOk(itemsP) && PayloadOk(itemsQ)
    requires forall data :: |hash(data)| == HEX_DIGITS
    ensures PayloadStream(itemsP, hash) == PayloadStream(itemsQ, hash) <==> SamePayload(p, q, hash)
  {
    hide *;
    var a, b := Hashed(Sorted(itemsP), hash), Hashed(Sorted(itemsQ), hash);
    var x, y := Fingerprint(p, hash), Fingerprint(q, hash);
    StreamParts(p, itemsP, hash);
    StreamParts(q, itemsQ, hash);
    StreamIsLines(itemsP, hash);
    StreamIsLines(itemsQ, hash);
    SamePrints(p, q, hash);
    if Lines(a) == Lines(b) {
      LinesDetermine(a, b);
      OneMap(x, y, a);
    }
    if x == y { OneListing(x, a, b); }
  }

  lemma StreamIsLines(items: seq<(Bytes, (Bytes, Bytes))>, hash: Bytes -> Bytes)
    ensures PayloadStream(items, hash) == Lines(Hashed(Sorted(items), hash))
  {
  }

  lemma SamePrints(p: Payload, q: Payload, hash: Bytes -> Bytes)
    ensures Fingerprint(p, hash) == Fingerprint(q, hash) <==> SamePayload(p, q, hash)
  {
    var x, y := Fingerprint(p, hash), Fingerprint(q, hash);
    assert x.Keys == p.Keys && y.Keys == q.Keys;
    if x == y {
      forall name | name in p ensures p[name].0 == q[name].0 && hash(p[name].1) == hash(q[name].1) {
        assert x[name] == y[name];
      }
    }
  }

  lemma StreamParts(payload: Payload, items: seq<(Bytes, (Bytes, Bytes))>, hash: Bytes -> Bytes)
    requires Lists(payload, items) && PayloadOk(items) && forall data :: |hash(data)| == HEX_DIGITS
    ensures var files := Hashed(Sorted(items), hash);
            && Increasing(files) && Lists(Fingerprint(payload, hash), files)
            && forall i | 0 <= i < |files| :: FileOk(files[i].1)
  {
    var sorted := Sorted(items);
    ListedSorted(payload, items);
    FingerprintIsListed(payload, sorted, hash);
    HashedIncreases(sorted, hash);
    SortedIsASorting(items);
    forall i | 0 <= i < |sorted| ensures SPACE !in sorted[i].1.0 {
      assert sorted[i] in items;
      var k :| 0 <= k < |items| && items[k] == sorted[i];
    }
  }

  // ------------------------------------------------------------ the package digest

  const RAW_HASH := 32

  function Chunk(path: Bytes, hash: Bytes): Bytes {
    path + [NUL] + hash
  }

  /** A path and the hash of its content, one after the other, with nothing between the files. */
  function Chunks(items: seq<(Bytes, Bytes)>): Bytes {
    if items == [] then [] else Chunk(items[0].0, items[0].1) + Chunks(items[1..])
  }

  predicate ChunksOk(items: seq<(Bytes, Bytes)>) {
    forall i | 0 <= i < |items| :: NUL !in items[i].0 && |items[i].1| == RAW_HASH
  }

  /** Paths that hold no zero byte and hashes of one length: the chunks determine the list. */
  lemma {:induction false} ChunksDetermine(a: seq<(Bytes, Bytes)>, b: seq<(Bytes, Bytes)>)
    requires ChunksOk(a) && ChunksOk(b) && Chunks(a) == Chunks(b)
    ensures a == b
  {
    if a != [] && b != [] {
      var restA, restB := Chunks(a[1..]), Chunks(b[1..]);
      assert Chunks(a) == a[0].0 + [NUL] + (a[0].1 + restA);
      assert Chunks(b) == b[0].0 + [NUL] + (b[0].1 + restB);
      SplitsAlike(a[0].0, a[0].1 + restA, b[0].0, b[0].1 + restB, NUL);
      SameLengthAlike(a[0].1, restA, b[0].1, restB);
      ChunksDetermine(a[1..], b[1..]);
      assert a == [a[0]] + a[1..] && b == [b[0]] + b[1..];
    }
  }

  // ------------------------------------------------------------ the formats, read back

  /** Decimal digits (48 to 57) up to a colon (58), and what is behind it. */
  function ReadLength(stream: Bytes, before: nat): Option<(nat, Bytes)> {
    if stream == [] then None
    else if stream[0] == 58 then Some((before, stream[1..]))
    else if 48 <= stream[0] <= 57 then ReadLength(stream[1..], before * 10 + (stream[0] - 48))
    else None
  }

  /** What stands before the first such byte, and what behind it. */
  function Until(stream: Bytes, mark: byte): Option<(Bytes, Bytes)> {
    if stream == [] then None
    else if stream[0] == mark then Some(([], stream[1..]))
    else
      match Until(stream[1..], mark)
      case None => None
      case Some((front, rest)) => Some(([stream[0]] + front, rest))
  }

  /** A file's line: the length of its name, the name in so many bytes, a space (32), its mode up to another,
      and 64 bytes. */
  function ReadBlock(stream: Bytes): Option<(Bytes, File, Bytes)> {
    match ReadLength(stream, 0)
    case None => None
    case Some((length, behind)) =>
      if |behind| <= length || behind[length] != 32 then None
      else
        match Until(behind[length + 1..], 32)
        case None => None
        case Some((mode, rest)) =>
          if |rest| < 64 then None else Some((behind[..length], File(mode, rest[..64]), rest[64..]))
  }

  /** Lines with a newline (10) between each two. */
  function ReadLines(stream: Bytes): Option<seq<(Bytes, File)>>
    decreases |stream|
  {
    if stream == [] then Some([])
    else
      match ReadBlock(stream)
      case None => None
      case Some((name, file, rest)) =>
        if rest == [] then Some([(name, file)])
        else if rest[0] != 10 || |rest| > |stream| then None
        else
          match ReadLines(rest[1..])
          case None => None
          case Some(others) => Some([(name, file)] + others)
  }

  /** A path up to a zero byte, and 32 bytes; and so on to the end. */
  function ReadChunks(stream: Bytes): Option<seq<(Bytes, Bytes)>>
    decreases |stream|
  {
    if stream == [] then Some([])
    else
      match Until(stream, 0)
      case None => None
      case Some((path, rest)) =>
        if |rest| < 32 || |rest| > |stream| then None
        else
          match ReadChunks(rest[32..])
          case None => None
          case Some(others) => Some([(path, rest[..32])] + others)
  }

  lemma LastDigit(n: nat)
    ensures var front: string := if n < 10 then "" else Decimal.Numeral(n / 10);
            Ascii(Decimal.Numeral(n)) == Ascii(front) + [48 + n % 10]
  {
    var digit: byte := 48 + n % 10;
    var front: string := if n < 10 then "" else Decimal.Numeral(n / 10);
    assert Decimal.Numeral(n) == front + ['0' + (n % 10) as char];
    hide Decimal.Numeral;
  }

  lemma {:induction false} NumeralReads(n: nat, tail: Bytes)
    ensures ReadLength(Ascii(Decimal.Numeral(n)) + tail, 0) == ReadLength(tail, n)
    decreases n
  {
    var digit: byte := 48 + n % 10;
    var front: string := if n < 10 then "" else Decimal.Numeral(n / 10);
    LastDigit(n);
    hide Decimal.Numeral, Ascii;
    assert Ascii(front) + [digit] + tail == Ascii(front) + ([digit] + tail);
    OneDigitReads(digit, tail, n / 10);
    if n >= 10 {
      NumeralReads(n / 10, [digit] + tail);
    } else {
      NoDigits();
      assert [] + ([digit] + tail) == [digit] + tail;
    }
  }

  lemma OneDigitReads(digit: byte, tail: Bytes, before: nat)
    requires 48 <= digit <= 57
    ensures ReadLength([digit] + tail, before) == ReadLength(tail, before * 10 + (digit - 48))
  {
    assert ([digit] + tail)[1..] == tail;
  }

  lemma NoDigits()
    ensures Ascii("") == []
  {
  }

  lemma LengthReads(name: Bytes, rest: Bytes)
    ensures ReadLength(LengthOf(name) + ([COLON] + rest), 0) == Some((|name|, rest))
  {
    NumeralReads(|name|, [COLON] + rest);
    assert ([COLON] + rest)[1..] == rest;
  }

  lemma {:induction false} UntilReads(front: Bytes, mark: byte, rest: Bytes)
    requires mark !in front
    ensures Until(front + ([mark] + rest), mark) == Some((front, rest))
  {
    var stream := front + ([mark] + rest);
    if front == [] {
      assert stream[0] == mark && stream[1..] == rest;
    } else {
      assert stream[0] == front[0] && stream[1..] == front[1..] + ([mark] + rest);
      UntilReads(front[1..], mark, rest);
      assert [front[0]] + front[1..] == front;
    }
  }

  /** A file's line reads back as its name, its mode and its hash, whatever follows it. */
  lemma BlockReads(name: Bytes, file: File, rest: Bytes)
    requires FileOk(file)
    ensures ReadBlock(Block(name, file) + rest) == Some((name, file, rest))
  {
    var tail := file.hash + rest;
    var body := file.mode + ([SPACE] + tail);
    var behind := name + ([SPACE] + body);
    hide LengthOf;
    assert Block(name, file) + rest == LengthOf(name) + ([COLON] + behind);
    LengthReads(name, behind);
    assert behind[..|name|] == name && behind[|name|] == 32 && behind[|name| + 1..] == body;
    UntilReads(file.mode, SPACE, tail);
    assert tail[..64] == file.hash && tail[64..] == rest;
  }

  /** The lines of any files read back as those files, in order. */
  lemma {:induction false} LinesRead(items: seq<(Bytes, File)>)
    requires forall i | 0 <= i < |items| :: FileOk(items[i].1)
    ensures ReadLines(Lines(items)) == Some(items)
  {
    if items == [] {
      NoLines(items);
    } else {
      hide Lines, Block, ReadBlock, AfterFirst;
      LinesOpen(items);
      BlockReads(items[0].0, items[0].1, AfterFirst(items));
      var first, rest := (items[0].0, items[0].1), AfterFirst(items);
      assert first == items[0] && items == [first] + items[1..];
      assert ReadBlock(Lines(items)) == Some((items[0].0, items[0].1, rest));
      assert |rest| <= |Lines(items)|;
      if |items| > 1 {
        LinesRead(items[1..]);
        assert rest[1..] == Lines(items[1..]) && rest[0] == 10;
        assert ReadLines(rest[1..]) == Some(items[1..]);
        assert ReadLines(Lines(items)) == Some([first] + items[1..]);
      } else {
        assert items == [first];
        assert ReadLines(Lines(items)) == Some([first]);
      }
    }
  }

  lemma {:induction false} ChunksRead(items: seq<(Bytes, Bytes)>)
    requires ChunksOk(items)
    ensures ReadChunks(Chunks(items)) == Some(items)
  {
    if items != [] {
      var (path, hash) := items[0];
      var others := Chunks(items[1..]);
      var stream, rest := Chunks(items), hash + others;
      assert stream == path + ([NUL] + rest);
      ChunksRead(items[1..]);
      hide Chunks;
      UntilReads(path, NUL, rest);
      assert rest[..32] == hash && rest[32..] == others;
      assert items == [items[0]] + items[1..];
    }
  }
}
