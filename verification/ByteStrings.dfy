/** Bytes, and strings of them in the order Python sorts them. */
module ByteStrings {

  type byte = x: int | 0 <= x < 256
  type Bytes = seq<byte>

  /** Strictly before, byte by byte; a proper prefix comes first. */
  predicate Before(a: Bytes, b: Bytes) {
    b != [] && (a == [] || a[0] < b[0] || (a[0] == b[0] && Before(a[1..], b[1..])))
  }

  lemma {:induction false} BeforeIsTotal(a: Bytes, b: Bytes)
    ensures Before(a, b) || a == b || Before(b, a)
    ensures !(Before(a, b) && Before(b, a)) && !Before(a, a)
  {
    if a != [] && b != [] {
      assert a == [a[0]] + a[1..] && b == [b[0]] + b[1..];
      BeforeIsTotal(a[1..], b[1..]);
    }
    if a != [] { BeforeIsTotal(a[1..], a[1..]); }
  }

  lemma {:induction false} BeforeIsTransitive(a: Bytes, b: Bytes, c: Bytes)
    requires Before(a, b) && Before(b, c)
    ensures Before(a, c)
  {
    if a != [] && a[0] == b[0] && b[0] == c[0] {
      BeforeIsTransitive(a[1..], b[1..], c[1..]);
    }
  }

  /** Up to a place the two agree; there the first is over, or holds the smaller byte. */
  predicate FirstDiffer(a: Bytes, b: Bytes, place: nat) {
    && place <= |a| && place < |b|
    && (forall i | 0 <= i < place :: a[i] == b[i])
    && (place == |a| || a[place] < b[place])
  }

  /** The order, by the first byte in which two strings differ. */
  lemma {:induction false} BeforeExactlyWhen(a: Bytes, b: Bytes)
    ensures Before(a, b) <==> exists place :: FirstDiffer(a, b, place)
  {
    if a == [] || b == [] {
      if b != [] { assert FirstDiffer(a, b, 0); }
    } else if a[0] != b[0] {
      if a[0] < b[0] { assert FirstDiffer(a, b, 0); }
    } else {
      BeforeExactlyWhen(a[1..], b[1..]);
      if place: nat :| FirstDiffer(a[1..], b[1..], place) {
        forall i | 0 <= i < place + 1 ensures a[i] == b[i] {
          if i > 0 { assert a[1..][i - 1] == b[1..][i - 1]; }
        }
        assert FirstDiffer(a, b, place + 1);
      }
      if place: nat :| FirstDiffer(a, b, place) {
        assert place > 0;
        assert forall i | 0 <= i < place - 1 :: a[1..][i] == a[i + 1] && b[1..][i] == b[i + 1];
        assert FirstDiffer(a[1..], b[1..], place - 1);
      }
    }
  }

  /** The number whose digits to the base 256 the bytes are, the first the highest. */
  function NumberOf(bytes: Bytes): nat {
    if bytes == [] then 0 else NumberOf(bytes[..|bytes| - 1]) * 256 + bytes[|bytes| - 1]
  }

  /** Among strings of one length the order is that of their numbers. */
  lemma {:induction false} OrderIsOfNumbers(a: Bytes, b: Bytes)
    requires |a| == |b|
    ensures Before(a, b) <==> NumberOf(a) < NumberOf(b)
    decreases |a|
  {
    if a != [] {
      var last := |a| - 1;
      var x, y := a[..last], b[..last];
      OrderIsOfNumbers(x, y);
      OrderIsOfNumbers(y, x);
      BeforeIsTotal(x, y);
      LastDecides(x, a[last], y, b[last]);
      assert a == x + [a[last]] && b == y + [b[last]];
    }
  }

  lemma {:induction false} LastDecides(x: Bytes, p: byte, y: Bytes, q: byte)
    requires |x| == |y|
    ensures Before(x + [p], y + [q]) <==> Before(x, y) || (x == y && p < q)
    decreases |x|
  {
    if x == [] {
      assert x + [p] == [p] && y + [q] == [q];
    } else {
      assert (x + [p])[1..] == x[1..] + [p] && (y + [q])[1..] == y[1..] + [q];
      assert x == [x[0]] + x[1..] && y == [y[0]] + y[1..];
      LastDecides(x[1..], p, y[1..], q);
    }
  }
}
