/** Exactly when the range operations of the bitmap do what they are for.

    The masks are computed in `unsigned long long`.  Where that is wider than a word the head
    mask keeps every bit of its word and the tail mask none. */
module BitmapExact {
  import opened BitNumbers
  import opened Bitmap

  /** A bitmap with room for `m` bits. */
  predicate Holds(w: Widths, bmap: seq<nat>, m: nat)
    requires w.word > 0
  {
    Room(w, |bmap|, m) && Words(w, bmap)
  }

  /** On every bitmap exactly the range is cleared. */
  ghost predicate ZeroWorks(w: Widths, n: nat, m: nat)
    requires w.word > 0
  {
    forall bmap: seq<nat> :: Holds(w, bmap, m) ==> RangeZeroed(w, bmap, n, m, Zeroed(w, bmap, n, m))
  }

  /** On every bitmap exactly the range is set. */
  ghost predicate FillWorks(w: Widths, n: nat, m: nat)
    requires w.word > 0
  {
    forall bmap: seq<nat> :: Holds(w, bmap, m) ==> RangeFilled(w, bmap, n, m, FilledUp(w, bmap, n, m))
  }

  /** On every bitmap the search gives the least set bit of the range. */
  ghost predicate SearchWorks(w: Widths, n: nat, m: nat)
    requires w.word > 0
  {
    forall bmap: seq<nat>, r: nat :: Holds(w, bmap, m) && IsFirst(w, bmap, n, m, r) ==> RangeFirst(w, bmap, n, m, r)
  }

  /** A bit that the masks get wrong: one before the range, or one of it. */
  lemma WrongBit(w: Widths, n: nat, m: nat) returns (x: nat)
    requires w.Ok() && n <= m && !Works(w, n, m)
    ensures x < m && Hit(w, At(w, n), At(w, m), At(w, x)) == !(n <= x < m) == (x < n)
    ensures At(w, x).i < Aligned(At(w, m))
  {
    var a, b := At(w, n), At(w, m);
    PlaceOrder(w, m, n);
    PlaceOrder(w, n, m);
    var place := if a.p > 0 && b.i >= Aligned(a) then Place(a.i, 0) else Place(b.i, b.p - 1);
    x := Number(w, place);
    NumberOf(w, place);
    PlaceOrder(w, x, n);
    PlaceOrder(w, x, m);
  }

  // ------------------------------------------------------------- witnesses

  /** The same in every word. */
  function Same(size: nat, word: nat): (r: seq<nat>)
    ensures |r| == size && forall i :: 0 <= i < size ==> r[i] == word
  {
    seq(size, _ => word)
  }

  /** A bitmap with a single bit. */
  function Single(w: Widths, size: nat, x: Place): (r: seq<nat>)
    requires x.p < w.word && x.i < size
    ensures |r| == size && forall i :: 0 <= i < size ==> r[i] == if i == x.i then Pow2(w.word - 1 - x.p) else 0
  {
    seq(size, i => if i == x.i then Pow2(w.word - 1 - x.p) else 0)
  }

  lemma SingleMarks(w: Widths, size: nat, x: Place, y: Place)
    requires x.p < w.word && x.i < size
    ensures Marked(Single(w, size, x), w, y) <==> y == x
    ensures Words(w, Single(w, size, x))
  {
    PowLess(w.word - 1 - x.p, w.word);
    if y.i < size && y.p < w.word {
      if y.i == x.i { PowBits(w.word - 1 - x.p, w.word - 1 - y.p); }
      else { ZeroBits(w.word - 1 - y.p); }
    }
  }

  lemma FullMarks(w: Widths, size: nat, x: Place)
    requires x.i < size && x.p < w.word
    ensures Marked(Same(size, Ones(w.word)), w, x) && !Marked(Same(size, 0), w, x)
  {
    OnesBit(w.word, w.word - 1 - x.p);
    ZeroBits(w.word - 1 - x.p);
  }

  // ------------------------------------------------------------- exactness

  lemma ZeroExactly(w: Widths, n: nat, m: nat)
    requires w.Ok() && n <= m
    ensures ZeroWorks(w, n, m) <==> Works(w, n, m)
  {
    if Works(w, n, m) {
      forall bmap: seq<nat> | Holds(w, bmap, m) ensures RangeZeroed(w, bmap, n, m, Zeroed(w, bmap, n, m)) {
        ZeroedRight(w, bmap, n, m);
      }
    } else {
      var x := WrongBit(w, n, m);
      var bmap := Same(Aligned(At(w, m)), Ones(w.word));
      FullMarks(w, |bmap|, At(w, x));
      ZeroedBits(w, bmap, n, m, At(w, x));
      assert Holds(w, bmap, m);
    }
  }

  lemma FillExactly(w: Widths, n: nat, m: nat)
    requires w.Ok() && n <= m
    ensures FillWorks(w, n, m) <==> Works(w, n, m)
  {
    if Works(w, n, m) {
      forall bmap: seq<nat> | Holds(w, bmap, m) ensures RangeFilled(w, bmap, n, m, FilledUp(w, bmap, n, m)) {
        FilledRight(w, bmap, n, m);
      }
    } else {
      var x := WrongBit(w, n, m);
      var bmap := Same(Aligned(At(w, m)), 0);
      FullMarks(w, |bmap|, At(w, x));
      FilledUpBits(w, bmap, n, m, At(w, x));
      assert Holds(w, bmap, m);
    }
  }

  lemma SearchExactly(w: Widths, n: nat, m: nat)
    requires w.Ok() && n <= m
    ensures SearchWorks(w, n, m) <==> Works(w, n, m)
  {
    if Works(w, n, m) {
      forall bmap: seq<nat>, r: nat | Holds(w, bmap, m) && IsFirst(w, bmap, n, m, r)
        ensures RangeFirst(w, bmap, n, m, r)
      {
        FirstRight(w, bmap, n, m, r);
      }
    } else {
      var x := WrongBit(w, n, m);
      SearchWrong(w, n, m, x);
    }
  }

  /** With that bit alone the search gives a bit before the range, or misses the one in it. */
  lemma SearchWrong(w: Widths, n: nat, m: nat, x: nat)
    requires w.Ok() && n <= m && x < m && At(w, x).i < Aligned(At(w, m))
    requires Hit(w, At(w, n), At(w, m), At(w, x)) == !(n <= x < m) == (x < n)
    ensures !SearchWorks(w, n, m)
  {
    var bmap := Single(w, Aligned(At(w, m)), At(w, x));
    forall y: Place ensures Marked(bmap, w, y) <==> y == At(w, x) { SingleMarks(w, |bmap|, At(w, x), y); }
    SingleMarks(w, |bmap|, At(w, x), At(w, x));
    var r := if x < n then x else m;
    assert IsFirst(w, bmap, n, m, r);
    assert !RangeFirst(w, bmap, n, m, r);
    assert Holds(w, bmap, m);
  }

  // --------------------------------------------------------- real machines

  /** With 64-bit words all ranges work. */
  lemma LongWords(n: nat, m: nat)
    requires n <= m
    ensures var w := Widths(64, 64);
            ZeroWorks(w, n, m) && FillWorks(w, n, m) && SearchWorks(w, n, m)
  {
    var w := Widths(64, 64);
    ZeroExactly(w, n, m);
    FillExactly(w, n, m);
    SearchExactly(w, n, m);
  }

  /** With 32-bit words, where the masks have 64 bits, only empty and whole-word ranges do;
      so clearing, setting or searching bit 0 alone goes wrong. */
  lemma ShortWords(n: nat, m: nat)
    requires n <= m
    ensures var w := Widths(32, 64);
            && (ZeroWorks(w, n, m) <==> n == m || (n % 32 == 0 && m % 32 == 0))
            && (FillWorks(w, n, m) <==> n == m || (n % 32 == 0 && m % 32 == 0))
            && (SearchWorks(w, n, m) <==> n == m || (n % 32 == 0 && m % 32 == 0))
  {
    var w := Widths(32, 64);
    ZeroExactly(w, n, m);
    FillExactly(w, n, m);
    SearchExactly(w, n, m);
  }
}
