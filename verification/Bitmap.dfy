/** The word-packed bitmap of ccan: ranges filled, cleared and searched with masks.

    Bit n of a bitmap is bit w - 1 - n % w of word n / w. */
module Bitmap {
  import opened Options
  import opened BitNumbers

  /** The number of bits in `unsigned long`, which makes up the words, and in
      `unsigned long long`, in which the masks are computed: the same, or twice as many or more. */
  datatype Widths = Widths(word: nat, long: nat) {
    predicate Ok() { 0 < word && (long == word || 2 * word <= long) }
  }

  // ------------------------------------------------------------ words

  /** `x & y` */
  function And(x: nat, y: nat): nat {
    if x == 0 || y == 0 then 0 else (if x % 2 == 1 && y % 2 == 1 then 1 else 0) + 2 * And(x / 2, y / 2)
  }

  /** `x & ~y` */
  function AndNot(x: nat, y: nat): nat {
    if x == 0 then 0 else (if x % 2 == 1 && y % 2 == 0 then 1 else 0) + 2 * AndNot(x / 2, y / 2)
  }

  lemma {:induction false} BitAnd(x: nat, y: nat, k: nat)
    ensures Bit(And(x, y), k) == (Bit(x, k) && Bit(y, k)) && And(x, y) <= x
  {
    if x == 0 || y == 0 { ZeroBits(k); }
    else if k > 0 { BitAnd(x / 2, y / 2, k - 1); }
    else { BitAnd(x / 2, y / 2, 0); }
  }

  lemma {:induction false} BitAndNot(x: nat, y: nat, k: nat)
    ensures Bit(AndNot(x, y), k) == (Bit(x, k) && !Bit(y, k)) && AndNot(x, y) <= x
  {
    if x == 0 { ZeroBits(k); }
    else if k > 0 { BitAndNot(x / 2, y / 2, k - 1); }
    else { BitAndNot(x / 2, y / 2, 0); }
  }

  // ------------------------------------------------------------ masks

  /** `-1ULL >> a`, as a word */
  function HeadMask(w: Widths, a: nat): nat { Low(High(Ones(w.long), a), w.word) }

  /** `~(-1ULL >> a)`, as a word */
  function TailMask(w: Widths, a: nat): nat { Low(AndNot(Ones(w.long), High(Ones(w.long), a)), w.word) }

  /** The masks, at the `p`th bit from the top of a word. */
  predicate InHead(w: Widths, a: nat, p: nat) { w.word - 1 - p + a < w.long }

  predicate InTail(w: Widths, a: nat, p: nat) { w.word - 1 - p + a >= w.long }

  lemma HeadBits(w: Widths, a: nat, p: nat)
    requires w.Ok() && p < w.word
    ensures Bit(HeadMask(w, a), w.word - 1 - p) == InHead(w, a, p) && HeadMask(w, a) < Pow2(w.word)
  {
    BitLow(High(Ones(w.long), a), w.word, w.word - 1 - p);
    BitHigh(Ones(w.long), a, w.word - 1 - p);
    OnesBit(w.long, w.word - 1 - p + a);
    LowSmall(High(Ones(w.long), a), w.word);
  }

  lemma TailBits(w: Widths, a: nat, p: nat)
    requires w.Ok() && p < w.word
    ensures Bit(TailMask(w, a), w.word - 1 - p) == InTail(w, a, p) && TailMask(w, a) < Pow2(w.word)
  {
    var ones, j := Ones(w.long), w.word - 1 - p;
    BitLow(AndNot(ones, High(ones, a)), w.word, j);
    BitAndNot(ones, High(ones, a), j);
    BitHigh(ones, a, j);
    OnesBit(w.long, j + a);
    OnesBit(w.long, j);
    LowSmall(AndNot(ones, High(ones, a)), w.word);
  }

  // ------------------------------------------------------------ ranges

  /** A bit, by its word and its place from the top of the word. */
  datatype Place = Place(i: nat, p: nat)

  function At(w: Widths, n: nat): (r: Place)
    requires w.word > 0
    ensures r.p < w.word
  {
    Place(n / w.word, n % w.word)
  }

  predicate Before(a: Place, b: Place) { a.i < b.i || (a.i == b.i && a.p < b.p) }

  predicate Inside(n: Place, m: Place, x: Place) { !Before(x, n) && Before(x, m) }

  /** The order of places is that of bit numbers. */
  lemma PlaceOrder(w: Widths, x: nat, y: nat)
    requires w.word > 0
    ensures Before(At(w, x), At(w, y)) <==> x < y
  {
    var u := w.word;
    assert x == u * (x / u) + x % u && y == u * (y / u) + y % u;
    if x / u < y / u { MulStep(u, x / u, y / u); }
    if y / u < x / u { MulStep(u, y / u, x / u); }
  }

  lemma MulStep(u: nat, a: nat, b: nat)
    requires a < b
    ensures u * a + u <= u * b
  {
    var d := b - a - 1;
    assert b == a + 1 + d;
    assert u * b == u * a + u + u * d;
  }

  /** The first word that is whole from `n` on. */
  function Aligned(n: Place): nat { n.i + (if n.p > 0 then 1 else 0) }

  /** The bits that the masks of a range from `n` to `m` select. */
  predicate Hit(w: Widths, n: Place, m: Place, x: Place) {
    if m.i < Aligned(n) then x.i == n.i && InHead(w, n.p, x.p) && InTail(w, m.p, x.p)
    else
      || (n.p > 0 && x.i == n.i && InHead(w, n.p, x.p))
      || Aligned(n) <= x.i < m.i
      || (m.p > 0 && x.i == m.i && InTail(w, m.p, x.p))
  }

  ghost predicate HitsRange(w: Widths, n: Place, m: Place) {
    forall x: Place :: x.p < w.word ==> (Hit(w, n, m, x) <==> Inside(n, m, x))
  }

  /** The masks select exactly the range where both kinds of integer have the same width;
      where they do not, only if it is empty or starts and ends with a word. */
  lemma HitsExactly(w: Widths, n: Place, m: Place)
    requires w.Ok() && n.p < w.word && m.p < w.word && !Before(m, n)
    ensures HitsRange(w, n, m) <==> w.long == w.word || n == m || (n.p == 0 && m.p == 0)
  {
    if w.long != w.word && n != m && (n.p > 0 || m.p > 0) {
      var last := if m.p > 0 then Place(m.i, m.p - 1) else Place(n.i, 0);
      assert last.p < w.word && Hit(w, n, m, last) != Inside(n, m, last);
    }
  }

  /** Where the operations do what they are for: the widths agree, or the range is empty, or
      it starts and ends with a word. */
  predicate Works(w: Widths, n: nat, m: nat)
    requires w.word > 0
  {
    w.long == w.word || n == m || (n % w.word == 0 && m % w.word == 0)
  }

  lemma WorksHits(w: Widths, n: nat, m: nat)
    requires w.Ok() && n <= m && Works(w, n, m)
    ensures HitsRange(w, At(w, n), At(w, m))
  {
    PlaceOrder(w, m, n);
    HitsExactly(w, At(w, n), At(w, m));
  }

  /** In bit numbers. */
  lemma HitsNumbers(w: Widths, n: nat, m: nat, x: nat)
    requires w.Ok() && n <= m && HitsRange(w, At(w, n), At(w, m))
    ensures Hit(w, At(w, n), At(w, m), At(w, x)) <==> n <= x < m
  {
    PlaceOrder(w, x, n);
    PlaceOrder(w, x, m);
  }

  // ------------------------------------------------------------ fill and zero

  /** The `p`th bit from the top of a word. */
  predicate FromTop(x: nat, word: nat, p: nat) { p < word && Bit(x, word - 1 - p) }

  predicate Marked(bmap: seq<nat>, w: Widths, x: Place) { x.i < |bmap| && FromTop(bmap[x.i], w.word, x.p) }

  /** What becomes of word `i` when a range is cleared, with a mask at either end. */
  function Cleared(w: Widths, n: Place, m: Place, i: nat, x: nat): nat {
    if m.i < Aligned(n) then (if i == n.i then AndNot(x, And(HeadMask(w, n.p), TailMask(w, m.p))) else x)
    else if n.p > 0 && i == n.i then AndNot(x, HeadMask(w, n.p))
    else if Aligned(n) <= i < m.i then 0
    else if m.p > 0 && i == m.i then AndNot(x, TailMask(w, m.p))
    else x
  }

  function Filled(w: Widths, n: Place, m: Place, i: nat, x: nat): nat {
    if m.i < Aligned(n) then (if i == n.i then Or(x, And(HeadMask(w, n.p), TailMask(w, m.p))) else x)
    else if n.p > 0 && i == n.i then Or(x, HeadMask(w, n.p))
    else if Aligned(n) <= i < m.i then Ones(w.word)
    else if m.p > 0 && i == m.i then Or(x, TailMask(w, m.p))
    else x
  }

  lemma ClearedBits(w: Widths, n: Place, m: Place, i: nat, x: nat, p: nat)
    requires w.Ok() && p < w.word
    ensures Bit(Cleared(w, n, m, i, x), w.word - 1 - p) == (Bit(x, w.word - 1 - p) && !Hit(w, n, m, Place(i, p)))
    ensures Cleared(w, n, m, i, x) <= x
  {
    var head, tail, j := HeadMask(w, n.p), TailMask(w, m.p), w.word - 1 - p;
    HeadBits(w, n.p, p);
    TailBits(w, m.p, p);
    BitAnd(head, tail, j);
    BitAndNot(x, And(head, tail), j);
    BitAndNot(x, head, j);
    BitAndNot(x, tail, j);
    ZeroBits(j);
  }

  lemma FilledBits(w: Widths, n: Place, m: Place, i: nat, x: nat, p: nat)
    requires w.Ok() && p < w.word && x < Pow2(w.word)
    ensures Bit(Filled(w, n, m, i, x), w.word - 1 - p) == (Bit(x, w.word - 1 - p) || Hit(w, n, m, Place(i, p)))
    ensures Filled(w, n, m, i, x) < Pow2(w.word)
  {
    var head, tail, j := HeadMask(w, n.p), TailMask(w, m.p), w.word - 1 - p;
    HeadBits(w, n.p, p);
    TailBits(w, m.p, p);
    BitAnd(head, tail, j);
    BitOr(x, And(head, tail), j);
    BitOr(x, head, j);
    BitOr(x, tail, j);
    OnesBit(w.word, j);
    OrSmall(x, And(head, tail), w.word);
    OrSmall(x, head, w.word);
    OrSmall(x, tail, w.word);
  }

  /** A bitmap with room for `m` bits. */
  predicate Room(w: Widths, size: nat, m: nat)
    requires w.word > 0
  {
    Aligned(At(w, m)) <= size
  }

  method ZeroWords(bmap: array<nat>, w: Widths, n: nat, m: nat)
    requires w.Ok() && n <= m && Room(w, bmap.Length, m)
    modifies bmap
    ensures forall i :: 0 <= i < bmap.Length ==> bmap[i] == Cleared(w, At(w, n), At(w, m), i, old(bmap[i]))
  {
    var a, b := At(w, n), At(w, m);
    PlaceOrder(w, m, n);
    var from, to := Aligned(a), b.i;
    var head, tail := HeadMask(w, a.p), TailMask(w, b.p);
    if to < from {
      bmap[a.i] := AndNot(bmap[a.i], And(head, tail));
      return;
    }
    if from > a.i { bmap[a.i] := AndNot(bmap[a.i], head); }
    for i := from to to
      invariant forall j :: 0 <= j < bmap.Length ==>
        bmap[j] == if a.p > 0 && j == a.i then AndNot(old(bmap[j]), head) else if from <= j < i then 0 else old(bmap[j])
    {
      bmap[i] := 0;
    }
    if b.p > 0 { bmap[b.i] := AndNot(bmap[b.i], tail); }
  }

  method FillWords(bmap: array<nat>, w: Widths, n: nat, m: nat)
    requires w.Ok() && n <= m && Room(w, bmap.Length, m)
    modifies bmap
    ensures forall i :: 0 <= i < bmap.Length ==> bmap[i] == Filled(w, At(w, n), At(w, m), i, old(bmap[i]))
  {
    var a, b := At(w, n), At(w, m);
    PlaceOrder(w, m, n);
    var from, to := Aligned(a), b.i;
    var head, tail := HeadMask(w, a.p), TailMask(w, b.p);
    if to < from {
      bmap[a.i] := Or(bmap[a.i], And(head, tail));
      return;
    }
    if from > a.i { bmap[a.i] := Or(bmap[a.i], head); }
    for i := from to to
      invariant forall j :: 0 <= j < bmap.Length ==>
        bmap[j] == if a.p > 0 && j == a.i then Or(old(bmap[j]), head)
                   else if from <= j < i then Ones(w.word)
                   else old(bmap[j])
    {
      bmap[i] := Ones(w.word);
    }
    if b.p > 0 { bmap[b.i] := Or(bmap[b.i], tail); }
  }

  function Zeroed(w: Widths, bmap: seq<nat>, n: nat, m: nat): (r: seq<nat>)
    requires w.word > 0
    ensures |r| == |bmap| && forall i :: 0 <= i < |bmap| ==> r[i] == Cleared(w, At(w, n), At(w, m), i, bmap[i])
  {
    seq(|bmap|, i requires 0 <= i < |bmap| => Cleared(w, At(w, n), At(w, m), i, bmap[i]))
  }

  function FilledUp(w: Widths, bmap: seq<nat>, n: nat, m: nat): (r: seq<nat>)
    requires w.word > 0
    ensures |r| == |bmap| && forall i :: 0 <= i < |bmap| ==> r[i] == Filled(w, At(w, n), At(w, m), i, bmap[i])
  {
    seq(|bmap|, i requires 0 <= i < |bmap| => Filled(w, At(w, n), At(w, m), i, bmap[i]))
  }

  /** What the masks select is cleared, or set. */
  lemma ZeroedBits(w: Widths, bmap: seq<nat>, n: nat, m: nat, x: Place)
    requires w.Ok()
    ensures Marked(Zeroed(w, bmap, n, m), w, x) <==> Marked(bmap, w, x) && !Hit(w, At(w, n), At(w, m), x)
  {
    if x.i < |bmap| && x.p < w.word { ClearedBits(w, At(w, n), At(w, m), x.i, bmap[x.i], x.p); }
  }

  lemma FilledUpBits(w: Widths, bmap: seq<nat>, n: nat, m: nat, x: Place)
    requires w.Ok() && Words(w, bmap) && x.i < |bmap| && x.p < w.word
    ensures Marked(FilledUp(w, bmap, n, m), w, x) <==> Marked(bmap, w, x) || Hit(w, At(w, n), At(w, m), x)
  {
    FilledBits(w, At(w, n), At(w, m), x.i, bmap[x.i], x.p);
  }

  predicate Words(w: Widths, bmap: seq<nat>) { forall i :: 0 <= i < |bmap| ==> bmap[i] < Pow2(w.word) }

  /** Exactly the bits from `n` up to `m` are cleared. */
  ghost predicate RangeZeroed(w: Widths, bmap: seq<nat>, n: nat, m: nat, r: seq<nat>)
    requires w.word > 0
  {
    |r| == |bmap| && forall x: nat :: Marked(r, w, At(w, x)) <==> Marked(bmap, w, At(w, x)) && !(n <= x < m)
  }

  /** Exactly the bits from `n` up to `m` are set. */
  ghost predicate RangeFilled(w: Widths, bmap: seq<nat>, n: nat, m: nat, r: seq<nat>)
    requires w.word > 0
  {
    |r| == |bmap| && forall x: nat :: At(w, x).i < |bmap| ==>
      (Marked(r, w, At(w, x)) <==> Marked(bmap, w, At(w, x)) || n <= x < m)
  }

  lemma ZeroedRight(w: Widths, bmap: seq<nat>, n: nat, m: nat)
    requires w.Ok() && n <= m && Works(w, n, m)
    ensures RangeZeroed(w, bmap, n, m, Zeroed(w, bmap, n, m))
  {
    WorksHits(w, n, m);
    var r := Zeroed(w, bmap, n, m);
    forall x: nat ensures Marked(r, w, At(w, x)) <==> Marked(bmap, w, At(w, x)) && !(n <= x < m) {
      ZeroedBits(w, bmap, n, m, At(w, x));
      HitsNumbers(w, n, m, x);
    }
  }

  lemma FilledRight(w: Widths, bmap: seq<nat>, n: nat, m: nat)
    requires w.Ok() && Words(w, bmap) && n <= m && Works(w, n, m)
    ensures RangeFilled(w, bmap, n, m, FilledUp(w, bmap, n, m))
  {
    WorksHits(w, n, m);
    var r := FilledUp(w, bmap, n, m);
    forall x: nat | At(w, x).i < |bmap| ensures Marked(r, w, At(w, x)) <==> Marked(bmap, w, At(w, x)) || n <= x < m {
      FilledUpBits(w, bmap, n, m, At(w, x));
      HitsNumbers(w, n, m, x);
    }
  }

  /** bitmap_zero_range */
  method ZeroRange(bmap: array<nat>, w: Widths, n: nat, m: nat)
    requires w.Ok() && n <= m && Room(w, bmap.Length, m)
    modifies bmap
    ensures bmap[..] == Zeroed(w, old(bmap[..]), n, m)
    ensures Works(w, n, m) ==> RangeZeroed(w, old(bmap[..]), n, m, bmap[..])
  {
    ghost var was := bmap[..];
    ZeroWords(bmap, w, n, m);
    assert bmap[..] == Zeroed(w, was, n, m);
    if Works(w, n, m) { ZeroedRight(w, was, n, m); }
  }

  /** bitmap_fill_range */
  method FillRange(bmap: array<nat>, w: Widths, n: nat, m: nat)
    requires w.Ok() && n <= m && Room(w, bmap.Length, m) && Words(w, bmap[..])
    modifies bmap
    ensures Words(w, bmap[..]) && bmap[..] == FilledUp(w, old(bmap[..]), n, m)
    ensures Works(w, n, m) ==> RangeFilled(w, old(bmap[..]), n, m, bmap[..])
  {
    ghost var was := bmap[..];
    FillWords(bmap, w, n, m);
    assert bmap[..] == FilledUp(w, was, n, m);
    forall i | 0 <= i < |was| ensures bmap[..][i] < Pow2(w.word) { FilledBits(w, At(w, n), At(w, m), i, was[i], 0); }
    if Works(w, n, m) { FilledRight(w, was, n, m); }
  }

  // ------------------------------------------------------------ search

  lemma {:induction false} SomeBit(x: nat, n: nat) returns (k: nat)
    requires 0 < x < Pow2(n)
    ensures k < n && Bit(x, k)
  {
    if x % 2 == 1 { k := 0; } else { k := SomeBit(x / 2, n - 1); k := k + 1; }
  }

  /** bitmap_clz: the number of zero bits from the top. */
  method LeadingZeros(x: nat, word: nat) returns (lz: nat)
    requires 0 < x < Pow2(word)
    ensures FromTop(x, word, lz) && forall p: nat :: p < lz ==> !FromTop(x, word, p)
  {
    lz := 0;
    ghost var k := SomeBit(x, word);
    while !Bit(x, word - 1 - lz)
      invariant lz <= word - 1 - k && forall p: nat :: p < lz ==> !FromTop(x, word, p)
      decreases word - lz
    {
      lz := lz + 1;
    }
  }

  /** The first bit of a word under a mask. */
  method FirstUnder(x: nat, mask: nat, word: nat) returns (found: bool, lz: nat)
    requires x < Pow2(word)
    ensures found ==> FromTop(x, word, lz) && FromTop(mask, word, lz)
    ensures forall p: nat :: p < (if found then lz else word) ==> !(FromTop(x, word, p) && FromTop(mask, word, p))
  {
    var y := And(x, mask);
    found, lz := y != 0, 0;
    forall p: nat ensures FromTop(y, word, p) == (FromTop(x, word, p) && FromTop(mask, word, p)) {
      if p < word { BitAnd(x, mask, word - 1 - p); }
    }
    BitAnd(x, mask, 0);
    if found { lz := LeadingZeros(y, word); }
    else { forall p: nat ensures !FromTop(0, word, p) { if p < word { ZeroBits(word - 1 - p); } } }
  }

  /** No marked bit that the masks select, before a place. */
  ghost predicate NoneBefore(bmap: seq<nat>, w: Widths, n: Place, m: Place, end: Place) {
    forall x: Place :: Marked(bmap, w, x) && Hit(w, n, m, x) ==> !Before(x, end)
  }

  ghost predicate Least(bmap: seq<nat>, w: Widths, n: Place, m: Place, r: Option<Place>) {
    match r
    case None => forall x: Place :: Marked(bmap, w, x) ==> !Hit(w, n, m, x)
    case Some(x) => Marked(bmap, w, x) && Hit(w, n, m, x) && NoneBefore(bmap, w, n, m, x)
  }

  /** The mask selects the bits of word `i` that belong to the range. */
  ghost predicate Masks(w: Widths, n: Place, m: Place, i: nat, mask: nat) {
    forall p: nat :: p < w.word ==> (FromTop(mask, w.word, p) <==> Hit(w, n, m, Place(i, p)))
  }

  lemma HeadMasks(w: Widths, n: Place, m: Place)
    requires w.Ok() && n.p > 0 && m.i >= Aligned(n)
    ensures Masks(w, n, m, n.i, HeadMask(w, n.p))
  {
    forall p: nat | p < w.word
      ensures Bit(HeadMask(w, n.p), w.word - 1 - p) == InHead(w, n.p, p)
    {
      HeadBits(w, n.p, p);
    }
  }

  lemma TailMasks(w: Widths, n: Place, m: Place)
    requires w.Ok() && m.p > 0 && m.i >= Aligned(n)
    ensures Masks(w, n, m, m.i, TailMask(w, m.p))
  {
    forall p: nat | p < w.word
      ensures FromTop(TailMask(w, m.p), w.word, p) == InTail(w, m.p, p)
    {
      TailBits(w, m.p, p);
    }
  }

  lemma BothMasks(w: Widths, n: Place, m: Place)
    requires w.Ok() && m.i < Aligned(n)
    ensures Masks(w, n, m, n.i, And(HeadMask(w, n.p), TailMask(w, m.p)))
  {
    var head, tail := HeadMask(w, n.p), TailMask(w, m.p);
    forall p: nat | p < w.word ensures FromTop(And(head, tail), w.word, p) == (InHead(w, n.p, p) && InTail(w, m.p, p)) {
      HeadBits(w, n.p, p);
      TailBits(w, m.p, p);
      BitAnd(head, tail, w.word - 1 - p);
    }
  }

  lemma WholeMasks(w: Widths, n: Place, m: Place, i: nat)
    requires Aligned(n) <= i < m.i
    ensures Masks(w, n, m, i, Ones(w.word))
  {
    forall p: nat | p < w.word ensures FromTop(Ones(w.word), w.word, p) { OnesBit(w.word, w.word - 1 - p); }
  }

  /** The search in one word, when the words before it are done with. */
  method SearchWord(bmap: array<nat>, w: Widths, ghost n: Place, ghost m: Place, i: nat, mask: nat)
    returns (r: Option<Place>)
    requires i < bmap.Length && bmap[i] < Pow2(w.word) && Masks(w, n, m, i, mask)
    requires NoneBefore(bmap[..], w, n, m, Place(i, 0))
    ensures r.Some? ==> Least(bmap[..], w, n, m, r)
    ensures r.None? ==> NoneBefore(bmap[..], w, n, m, Place(i + 1, 0))
  {
    var found, lz := FirstUnder(bmap[i], mask, w.word);
    r := if found then Some(Place(i, lz)) else None;
    forall x: Place | Marked(bmap[..], w, x) && Hit(w, n, m, x) && x.i == i
      ensures FromTop(mask, w.word, x.p) && FromTop(bmap[i], w.word, x.p)
    {
      assert x == Place(i, x.p);
    }
  }

  method FirstSetPlace(bmap: array<nat>, w: Widths, n: Place, m: Place) returns (r: Option<Place>)
    requires w.Ok() && n.p < w.word && m.p < w.word && !Before(m, n) && Aligned(m) <= bmap.Length
    requires forall i :: 0 <= i < bmap.Length ==> bmap[i] < Pow2(w.word)
    ensures Least(bmap[..], w, n, m, r)
  {
    var from, to := Aligned(n), m.i;
    var head, tail := HeadMask(w, n.p), TailMask(w, m.p);
    if to < from {
      BothMasks(w, n, m);
      r := SearchWord(bmap, w, n, m, n.i, And(head, tail));
      return;
    }
    if from > n.i {
      HeadMasks(w, n, m);
      r := SearchWord(bmap, w, n, m, n.i, head);
      if r.Some? { return; }
    }
    for i := from to to
      invariant NoneBefore(bmap[..], w, n, m, Place(i, 0))
    {
      WholeMasks(w, n, m, i);
      r := SearchWord(bmap, w, n, m, i, Ones(w.word));
      if r.Some? { return; }
    }
    if m.p > 0 {
      TailMasks(w, n, m);
      r := SearchWord(bmap, w, n, m, m.i, tail);
      return;
    }
    r := None;
  }

  /** What the search gives, on any machine: the least set bit that the masks select, or `m`. */
  ghost predicate IsFirst(w: Widths, bmap: seq<nat>, n: nat, m: nat, r: nat)
    requires w.word > 0
  {
    Least(bmap, w, At(w, n), At(w, m), Some(At(w, r))) || (r == m && Least(bmap, w, At(w, n), At(w, m), None))
  }

  /** The least set bit from `n` up to `m`, or `m`. */
  ghost predicate RangeFirst(w: Widths, bmap: seq<nat>, n: nat, m: nat, r: nat)
    requires w.word > 0
  {
    && n <= r <= m && (r < m ==> Marked(bmap, w, At(w, r)))
    && forall x: nat :: n <= x < r ==> !Marked(bmap, w, At(w, x))
  }

  /** bitmap_ffs */
  method FirstSet(bmap: array<nat>, w: Widths, n: nat, m: nat) returns (r: nat)
    requires w.Ok() && n <= m && Room(w, bmap.Length, m) && Words(w, bmap[..])
    ensures IsFirst(w, bmap[..], n, m, r)
    ensures Works(w, n, m) ==> RangeFirst(w, bmap[..], n, m, r)
  {
    PlaceOrder(w, m, n);
    forall i | 0 <= i < bmap.Length ensures bmap[i] < Pow2(w.word) { assert bmap[..][i] == bmap[i]; }
    var place := FirstSetPlace(bmap, w, At(w, n), At(w, m));
    r := if place.Some? then Number(w, place.value) else m;
    if place.Some? { NumberOf(w, place.value); }
    if Works(w, n, m) { FirstRight(w, bmap[..], n, m, r); }
  }

  /** The bit number of a place. */
  function Number(w: Widths, x: Place): nat { x.i * w.word + x.p }

  lemma FirstRight(w: Widths, bmap: seq<nat>, n: nat, m: nat, r: nat)
    requires w.Ok() && n <= m && Works(w, n, m) && IsFirst(w, bmap, n, m, r)
    ensures RangeFirst(w, bmap, n, m, r)
  {
    WorksHits(w, n, m);
    HitsNumbers(w, n, m, r);
    forall x: nat | n <= x < r ensures !Marked(bmap, w, At(w, x)) {
      HitsNumbers(w, n, m, x);
      PlaceOrder(w, x, r);
    }
  }

  lemma NumberOf(w: Widths, x: Place)
    requires x.p < w.word
    ensures At(w, Number(w, x)) == x
  {
    var b := Number(w, x);
    var q := b / w.word;
    assert b == w.word * q + b % w.word;
    if q < x.i { MulStep(w.word, q, x.i); }
    if x.i < q { MulStep(w.word, x.i, q); }
  }
}
