/**
 * Choosing characters for an image by brightness
 * (ascii_art/img_to_char/BrightnessImgCharMatcher.java): the characters are
 * sorted by brightness with a bubble sort that swaps two arrays in step,
 * their brightnesses are stretched onto [0, 1], and each square tile of the
 * image gets the first character whose brightness is nearest to the tile's.
 * Brightnesses are real numbers; the brightness of a rendered character and
 * the cutting of the image into tiles are given by the caller.
 */
module AsciiMatcher {
  import opened Util

  const MAX_RGB_VALUE: real := 255.0
  const RED_COEFFICIENT: real := 0.2126
  const GREEN_COEFFICIENT: real := 0.7152
  const BLUE_COEFFICIENT: real := 0.0722

  datatype Color = Color(red: int, green: int, blue: int)

  /** An image: its size and its pixels. */
  datatype Image = Image(width: nat, height: nat, pixels: seq<Color>)

  predicate ValidColor(c: Color)
  {
    0 <= c.red <= 255 && 0 <= c.green <= 255 && 0 <= c.blue <= 255
  }

  /** getGreyPixel: the weighted sum of the three channels. */
  function Grey(c: Color): (g: real)
    ensures ValidColor(c) ==> 0.0 <= g <= MAX_RGB_VALUE
  {
    c.red as real * RED_COEFFICIENT + c.green as real * GREEN_COEFFICIENT + c.blue as real * BLUE_COEFFICIENT
  }

  /** The grey values of the pixels, each divided by 255, added up. */
  function SumBrightness(ps: seq<Color>): real
  {
    if ps == [] then 0.0 else SumBrightness(ps[..|ps| - 1]) + Grey(ps[|ps| - 1]) / MAX_RGB_VALUE
  }

  /** The brightness of an image: the mean of its pixels' grey values divided by 255. */
  function ImageBrightness(img: Image): real
    requires |img.pixels| >= 1
  {
    SumBrightness(img.pixels) / |img.pixels| as real
  }

  /** Each pixel adds between 0 and 1. */
  lemma {:induction false} SumBrightnessBounds(ps: seq<Color>)
    requires forall i :: 0 <= i < |ps| ==> ValidColor(ps[i])
    ensures 0.0 <= SumBrightness(ps) <= |ps| as real
    decreases |ps|
  {
    if ps != [] {
      SumBrightnessBounds(ps[..|ps| - 1]);
    }
  }

  /** An image of proper colours has a brightness in [0, 1]. */
  lemma ImageBrightnessBounds(img: Image)
    requires |img.pixels| >= 1 && forall i :: 0 <= i < |img.pixels| ==> ValidColor(img.pixels[i])
    ensures 0.0 <= ImageBrightness(img) <= 1.0
  {
    SumBrightnessBounds(img.pixels);
    var n := |img.pixels| as real;
    var s := SumBrightness(img.pixels);
    assert s / n * n == s;
  }

  // ---------------------------------------------------------------------
  // The paired bubble sort

  /** The sequence with the entries at j and j + 1 exchanged. */
  function Swap<T>(s: seq<T>, j: nat): (r: seq<T>)
    requires j + 1 < |s|
    ensures |r| == |s| && r[j] == s[j + 1] && r[j + 1] == s[j]
    ensures forall k :: 0 <= k < |s| && k != j && k != j + 1 ==> r[k] == s[k]
  {
    s[j := s[j + 1]][j + 1 := s[j]]
  }

  /** perm lists each index below its length exactly once. */
  predicate IsPermutation(perm: seq<nat>)
  {
    (forall k :: 0 <= k < |perm| ==> perm[k] < |perm|) &&
    (forall k, l :: 0 <= k < l < |perm| ==> perm[k] != perm[l])
  }

  /**
   * The characters and brightnesses (cs, bs) are the original ones (cs0,
   * bs0) rearranged by perm: position k holds the pair that started at
   * perm[k], so every character keeps its own brightness.
   */
  predicate Tracks(cs0: seq<char>, bs0: seq<real>, cs: seq<char>, bs: seq<real>, perm: seq<nat>)
  {
    |cs0| == |bs0| == |cs| == |bs| == |perm| && IsPermutation(perm) &&
    forall k :: 0 <= k < |perm| ==> cs[k] == cs0[perm[k]] && bs[k] == bs0[perm[k]]
  }

  /** Equal brightnesses keep their original order. */
  predicate Stable(bs: seq<real>, perm: seq<nat>)
    requires |bs| == |perm|
  {
    forall k, l :: 0 <= k < l < |bs| && bs[k] == bs[l] ==> perm[k] < perm[l]
  }

  predicate Sorted(bs: seq<real>)
  {
    forall k, l :: 0 <= k < l < |bs| ==> bs[k] <= bs[l]
  }

  /** From position from on, bs is sorted and no smaller than anything before from. */
  predicate SortedTail(bs: seq<real>, from: int)
  {
    forall k, l :: 0 <= k < l < |bs| && from <= l ==> bs[k] <= bs[l]
  }

  /** Exchanging an out-of-order neighbouring pair keeps the pairs together and keeps equal brightnesses in order. */
  lemma SwapStep(cs0: seq<char>, bs0: seq<real>, cs: seq<char>, bs: seq<real>, perm: seq<nat>, j: nat)
    requires Tracks(cs0, bs0, cs, bs, perm) && Stable(bs, perm)
    requires j + 1 < |bs| && bs[j] > bs[j + 1]
    ensures Tracks(cs0, bs0, Swap(cs, j), Swap(bs, j), Swap(perm, j))
    ensures Stable(Swap(bs, j), Swap(perm, j))
  {
    var bs', perm' := Swap(bs, j), Swap(perm, j);
    forall k, l | 0 <= k < l < |perm'|
      ensures perm'[k] != perm'[l]
    {
      var k0 := if k == j then j + 1 else if k == j + 1 then j else k;
      var l0 := if l == j then j + 1 else if l == j + 1 then j else l;
      assert perm'[k] == perm[k0] && perm'[l] == perm[l0] && k0 != l0;
    }
    forall k, l | 0 <= k < l < |bs'| && bs'[k] == bs'[l]
      ensures perm'[k] < perm'[l]
    {
      if k == j && l == j + 1 {
        assert false;
      } else {
        var k0 := if k == j then j + 1 else if k == j + 1 then j else k;
        var l0 := if l == j then j + 1 else if l == j + 1 then j else l;
        assert k0 < l0;
      }
    }
  }

  /** Exchanging two neighbours keeps the same elements. */
  lemma SwapMultiset<T>(s: seq<T>, j: nat)
    requires j + 1 < |s|
    ensures multiset(Swap(s, j)) == multiset(s)
  {
    assert s == s[..j] + [s[j], s[j + 1]] + s[j + 2..];
    assert Swap(s, j) == s[..j] + [s[j + 1], s[j]] + s[j + 2..];
  }

  /** The identity rearrangement. */
  function Identity(n: nat): (perm: seq<nat>)
    ensures |perm| == n && IsPermutation(perm)
    ensures forall k :: 0 <= k < n ==> perm[k] == k
  {
    seq(n, k => k)
  }

  /** bs[j] is the largest of bs[0..j]. */
  predicate MaxAt(bs: seq<real>, j: nat)
    requires j < |bs|
  {
    forall k :: 0 <= k <= j ==> bs[k] <= bs[j]
  }

  /** One comparison of the pass: the largest of bs[0..j + 1] ends at j + 1, and the sorted tail is untouched. */
  lemma PassStep(bs: seq<real>, j: nat, t: int)
    requires j + 1 < |bs| && j + 1 < t && MaxAt(bs, j) && SortedTail(bs, t)
    ensures var bs' := if bs[j] > bs[j + 1] then Swap(bs, j) else bs;
      MaxAt(bs', j + 1) && SortedTail(bs', t)
  {
  }

  /** A pass that leaves the largest of bs[0..m] at m extends the sorted tail by one. */
  lemma PassDone(bs: seq<real>, m: nat)
    requires m < |bs| && MaxAt(bs, m) && SortedTail(bs, m + 1)
    ensures SortedTail(bs, m)
  {
  }

  /** What holds after j comparisons of a pass up to m. */
  predicate PassState(cs0: seq<char>, bs0: seq<real>, cs: seq<char>, bs: seq<real>, perm: seq<nat>, j: nat, m: nat)
  {
    Tracks(cs0, bs0, cs, bs, perm) && Stable(bs, perm) && j <= m < |bs| &&
    SortedTail(bs, m + 1) && MaxAt(bs, j) && multiset(cs) == multiset(cs0)
  }

  /** One comparison of the pass, with or without an exchange, keeps the pass's invariant. */
  lemma PassStepAll(cs0: seq<char>, bs0: seq<real>, cs: seq<char>, bs: seq<real>, perm: seq<nat>, j: nat, m: nat)
    requires PassState(cs0, bs0, cs, bs, perm, j, m) && j < m
    ensures bs[j] > bs[j + 1] ==> PassState(cs0, bs0, Swap(cs, j), Swap(bs, j), Swap(perm, j), j + 1, m)
    ensures bs[j] <= bs[j + 1] ==> PassState(cs0, bs0, cs, bs, perm, j + 1, m)
  {
    PassStep(bs, j, m + 1);
    if bs[j] > bs[j + 1] {
      SwapStep(cs0, bs0, cs, bs, perm, j);
      SwapMultiset(cs, j);
    }
  }

  /**
   * The inner loop of sortCharsByBrightness: neighbours out of order are
   * exchanged from the front up to m, carrying the largest brightness of
   * the first m + 1 to position m.
   */
  method BubblePass(charSet: array<char>, charBrightness: array<real>, m: nat,
                    ghost cs0: seq<char>, ghost bs0: seq<real>, ghost perm0: seq<nat>) returns (ghost perm: seq<nat>)
    requires m < charBrightness.Length
    requires Tracks(cs0, bs0, charSet[..], charBrightness[..], perm0) && Stable(charBrightness[..], perm0)
    requires SortedTail(charBrightness[..], m + 1) && multiset(charSet[..]) == multiset(cs0)
    modifies charSet, charBrightness
    ensures Tracks(cs0, bs0, charSet[..], charBrightness[..], perm) && Stable(charBrightness[..], perm)
    ensures SortedTail(charBrightness[..], m)
    ensures multiset(charSet[..]) == multiset(cs0)
  {
    perm := perm0;
    var j := 0;
    while j < m
      invariant 0 <= j <= m
      invariant PassState(cs0, bs0, charSet[..], charBrightness[..], perm, j, m)
    {
      ghost var cs, bs := charSet[..], charBrightness[..];
      PassStepAll(cs0, bs0, cs, bs, perm, j, m);
      if charBrightness[j] > charBrightness[j + 1] {
        perm := Swap(perm, j);
        SwapBrightness(charBrightness, j);
        SwapChars(charSet, j);
      }
      j := j + 1;
    }
    PassDone(charBrightness[..], m);
  }

  /**
   * sortCharsByBrightness: bubble sort on the brightnesses, every exchange
   * made in the characters as well; it exchanges only on a strict
   * decrease. Afterwards the brightnesses are sorted, each character has
   * kept its brightness, and equal brightnesses are in their original order.
   */
  method SortCharsByBrightness(charSet: array<char>, charBrightness: array<real>) returns (ghost perm: seq<nat>)
    requires charSet.Length == charBrightness.Length
    modifies charSet, charBrightness
    ensures Sorted(charBrightness[..])
    ensures Tracks(old(charSet[..]), old(charBrightness[..]), charSet[..], charBrightness[..], perm)
    ensures Stable(charBrightness[..], perm)
    ensures multiset(charSet[..]) == multiset(old(charSet[..]))
  {
    var n := charSet.Length;
    ghost var cs0, bs0 := charSet[..], charBrightness[..];
    perm := Identity(n);
    var i := 0;
    while i < n - 1
      invariant 0 <= i && (n >= 1 ==> i <= n - 1)
      invariant Tracks(cs0, bs0, charSet[..], charBrightness[..], perm) && Stable(charBrightness[..], perm)
      invariant multiset(charSet[..]) == multiset(cs0)
      invariant SortedTail(charBrightness[..], n - i)
    {
      perm := BubblePass(charSet, charBrightness, n - i - 1, cs0, bs0, perm);
      i := i + 1;
    }
    assert n >= 1 ==> SortedTail(charBrightness[..], 1) && i == n - 1;
  }

  /** swapBrightness. */
  method SwapBrightness(charBrightness: array<real>, i: nat)
    requires i + 1 < charBrightness.Length
    modifies charBrightness
    ensures charBrightness[..] == Swap(old(charBrightness[..]), i)
  {
    var tempBrightness := charBrightness[i];
    charBrightness[i] := charBrightness[i + 1];
    charBrightness[i + 1] := tempBrightness;
  }

  /** swapChars. */
  method SwapChars(charSet: array<char>, i: nat)
    requires i + 1 < charSet.Length
    modifies charSet
    ensures charSet[..] == Swap(old(charSet[..]), i)
  {
    var tempChar := charSet[i];
    charSet[i] := charSet[i + 1];
    charSet[i + 1] := tempChar;
  }

  // ---------------------------------------------------------------------
  // Linear stretching

  /**
   * The stretched brightness of x between the least brightness lo and the
   * greatest hi, as intended: every brightness becomes 0 when lo == hi.
   */
  function Stretch(x: real, lo: real, hi: real): real
  {
    if lo == hi then 0.0 else (x - lo) / (hi - lo)
  }

  /** Between lo and hi, stretching lands in [0, 1] and keeps the order. */
  lemma StretchBounds(x: real, y: real, lo: real, hi: real)
    requires lo <= x <= y <= hi
    ensures 0.0 <= Stretch(x, lo, hi) <= Stretch(y, lo, hi) <= 1.0
  {
    if lo < hi {
      var d := hi - lo;
      assert Stretch(x, lo, hi) * d == x - lo;
      assert Stretch(y, lo, hi) * d == y - lo;
    }
  }

  /** Stretching a sorted sequence between its first and last: everything lies in [0, 1] and the order is kept. */
  lemma StretchedRange(bs: seq<real>)
    requires |bs| >= 1 && Sorted(bs)
    ensures forall i :: 0 <= i < |bs| ==> 0.0 <= Stretch(bs[i], bs[0], bs[|bs| - 1]) <= 1.0
    ensures forall k, l :: 0 <= k < l < |bs| ==> Stretch(bs[k], bs[0], bs[|bs| - 1]) <= Stretch(bs[l], bs[0], bs[|bs| - 1])
  {
    var lo, hi := bs[0], bs[|bs| - 1];
    forall i | 0 <= i < |bs|
      ensures 0.0 <= Stretch(bs[i], lo, hi) <= 1.0
    {
      StretchBounds(bs[i], bs[i], lo, hi);
    }
    forall k, l | 0 <= k < l < |bs|
      ensures Stretch(bs[k], lo, hi) <= Stretch(bs[l], lo, hi)
    {
      StretchBounds(bs[k], bs[l], lo, hi);
    }
  }

  /** The least brightness becomes 0 and, when the brightnesses differ, the greatest becomes 1. */
  lemma StretchedEnds(lo: real, hi: real)
    requires lo <= hi
    ensures Stretch(lo, lo, hi) == 0.0
    ensures lo < hi ==> Stretch(hi, lo, hi) == 1.0
  {
    if lo < hi {
      var d := hi - lo;
      assert d / d == 1.0;
    }
  }

  /**
   * linearStretching as written: the 0 stored when the least and greatest
   * brightness are equal is overwritten by (0 - lo) / (hi - lo), a division
   * by zero whose floating-point result is an infinity or NaN, never a
   * brightness in [0, 1] (None here).
   */
  function StretchAsWritten(x: real, lo: real, hi: real): Option<real>
  {
    if lo == hi then None else Some((x - lo) / (hi - lo))
  }

  /** A single character, or characters all equally bright, get no number as written, and 0 as intended. */
  lemma StretchAsWrittenEqualBrightness(bs: seq<real>)
    requires |bs| >= 1 && bs[0] == bs[|bs| - 1]
    ensures forall i :: 0 <= i < |bs| ==> StretchAsWritten(bs[i], bs[0], bs[|bs| - 1]).None?
    ensures forall i :: 0 <= i < |bs| ==> Stretch(bs[i], bs[0], bs[|bs| - 1]) == 0.0
  {
  }

  /** The brightness array [0.5] of a one-character set: as written it holds no number, as intended 0. */
  lemma StretchOneCharacter()
    ensures StretchAsWritten(0.5, 0.5, 0.5) == None
    ensures Stretch(0.5, 0.5, 0.5) == 0.0
  {
  }

  /**
   * linearStretching, with the equal-brightness case giving 0 as its
   * comment intends: each brightness is stretched between the first and
   * the last of the (sorted) array.
   */
  method LinearStretching(charBrightness: array<real>)
    requires charBrightness.Length >= 1
    modifies charBrightness
    ensures forall k :: 0 <= k < charBrightness.Length ==>
      charBrightness[k] == Stretch(old(charBrightness[k]), old(charBrightness[0]), old(charBrightness[charBrightness.Length - 1]))
  {
    var minBrightness := charBrightness[0];
    var maxBrightness := charBrightness[charBrightness.Length - 1];
    var i := 0;
    while i < charBrightness.Length
      invariant 0 <= i <= charBrightness.Length
      invariant forall k :: 0 <= k < i ==> charBrightness[k] == Stretch(old(charBrightness[k]), minBrightness, maxBrightness)
      invariant forall k :: i <= k < charBrightness.Length ==> charBrightness[k] == old(charBrightness[k])
    {
      if minBrightness == maxBrightness {
        charBrightness[i] := 0.0;
      } else {
        charBrightness[i] := (charBrightness[i] - minBrightness) / (maxBrightness - minBrightness);
      }
      i := i + 1;
    }
  }

  // ---------------------------------------------------------------------
  // The nearest character

  /**
   * k is the first index whose brightness is nearest to x: no brightness
   * is nearer, and every earlier one is farther.
   */
  predicate IsFirstNearest(bs: seq<real>, x: real, k: nat)
  {
    k < |bs| &&
    (forall i :: 0 <= i < |bs| ==> Abs(x - bs[k]) <= Abs(x - bs[i])) &&
    (forall i :: 0 <= i < k ==> Abs(x - bs[k]) < Abs(x - bs[i]))
  }

  /** The index getCharForSubImage settles on: a later brightness replaces the best only when strictly nearer. */
  function NearestIndex(bs: seq<real>, x: real): (k: nat)
    requires |bs| >= 1
    ensures k < |bs|
  {
    if |bs| == 1 then 0
    else
      var k := NearestIndex(bs[..|bs| - 1], x);
      if Abs(x - bs[|bs| - 1]) < Abs(x - bs[k]) then |bs| - 1 else k
  }

  /** NearestIndex is the arg-min of the distance, the lowest index on ties. */
  lemma {:induction false} NearestIndexSpec(bs: seq<real>, x: real)
    requires |bs| >= 1
    ensures IsFirstNearest(bs, x, NearestIndex(bs, x))
    decreases |bs|
  {
    if |bs| > 1 {
      var init := bs[..|bs| - 1];
      NearestIndexSpec(init, x);
      assert forall i :: 0 <= i < |init| ==> init[i] == bs[i];
    }
  }

  /** There is only one first nearest index. */
  lemma FirstNearestUnique(bs: seq<real>, x: real, k1: nat, k2: nat)
    requires IsFirstNearest(bs, x, k1) && IsFirstNearest(bs, x, k2)
    ensures k1 == k2
  {
    assert Abs(x - bs[k1]) <= Abs(x - bs[k2]) && Abs(x - bs[k2]) <= Abs(x - bs[k1]);
  }

  /** When all brightnesses are equal the first character is chosen. */
  lemma AllEqualChoosesFirst(bs: seq<real>, x: real)
    requires |bs| >= 1 && forall i :: 0 <= i < |bs| ==> bs[i] == bs[0]
    ensures NearestIndex(bs, x) == 0
  {
    NearestIndexSpec(bs, x);
    FirstNearestUnique(bs, x, 0, NearestIndex(bs, x));
  }

  /** getCharForSubImage: the character of the first brightness nearest to the sub-image's. */
  method GetCharForSubImage(charSet: array<char>, charBrightness: array<real>, subImageBrightness: real) returns (bestChar: char)
    requires charSet.Length == charBrightness.Length >= 1
    ensures bestChar == charSet[NearestIndex(charBrightness[..], subImageBrightness)]
  {
    ghost var bs := charBrightness[..];
    bestChar := charSet[0];
    ghost var best := 0;
    var bestDifference := Abs(subImageBrightness - charBrightness[0]);
    var i := 0;
    while i < charBrightness.Length
      invariant 0 <= i <= charBrightness.Length
      invariant best == NearestIndex(bs[..if i == 0 then 1 else i], subImageBrightness)
      invariant bestChar == charSet[best] && bestDifference == Abs(subImageBrightness - bs[best])
    {
      if i > 0 {
        assert bs[..i + 1][..i] == bs[..i];
      }
      if Abs(subImageBrightness - charBrightness[i]) < bestDifference {
        bestChar := charSet[i];
        best := i;
        bestDifference := Abs(subImageBrightness - charBrightness[i]);
      }
      i := i + 1;
    }
    assert bs[..i] == bs;
  }

  /** getCharBrightness: the brightness of each character, at the character's index. */
  method GetCharBrightness(charSet: array<char>, brightnessOf: char -> real) returns (charBrightness: array<real>)
    ensures fresh(charBrightness) && charBrightness.Length == charSet.Length
    ensures forall i :: 0 <= i < charSet.Length ==> charBrightness[i] == brightnessOf(charSet[i])
  {
    charBrightness := new real[charSet.Length];
    var i := 0;
    while i < charSet.Length
      invariant 0 <= i <= charSet.Length
      invariant forall k :: 0 <= k < i ==> charBrightness[k] == brightnessOf(charSet[k])
    {
      charBrightness[i] := brightnessOf(charSet[i]);
      i := i + 1;
    }
  }

  // ---------------------------------------------------------------------
  // Tiles

  /**
   * The position of the tile at row r and column c when the tiles come row
   * by row, cols to a row: r * cols + c.
   */
  function Flat(r: nat, c: nat, cols: nat): nat
  {
    if r == 0 then c else Flat(r - 1, c, cols) + cols
  }

  /** Inside a rows by cols grid, the tile positions stay below the tile count Flat(rows, 0, cols). */
  lemma {:induction false} FlatBelow(r: nat, c: nat, rows: nat, cols: nat)
    requires r < rows && c < cols
    ensures Flat(r, c, cols) < Flat(rows, 0, cols)
    decreases rows
  {
    if r < rows - 1 {
      FlatBelow(r, c, rows - 1, cols);
    } else {
      FlatColumn(r, c, cols);
    }
  }

  /** Moving along a row adds the column. */
  lemma {:induction false} FlatColumn(r: nat, c: nat, cols: nat)
    ensures Flat(r, c, cols) == Flat(r, 0, cols) + c
    decreases r
  {
    if r > 0 {
      FlatColumn(r - 1, c, cols);
    }
  }

  /** The tile after (r, c) is the next cell of the row, or the first of the next row. */
  lemma FlatNext(r: nat, c: nat, cols: nat)
    requires c < cols
    ensures c + 1 < cols ==> Flat(r, c + 1, cols) == Flat(r, c, cols) + 1
    ensures c + 1 == cols ==> Flat(r + 1, 0, cols) == Flat(r, c, cols) + 1
  {
    FlatColumn(r, c, cols);
    FlatColumn(r, c + 1, cols);
  }

  /** The side of a square tile: the image's width over the characters in a row. */
  function TileSize(img: Image, numCharsInRow: nat): nat
    requires numCharsInRow >= 1
  {
    img.width / numCharsInRow
  }

  lemma {:induction false} MulMonotone(a: nat, b: nat, c: nat)
    requires a <= b
    ensures a * c <= b * c
    decreases b - a
  {
    if a < b {
      MulMonotone(a + 1, b, c);
    }
  }

  /** A tile side of width / n, for 1 <= n <= width, is at least 1 and fits at least once across the width. */
  lemma TileSizeFits(width: nat, n: nat)
    requires 1 <= n <= width
    ensures 1 <= width / n <= width && width / (width / n) >= 1
  {
    var p := width / n;
    assert p >= 1 by {
      assert n * 1 <= width;
    }
    assert p <= width by {
      assert p * n + width % n == width;
      MulMonotone(1, n, p);
    }
  }

  /**
   * What the cutting of the image into square tiles provides: one tile
   * per cell of the (height / p) by (width / p) grid, row by row, each with
   * at least one pixel.
   */
  predicate TilesFit(img: Image, numCharsInRow: nat, tiles: seq<Image>)
  {
    1 <= numCharsInRow <= img.width &&
    |tiles| == Flat(img.height / TileSize(img, numCharsInRow), 0, img.width / TileSize(img, numCharsInRow)) &&
    forall k :: 0 <= k < |tiles| ==> |tiles[k].pixels| >= 1
  }

  /** The character chosen for tile k. */
  function TileChar(cs: seq<char>, bs: seq<real>, tiles: seq<Image>, k: nat): char
  {
    if |cs| == |bs| >= 1 && k < |tiles| && |tiles[k].pixels| >= 1 then cs[NearestIndex(bs, ImageBrightness(tiles[k]))]
    else ' '
  }

  /**
   * The character of a tile is that of the first brightness nearest to
   * the tile's mean brightness.
   */
  lemma TileCharNearest(cs: seq<char>, bs: seq<real>, tiles: seq<Image>, k: nat)
    requires |cs| == |bs| >= 1 && k < |tiles| && |tiles[k].pixels| >= 1
    ensures exists i: nat :: IsFirstNearest(bs, ImageBrightness(tiles[k]), i) && TileChar(cs, bs, tiles, k) == cs[i]
  {
    var x := ImageBrightness(tiles[k]);
    NearestIndexSpec(bs, x);
    var i := NearestIndex(bs, x);
    assert IsFirstNearest(bs, x, i) && TileChar(cs, bs, tiles, k) == cs[i];
  }

  /** Every character picked for a tile comes from cs, so from cs0 when every character of cs does. */
  lemma ChosenAreGiven(cs0: seq<char>, cs: seq<char>, bs: seq<real>, tiles: seq<Image>)
    requires |cs| == |bs| >= 1 && forall i :: 0 <= i < |cs| ==> cs[i] in cs0
    ensures forall k: nat :: k < |tiles| && |tiles[k].pixels| >= 1 ==> TileChar(cs, bs, tiles, k) in cs0
  {
    forall k: nat | k < |tiles| && |tiles[k].pixels| >= 1
      ensures TileChar(cs, bs, tiles, k) in cs0
    {
      var i := NearestIndex(bs, ImageBrightness(tiles[k]));
      assert TileChar(cs, bs, tiles, k) == cs[i];
    }
  }

  /** The brightness of each character of cs, at the character's index. */
  function Measured(cs: seq<char>, brightnessOf: char -> real): seq<real>
  {
    seq(|cs|, i requires 0 <= i < |cs| => brightnessOf(cs[i]))
  }

  /**
   * cs is cs0 sorted by brightness as sortCharsByBrightness sorts it: the
   * same characters, perm telling where each came from, the brightnesses
   * ascending, and characters of equal brightness in their original order.
   */
  predicate SortedByBrightness(cs0: seq<char>, brightnessOf: char -> real, cs: seq<char>, perm: seq<nat>)
  {
    var bs := Measured(cs, brightnessOf);
    Tracks(cs0, Measured(cs0, brightnessOf), cs, bs, perm) && Stable(bs, perm) && Sorted(bs) &&
    multiset(cs) == multiset(cs0)
  }

  /** bs is raw stretched between its first and its last entry. */
  predicate StretchedFrom(raw: seq<real>, bs: seq<real>)
  {
    |bs| == |raw| >= 1 && forall i :: 0 <= i < |bs| ==> bs[i] == Stretch(raw[i], raw[0], raw[|raw| - 1])
  }

  /**
   * The first three steps of chooseChars: a copy of the characters, their
   * brightnesses and the paired sort. The copy is the given characters
   * sorted by brightness, each next to its own brightness.
   */
  method SortedCopy(charSet: array<char>, brightnessOf: char -> real)
    returns (newCharSet: array<char>, charBrightness: array<real>, ghost perm: seq<nat>)
    ensures fresh(newCharSet) && fresh(charBrightness)
    ensures newCharSet.Length == charBrightness.Length == charSet.Length
    ensures SortedByBrightness(charSet[..], brightnessOf, newCharSet[..], perm)
    ensures charBrightness[..] == Measured(newCharSet[..], brightnessOf)
  {
    newCharSet := CopyChars(charSet);
    charBrightness := GetCharBrightness(newCharSet, brightnessOf);
    ghost var cs0, bs0 := newCharSet[..], charBrightness[..];
    perm := SortCharsByBrightness(newCharSet, charBrightness);
    ghost var cs, bs := newCharSet[..], charBrightness[..];
    assert charSet[..] == cs0;
    SortedPairsMeasured(cs0, brightnessOf, bs0, cs, bs, perm);
  }

  /**
   * What the paired sort of measured characters gives: the characters
   * sorted by brightness, each still next to its own brightness.
   */
  lemma SortedPairsMeasured(cs0: seq<char>, brightnessOf: char -> real, bs0: seq<real>, cs: seq<char>, bs: seq<real>, perm: seq<nat>)
    requires |bs0| == |cs0| && forall i :: 0 <= i < |cs0| ==> bs0[i] == brightnessOf(cs0[i])
    requires Tracks(cs0, bs0, cs, bs, perm) && Stable(bs, perm) && Sorted(bs) && multiset(cs) == multiset(cs0)
    ensures bs == Measured(cs, brightnessOf)
    ensures SortedByBrightness(cs0, brightnessOf, cs, perm)
  {
    assert bs0 == Measured(cs0, brightnessOf);
    forall k | 0 <= k < |cs|
      ensures bs[k] == brightnessOf(cs[k])
    {
      assert cs[k] == cs0[perm[k]];
    }
    assert bs == Measured(cs, brightnessOf);
  }

  /** A rearrangement holds only characters of the original. */
  lemma SameElements(cs0: seq<char>, cs: seq<char>)
    requires multiset(cs) == multiset(cs0)
    ensures forall i :: 0 <= i < |cs| ==> cs[i] in cs0
  {
    forall i | 0 <= i < |cs|
      ensures cs[i] in cs0
    {
      assert cs[i] in multiset(cs);
    }
  }

  /**
   * The first four steps of chooseChars: the sorted copy with its
   * brightnesses stretched between the least and the greatest, which are
   * then still sorted and lie in [0, 1].
   */
  method PrepareChars(charSet: array<char>, brightnessOf: char -> real)
    returns (newCharSet: array<char>, charBrightness: array<real>, ghost perm: seq<nat>)
    requires charSet.Length >= 1
    ensures fresh(newCharSet) && fresh(charBrightness)
    ensures newCharSet.Length == charBrightness.Length == charSet.Length
    ensures SortedByBrightness(charSet[..], brightnessOf, newCharSet[..], perm)
    ensures StretchedFrom(Measured(newCharSet[..], brightnessOf), charBrightness[..])
    ensures Sorted(charBrightness[..])
    ensures forall i :: 0 <= i < charBrightness.Length ==> 0.0 <= charBrightness[i] <= 1.0
  {
    newCharSet, charBrightness, perm := SortedCopy(charSet, brightnessOf);
    ghost var given, cs, raw := charSet[..], newCharSet[..], charBrightness[..];
    LinearStretching(charBrightness);
    ghost var bs := charBrightness[..];
    assert StretchedFrom(raw, bs);
    StretchedSorted(raw, bs);
    assert charSet[..] == given && newCharSet[..] == cs;
  }

  /** Stretching a sorted sequence keeps it sorted and brings it into [0, 1]. */
  lemma StretchedSorted(raw: seq<real>, bs: seq<real>)
    requires Sorted(raw) && StretchedFrom(raw, bs)
    ensures Sorted(bs)
    ensures forall i :: 0 <= i < |bs| ==> 0.0 <= bs[i] <= 1.0
  {
    StretchedRange(raw);
  }

  /** The copy chooseChars works on, so the caller's array is left as it is. */
  method CopyChars(charSet: array<char>) returns (newCharSet: array<char>)
    ensures fresh(newCharSet) && newCharSet[..] == charSet[..]
  {
    newCharSet := new char[charSet.Length];
    var i := 0;
    while i < charSet.Length
      invariant 0 <= i <= charSet.Length
      invariant forall k :: 0 <= k < i ==> newCharSet[k] == charSet[k]
    {
      newCharSet[i] := charSet[i];
      i := i + 1;
    }
  }

  class BrightnessImgCharMatcher {
    const image: Image
    const font: string
    var cache: map<Image, real>

    /** Every cached brightness is the brightness of its image. */
    predicate CacheSound()
      reads this
    {
      forall img :: img in cache ==> |img.pixels| >= 1 && cache[img] == ImageBrightness(img)
    }

    constructor (image: Image, font: string)
      ensures this.image == image && this.font == font && cache == map[]
      ensures CacheSound()
    {
      this.image := image;
      this.font := font;
      cache := map[];
    }

    /**
     * getImageBrightness: a cached image answers from the cache; otherwise
     * the mean brightness of its pixels is computed and stored.
     */
    method GetImageBrightness(img: Image) returns (brightness: real)
      requires |img.pixels| >= 1 && CacheSound()
      modifies this
      ensures CacheSound() && brightness == ImageBrightness(img)
      ensures img in old(cache) ==> cache == old(cache)
      ensures img !in old(cache) ==> cache == old(cache)[img := brightness]
    {
      if img in cache {
        return cache[img];
      }
      var numPixels := 0;
      var sumBrightness := 0.0;
      while numPixels < |img.pixels|
        invariant 0 <= numPixels <= |img.pixels|
        invariant sumBrightness == SumBrightness(img.pixels[..numPixels])
      {
        assert img.pixels[..numPixels + 1][..numPixels] == img.pixels[..numPixels];
        sumBrightness := sumBrightness + Grey(img.pixels[numPixels]) / MAX_RGB_VALUE;
        numPixels := numPixels + 1;
      }
      assert img.pixels[..numPixels] == img.pixels;
      brightness := sumBrightness / numPixels as real;
      cache := cache[img := brightness];
    }

    /**
     * convertImageToAscii: the image cut into square tiles of side p =
     * width / numCharsInRow gives a (height / p) by (width / p) grid, filled
     * row by row with each tile's nearest character.
     */
    method ConvertImageToAscii(charBrightness: array<real>, numCharsInRow: nat, charSet: array<char>, tiles: seq<Image>)
      returns (asciiArt: array2<char>)
      requires charSet.Length == charBrightness.Length >= 1
      requires TilesFit(image, numCharsInRow, tiles) && CacheSound()
      modifies this
      ensures CacheSound()
      ensures fresh(asciiArt)
      ensures asciiArt.Length0 == image.height / TileSize(image, numCharsInRow)
      ensures asciiArt.Length1 == image.width / TileSize(image, numCharsInRow)
      ensures forall r, c :: 0 <= r < asciiArt.Length0 && 0 <= c < asciiArt.Length1 ==>
        asciiArt[r, c] == TileChar(charSet[..], charBrightness[..], tiles, Flat(r, c, asciiArt.Length1))
    {
      var pixels := image.width / numCharsInRow;
      var rows, cols := image.height / pixels, image.width / pixels;
      TileSizeFits(image.width, numCharsInRow);
      ghost var cs, bs := charSet[..], charBrightness[..];
      asciiArt := new char[rows, cols];
      var row, col := 0, 0;
      var k := 0;
      while k < |tiles|
        invariant k == Flat(row, col, cols) && 0 <= col < cols
        invariant row < rows || (row == rows && col == 0)
        invariant CacheSound()
        invariant forall r, c {:trigger asciiArt[r, c]} :: 0 <= r < row && 0 <= c < cols ==>
          asciiArt[r, c] == TileChar(cs, bs, tiles, Flat(r, c, cols))
        invariant forall c {:trigger asciiArt[row, c]} :: 0 <= c < col ==>
          asciiArt[row, c] == TileChar(cs, bs, tiles, Flat(row, c, cols))
        decreases |tiles| - k
      {
        if row == rows {
          assert false;
        }
        var subImageBrightness := GetImageBrightness(tiles[k]);
        asciiArt[row, col] := GetCharForSubImage(charSet, charBrightness, subImageBrightness);
        assert asciiArt[row, col] == TileChar(cs, bs, tiles, k);
        FlatNext(row, col, cols);
        col := col + 1;
        k := k + 1;
        if col == cols {
          row := row + 1;
          col := 0;
        }
      }
      if row < rows {
        FlatBelow(row, col, rows, cols);
      }
    }

    /**
     * chooseChars: the characters are copied (the caller's array is left
     * as it is), measured, sorted by brightness (newChars, with perm), and
     * their brightnesses stretched (bright); every cell then holds the
     * character of its tile, the first whose stretched brightness is
     * nearest to the tile's (TileCharNearest), so one of the given ones.
     */
    method ChooseChars(numCharsInRow: nat, charSet: array<char>, brightnessOf: char -> real, tiles: seq<Image>)
      returns (asciiArt: array2<char>, ghost newChars: seq<char>, ghost bright: seq<real>, ghost perm: seq<nat>)
      requires charSet.Length >= 1
      requires TilesFit(image, numCharsInRow, tiles) && CacheSound()
      modifies this
      ensures CacheSound()
      ensures charSet[..] == old(charSet[..])
      ensures SortedByBrightness(charSet[..], brightnessOf, newChars, perm)
      ensures StretchedFrom(Measured(newChars, brightnessOf), bright)
      ensures fresh(asciiArt)
      ensures asciiArt.Length0 == image.height / TileSize(image, numCharsInRow)
      ensures asciiArt.Length1 == image.width / TileSize(image, numCharsInRow)
      ensures forall r, c :: 0 <= r < asciiArt.Length0 && 0 <= c < asciiArt.Length1 ==>
        asciiArt[r, c] == TileChar(newChars, bright, tiles, Flat(r, c, asciiArt.Length1))
      ensures forall r, c :: 0 <= r < asciiArt.Length0 && 0 <= c < asciiArt.Length1 ==> asciiArt[r, c] in charSet[..]
    {
      var newCharSet, charBrightness;
      newCharSet, charBrightness, perm := PrepareChars(charSet, brightnessOf);
      newChars, bright := newCharSet[..], charBrightness[..];
      asciiArt := ConvertImageToAscii(charBrightness, numCharsInRow, newCharSet, tiles);
      SameElements(charSet[..], newChars);
      ChosenAreGiven(charSet[..], newChars, bright, tiles);
      forall r, c | 0 <= r < asciiArt.Length0 && 0 <= c < asciiArt.Length1
        ensures asciiArt[r, c] in charSet[..]
      {
        FlatBelow(r, c, asciiArt.Length0, asciiArt.Length1);
      }
    }
  }
}
