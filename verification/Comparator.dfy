/** The screenshot comparator: counts the pixels that differ by more than a
    one-pixel rendering shift. */
module Comparator {
  import opened Helpers

  /** Channels are alpha-premultiplied, 0 to 65535. */
  datatype Color = Color(r: nat, g: nat, b: nat, a: nat)

  /** An image at the origin; `At(x, y)` is meant for 0 <= x < w and 0 <= y < h. */
  datatype Image = Image(w: nat, h: nat, px: (int, int) -> Color) {
    function At(x: int, y: int): Color {
      px(x, y)
    }

    predicate Contains(x: int, y: int) {
      0 <= x < w && 0 <= y < h
    }
  }

  predicate SameSize(a: Image, b: Image) {
    a.w == b.w && a.h == b.h
  }

  // ----- one pixel ------------------------------------------------------------

  function ColorDiff(a: nat, b: nat): real {
    if a < b then (b - a) as real else (a - b) as real
  }

  /** The colours are within `fuzz` in every channel. */
  predicate Matches(fuzz: real, p: Color, q: Color) {
    && ColorDiff(p.r, q.r) <= fuzz
    && ColorDiff(p.g, q.g) <= fuzz
    && ColorDiff(p.b, q.b) <= fuzz
    && ColorDiff(p.a, q.a) <= fuzz
  }

  predicate PixelDiffers(fuzz: real, img1: Image, img2: Image, x: int, y: int) {
    var p, q := img1.At(x, y), img2.At(x, y);
    ColorDiff(p.r, q.r) > fuzz || ColorDiff(p.g, q.g) > fuzz || ColorDiff(p.b, q.b) > fuzz || ColorDiff(p.a, q.a) > fuzz
  }

  /** A neighbour of (x, y) in one image has the colour of (x, y) in the other. */
  predicate ShiftedTo(fuzz: real, img1: Image, img2: Image, x: int, y: int, nx: int, ny: int) {
    && (nx != x || ny != y)
    && img1.Contains(nx, ny)
    && (Matches(fuzz, img1.At(nx, ny), img2.At(x, y)) || Matches(fuzz, img2.At(nx, ny), img1.At(x, y)))
  }

  ghost predicate Antialiased(fuzz: real, img1: Image, img2: Image, x: int, y: int) {
    exists nx, ny :: x - 1 <= nx <= x + 1 && y - 1 <= ny <= y + 1 && ShiftedTo(fuzz, img1, img2, x, y, nx, ny)
  }

  method IsAntialiased(fuzz: real, img1: Image, img2: Image, x: int, y: int) returns (r: bool)
    ensures r == Antialiased(fuzz, img1, img2, x, y)
  {
    for dy := -1 to 2
      invariant forall nx, ny :: x - 1 <= nx <= x + 1 && y - 1 <= ny < y + dy ==> !ShiftedTo(fuzz, img1, img2, x, y, nx, ny)
    {
      for dx := -1 to 2
        invariant forall nx, ny :: x - 1 <= nx <= x + 1 && y - 1 <= ny <= y + dy && (ny < y + dy || nx < x + dx) ==> !ShiftedTo(fuzz, img1, img2, x, y, nx, ny)
      {
        var nx, ny := x + dx, y + dy;
        if dx == 0 && dy == 0 {
          continue;
        }
        if nx < 0 || nx >= img1.w || ny < 0 || ny >= img1.h {
          continue;
        }
        if Matches(fuzz, img1.At(nx, ny), img2.At(x, y)) {
          assert ShiftedTo(fuzz, img1, img2, x, y, nx, ny);
          return true;
        }
        if Matches(fuzz, img2.At(nx, ny), img1.At(x, y)) {
          assert ShiftedTo(fuzz, img1, img2, x, y, nx, ny);
          return true;
        }
      }
    }
    return false;
  }

  ghost predicate Flagged(fuzz: real, img1: Image, img2: Image, x: int, y: int) {
    img1.Contains(x, y) && PixelDiffers(fuzz, img1, img2, x, y) && !Antialiased(fuzz, img1, img2, x, y)
  }

  // ----- the whole picture ----------------------------------------------------

  ghost function FlaggedSet(fuzz: real, img1: Image, img2: Image): set<(int, int)> {
    set x, y | 0 <= x < img1.w && 0 <= y < img1.h && Flagged(fuzz, img1, img2, x, y) :: (x, y)
  }

  function Trues(mask: seq<bool>): nat {
    if mask == [] then 0 else Trues(mask[..|mask| - 1]) + if mask[|mask| - 1] then 1 else 0
  }

  lemma {:induction false} TruesSet(mask: seq<bool>, i: nat)
    requires i < |mask| && !mask[i]
    ensures Trues(mask[i := true]) == Trues(mask) + 1
  {
    var n := |mask| - 1;
    if i < n {
      TruesSet(mask[..n], i);
      assert mask[i := true][..n] == mask[..n][i := true];
    } else {
      assert mask[i := true][..n] == mask[..n];
    }
  }

  /** The cell of a pixel in the flat mask. */
  function Cell(w: nat, x: int, y: int): int {
    y * w + x
  }

  /** Different pixels have different cells. */
  lemma CellInjective(w: nat, x: int, y: int, u: int, v: int)
    requires 0 <= x < w && 0 <= u < w
    ensures Cell(w, x, y) == Cell(w, u, v) <==> x == u && y == v
  {
    Multiple(y - v, w);
    assert (y - v) * w == y * w - v * w;
  }

  lemma CellInRange(w: nat, h: nat, x: int, y: int)
    requires 0 <= x < w && 0 <= y < h
    ensures 0 <= Cell(w, x, y) < w * h
  {
    Multiple(h - y, w);
    assert (h - y) * w == h * w - y * w;
    assert y * w >= 0;
  }

  /** The cells of the pixels in `done` are set, and no others. */
  ghost predicate Painted(mask: seq<bool>, w: nat, h: nat, done: set<(int, int)>) {
    && |mask| == w * h
    && Trues(mask) == |done|
    && forall x, y :: 0 <= x < w && 0 <= y < h ==> Lit(mask, Cell(w, x, y), (x, y) in done)
  }

  predicate Lit(mask: seq<bool>, i: int, on: bool) {
    0 <= i < |mask| && mask[i] == on
  }

  lemma PaintOne(mask: seq<bool>, w: nat, h: nat, done: set<(int, int)>, x: int, y: int)
    requires Painted(mask, w, h, done) && 0 <= x < w && 0 <= y < h && (x, y) !in done
    ensures 0 <= Cell(w, x, y) < |mask| && Painted(mask[Cell(w, x, y) := true], w, h, done + {(x, y)})
  {
    assert Lit(mask, Cell(w, x, y), false);
    TruesSet(mask, Cell(w, x, y));
    forall u, v | 0 <= u < w && 0 <= v < h ensures Lit(mask[Cell(w, x, y) := true], Cell(w, u, v), (u, v) in done + {(x, y)}) {
      CellInjective(w, x, y, u, v);
      assert Lit(mask, Cell(w, u, v), (u, v) in done);
    }
  }

  lemma {:induction false} TruesNone(mask: seq<bool>)
    requires forall i :: 0 <= i < |mask| ==> !mask[i]
    ensures Trues(mask) == 0
  {
    if mask != [] {
      TruesNone(mask[..|mask| - 1]);
    }
  }

  lemma PaintNone(mask: seq<bool>, w: nat, h: nat)
    requires |mask| == w * h && forall i :: 0 <= i < |mask| ==> !mask[i]
    ensures Painted(mask, w, h, {})
  {
    TruesNone(mask);
    forall x, y | 0 <= x < w && 0 <= y < h ensures Lit(mask, Cell(w, x, y), false) {
      CellInRange(w, h, x, y);
    }
  }

  /** `diffCount` and `mask` for a pair of images; no mask is kept when no diff
      picture is wanted. */
  method CompareImages(fuzz: real, img1: Image, img2: Image, wantMask: bool) returns (diffCount: nat, mask: seq<bool>)
    ensures !SameSize(img1, img2) ==> diffCount == img1.w * img1.h && mask == []
    ensures SameSize(img1, img2) ==> diffCount == |FlaggedSet(fuzz, img1, img2)|
    ensures SameSize(img1, img2) && wantMask ==> Painted(mask, img1.w, img1.h, FlaggedSet(fuzz, img1, img2))
  {
    if !SameSize(img1, img2) {
      return img1.w * img1.h, [];
    }
    var cells := new bool[if wantMask then Area(img1) else 0](_ => false);
    if wantMask {
      PaintNone(cells[..], img1.w, img1.h);
    }
    diffCount := 0;
    assert Earlier(fuzz, img1, img2, 0, 0) == {};
    for y := 0 to img1.h
      invariant Tally(cells[..], wantMask, img1, Earlier(fuzz, img1, img2, 0, y), diffCount)
    {
      diffCount := CompareRow(fuzz, img1, img2, y, cells, wantMask, diffCount);
    }
    assert Earlier(fuzz, img1, img2, 0, img1.h) == FlaggedSet(fuzz, img1, img2);
    mask := cells[..];
  }

  /** The pixels counted so far, and painted if a mask is wanted. */
  ghost predicate Tally(mask: seq<bool>, wantMask: bool, img: Image, done: set<(int, int)>, count: nat) {
    count == |done| && (wantMask ==> Painted(mask, img.w, img.h, done))
  }

  /** The inner loop. */
  method CompareRow(fuzz: real, img1: Image, img2: Image, y: int, cells: array<bool>, wantMask: bool, before: nat) returns (diffCount: nat)
    requires 0 <= y < img1.h && Tally(cells[..], wantMask, img1, Earlier(fuzz, img1, img2, 0, y), before)
    modifies cells
    ensures Tally(cells[..], wantMask, img1, Earlier(fuzz, img1, img2, 0, y + 1), diffCount)
  {
    diffCount := before;
    for x := 0 to img1.w
      invariant Tally(cells[..], wantMask, img1, Earlier(fuzz, img1, img2, x, y), diffCount)
    {
      EarlierStep(fuzz, img1, img2, x, y);
      var flagged := IsFlagged(fuzz, img1, img2, x, y);
      if !flagged {
        continue;
      }
      if wantMask {
        Paint(cells, img1.w, img1.h, Earlier(fuzz, img1, img2, x, y), x, y);
      }
      diffCount := diffCount + 1;
    }
    EarlierRow(fuzz, img1, img2, y);
  }

  function Area(img: Image): nat {
    img.w * img.h
  }

  method IsFlagged(fuzz: real, img1: Image, img2: Image, x: int, y: int) returns (r: bool)
    requires img1.Contains(x, y)
    ensures r == Flagged(fuzz, img1, img2, x, y)
  {
    if !PixelDiffers(fuzz, img1, img2, x, y) {
      return false;
    }
    var antialiased := IsAntialiased(fuzz, img1, img2, x, y);
    return !antialiased;
  }

  method Paint(cells: array<bool>, w: nat, h: nat, ghost done: set<(int, int)>, x: int, y: int)
    requires Painted(cells[..], w, h, done) && 0 <= x < w && 0 <= y < h && (x, y) !in done
    modifies cells
    ensures Painted(cells[..], w, h, done + {(x, y)})
  {
    PaintOne(cells[..], w, h, done, x, y);
    cells[y * w + x] := true;
  }

  /** The flagged pixels that the loops reach before (x, y). */
  ghost function Earlier(fuzz: real, img1: Image, img2: Image, x: int, y: int): set<(int, int)> {
    set u, v | 0 <= u < img1.w && 0 <= v < img1.h && Flagged(fuzz, img1, img2, u, v) && (v < y || (v == y && u < x)) :: (u, v)
  }

  lemma EarlierStep(fuzz: real, img1: Image, img2: Image, x: int, y: int)
    requires img1.Contains(x, y)
    ensures (x, y) !in Earlier(fuzz, img1, img2, x, y)
    ensures Earlier(fuzz, img1, img2, x + 1, y) == Earlier(fuzz, img1, img2, x, y) + if Flagged(fuzz, img1, img2, x, y) then {(x, y)} else {}
  {
  }

  lemma EarlierRow(fuzz: real, img1: Image, img2: Image, y: int)
    ensures Earlier(fuzz, img1, img2, img1.w, y) == Earlier(fuzz, img1, img2, 0, y + 1)
  {
  }

  // ----- algebra --------------------------------------------------------------

  /** The order of the two images does not matter. */
  lemma Symmetric(fuzz: real, img1: Image, img2: Image)
    requires SameSize(img1, img2)
    ensures FlaggedSet(fuzz, img1, img2) == FlaggedSet(fuzz, img2, img1)
  {
    forall x, y ensures Flagged(fuzz, img1, img2, x, y) == Flagged(fuzz, img2, img1, x, y) {
      forall nx, ny ensures ShiftedTo(fuzz, img1, img2, x, y, nx, ny) == ShiftedTo(fuzz, img2, img1, x, y, nx, ny) {
      }
    }
  }

  /** More fuzz never flags more. */
  lemma Monotone(small: real, large: real, img1: Image, img2: Image)
    requires small <= large
    ensures FlaggedSet(large, img1, img2) <= FlaggedSet(small, img1, img2)
    ensures |FlaggedSet(large, img1, img2)| <= |FlaggedSet(small, img1, img2)|
  {
    forall x, y | Flagged(large, img1, img2, x, y) ensures Flagged(small, img1, img2, x, y) {
      forall nx, ny | ShiftedTo(small, img1, img2, x, y, nx, ny) ensures ShiftedTo(large, img1, img2, x, y, nx, ny) {
      }
    }
    var a, b := FlaggedSet(large, img1, img2), FlaggedSet(small, img1, img2);
    assert b == a + (b - a);
  }

  /** Some channel is off by more than `fuzz`, one way or the other. */
  predicate Apart(fuzz: real, p: Color, q: Color) {
    || p.r as real > q.r as real + fuzz || q.r as real > p.r as real + fuzz
    || p.g as real > q.g as real + fuzz || q.g as real > p.g as real + fuzz
    || p.b as real > q.b as real + fuzz || q.b as real > p.b as real + fuzz
    || p.a as real > q.a as real + fuzz || q.a as real > p.a as real + fuzz
  }

  lemma ApartIs(fuzz: real, p: Color, q: Color)
    ensures Apart(fuzz, p, q) <==> !Matches(fuzz, p, q)
  {
  }

  /** The colour of either image at (x, y) is apart from that of the other at this
      neighbour, if there is one. */
  predicate Unlike(fuzz: real, img1: Image, img2: Image, x: int, y: int, nx: int, ny: int) {
    img1.Contains(nx, ny) && (nx != x || ny != y) ==>
      Apart(fuzz, img1.At(nx, ny), img2.At(x, y)) && Apart(fuzz, img2.At(nx, ny), img1.At(x, y))
  }

  /** Exactly what is flagged: a pixel whose colours are apart from each other and
      from those of all neighbours in the other image. */
  lemma FlaggedIff(fuzz: real, img1: Image, img2: Image, x: int, y: int)
    ensures (x, y) in FlaggedSet(fuzz, img1, img2) <==>
              && img1.Contains(x, y) && Apart(fuzz, img1.At(x, y), img2.At(x, y))
              && forall nx, ny :: x - 1 <= nx <= x + 1 && y - 1 <= ny <= y + 1 ==> Unlike(fuzz, img1, img2, x, y, nx, ny)
  {
    ApartIs(fuzz, img1.At(x, y), img2.At(x, y));
    forall nx, ny ensures Unlike(fuzz, img1, img2, x, y, nx, ny) <==> !ShiftedTo(fuzz, img1, img2, x, y, nx, ny) {
      ApartIs(fuzz, img1.At(nx, ny), img2.At(x, y));
      ApartIs(fuzz, img2.At(nx, ny), img1.At(x, y));
    }
  }

  /** All of the neighbourhood that is in the picture is in the region. */
  ghost predicate Inside(img: Image, region: (int, int) -> bool, x: int, y: int) {
    forall nx, ny :: x - 1 <= nx <= x + 1 && y - 1 <= ny <= y + 1 && img.Contains(nx, ny) ==> region(nx, ny)
  }

  /** On a plain background a region painted in a colour that is apart is flagged
      except for its rim. */
  lemma RepaintFlagsInterior(fuzz: real, img1: Image, img2: Image, p: Color, q: Color, region: (int, int) -> bool)
    requires fuzz >= 0.0 && SameSize(img1, img2) && Apart(fuzz, p, q)
    requires forall x, y :: img1.Contains(x, y) ==> img1.At(x, y) == p && img2.At(x, y) == if region(x, y) then q else p
    ensures forall x, y :: (x, y) in FlaggedSet(fuzz, img1, img2) <==> img1.Contains(x, y) && Inside(img1, region, x, y)
  {
    forall x, y ensures (x, y) in FlaggedSet(fuzz, img1, img2) <==> img1.Contains(x, y) && Inside(img1, region, x, y) {
      FlaggedIff(fuzz, img1, img2, x, y);
      if img1.Contains(x, y) && region(x, y) {
        forall nx, ny ensures Unlike(fuzz, img1, img2, x, y, nx, ny) <==> (img1.Contains(nx, ny) ==> region(nx, ny)) {
        }
      }
    }
  }

  /** `img2` is `img1` moved by (sx, sy); what moves in at the edge is arbitrary. */
  ghost predicate Moved(img1: Image, img2: Image, sx: int, sy: int) {
    && SameSize(img1, img2)
    && forall x, y :: img1.Contains(x, y) && img1.Contains(x - sx, y - sy) ==> img2.At(x, y) == img1.At(x - sx, y - sy)
  }

  /** A move by one pixel along one axis is not a change. */
  lemma ShiftTolerated(fuzz: real, img1: Image, img2: Image, sx: int, sy: int)
    requires fuzz >= 0.0 && Moved(img1, img2, sx, sy)
    requires (sx == 0 && sy in {-1, 1} && img1.h >= 2) || (sy == 0 && sx in {-1, 1} && img1.w >= 2)
    ensures FlaggedSet(fuzz, img1, img2) == {}
  {
    forall x, y | img1.Contains(x, y) ensures !Flagged(fuzz, img1, img2, x, y) {
      if img1.Contains(x - sx, y - sy) {
        assert ShiftedTo(fuzz, img1, img2, x, y, x - sx, y - sy);
      } else {
        assert img1.Contains(x + sx, y + sy);
        assert img2.At(x + sx, y + sy) == img1.At(x + sx - sx, y + sy - sy);
        assert ShiftedTo(fuzz, img1, img2, x, y, x + sx, y + sy);
      }
    }
  }

  /** A move along a diagonal is tolerated except in two corners. */
  lemma DiagonalShift(fuzz: real, img1: Image, img2: Image, sx: int, sy: int)
    requires fuzz >= 0.0 && Moved(img1, img2, sx, sy) && sx in {-1, 1} && sy in {-1, 1}
    requires img1.w >= 2 && img1.h >= 2
    ensures forall x, y :: (x, y) in FlaggedSet(fuzz, img1, img2) ==>
              (x, y) == (if sx > 0 then 0 else img1.w - 1, if sy > 0 then img1.h - 1 else 0)
              || (x, y) == (if sx > 0 then img1.w - 1 else 0, if sy > 0 then 0 else img1.h - 1)
  {
    forall x, y | (x, y) in FlaggedSet(fuzz, img1, img2) ensures !img1.Contains(x - sx, y - sy) && !img1.Contains(x + sx, y + sy) {
      if img1.Contains(x - sx, y - sy) {
        assert ShiftedTo(fuzz, img1, img2, x, y, x - sx, y - sy);
      }
      if img1.Contains(x + sx, y + sy) {
        assert img2.At(x + sx, y + sy) == img1.At(x + sx - sx, y + sy - sy);
        assert ShiftedTo(fuzz, img1, img2, x, y, x + sx, y + sy);
      }
    }
  }
}
