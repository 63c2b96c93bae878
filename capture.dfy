/**
 * Framebuffer readback handling of ytOpenSpace.py.
 *
 * A readback is the flat buffer that glReadPixels returns for the whole
 * window, with the GPU's 32-bit floats taken as exact reals.  getPixelData
 * rescales it linearly to [0, 1] using that frame's own minimum and maximum;
 * the main loop and the snapshot writers then reshape it into rows, and the
 * snapshot writers scale it to 0..255.
 */
module PixelCapture {

  /** The smallest value of a readback (numpy's `min()` over the buffer). */
  function SeqMin(s: seq<real>): (m: real)
    requires |s| > 0
    ensures forall k :: 0 <= k < |s| ==> m <= s[k]
  {
    if |s| == 1 then s[0]
    else
      var rest := SeqMin(s[1..]);
      if s[0] <= rest then s[0] else rest
  }

  /** The largest value of a readback (numpy's `max()` over the buffer). */
  function SeqMax(s: seq<real>): (m: real)
    requires |s| > 0
    ensures forall k :: 0 <= k < |s| ==> s[k] <= m
  {
    if |s| == 1 then s[0]
    else
      var rest := SeqMax(s[1..]);
      if rest <= s[0] then s[0] else rest
  }

  /** The minimum is one of the readback's values. */
  lemma {:induction false} SeqMinAttained(s: seq<real>)
    requires |s| > 0
    ensures SeqMin(s) in s
  {
    if |s| > 1 {
      SeqMinAttained(s[1..]);
      assert SeqMin(s[1..]) in s[1..];
      assert s == [s[0]] + s[1..];
    }
  }

  /** The maximum is one of the readback's values. */
  lemma {:induction false} SeqMaxAttained(s: seq<real>)
    requires |s| > 0
    ensures SeqMax(s) in s
  {
    if |s| > 1 {
      SeqMaxAttained(s[1..]);
      assert SeqMax(s[1..]) in s[1..];
      assert s == [s[0]] + s[1..];
    }
  }

  /** A frame whose readback holds at least two different values. */
  predicate NonUniform(s: seq<real>)
  {
    |s| > 0 && SeqMin(s) < SeqMax(s)
  }

  /**
   * getPixelData: `(x - min) / (max - min)` for every element of the
   * readback, with the frame's own minimum and maximum.
   */
  function Normalize(s: seq<real>): (r: seq<real>)
    ensures |r| == |s|
  {
    if |s| == 0 then [] else RescaleAll(s, SeqMin(s), SeqMax(s))
  }

  /** The rescaling of every element against a given range [lo, hi]. */
  function RescaleAll(s: seq<real>, lo: real, hi: real): (r: seq<real>)
    ensures |r| == |s|
  {
    seq(|s|, k requires 0 <= k < |s| => Rescale(s[k], lo, hi))
  }

  /**
   * One element of the rescaling.  On a uniform frame (lo == hi) the source
   * divides 0 by 0; this model sends the element to 0 instead.
   */
  function Rescale(x: real, lo: real, hi: real): (r: real)
    ensures lo <= x <= hi ==> 0.0 <= r <= 1.0 && lo + r * (hi - lo) == x
    ensures lo < hi ==> (x == lo ==> r == 0.0) && (x == hi ==> r == 1.0)
    ensures lo == hi ==> r == 0.0
  {
    if lo == hi then 0.0
    else
      var d := hi - lo;
      var q := (x - lo) / d;
      assert q * d == x - lo;
      assert d / d == 1.0;
      assert lo <= x <= hi ==> (x - lo) / d <= d / d;
      q
  }

  /** The inverse rescaling: back from [0, 1] to the range [lo, hi]. */
  function Denormalize(r: seq<real>, lo: real, hi: real): (s: seq<real>)
    ensures |s| == |r|
  {
    seq(|r|, k requires 0 <= k < |r| => Unscale(r[k], lo, hi))
  }

  function Unscale(v: real, lo: real, hi: real): real
  {
    lo + v * (hi - lo)
  }

  /** Every element of a readback lies between the frame's minimum and maximum. */
  ghost predicate Within(s: seq<real>, lo: real, hi: real)
  {
    forall k :: 0 <= k < |s| ==> lo <= s[k] <= hi
  }

  lemma RescaleAllInUnitInterval(s: seq<real>, lo: real, hi: real)
    requires Within(s, lo, hi)
    ensures forall k :: 0 <= k < |s| ==> 0.0 <= RescaleAll(s, lo, hi)[k] <= 1.0
  {
    forall k | 0 <= k < |s| ensures 0.0 <= RescaleAll(s, lo, hi)[k] <= 1.0 {
      assert lo <= s[k] <= hi;
    }
  }

  lemma RescaleAllEndpoints(s: seq<real>, lo: real, hi: real)
    requires lo < hi
    ensures forall k :: 0 <= k < |s| && s[k] == lo ==> RescaleAll(s, lo, hi)[k] == 0.0
    ensures forall k :: 0 <= k < |s| && s[k] == hi ==> RescaleAll(s, lo, hi)[k] == 1.0
  {
  }

  lemma RescaleNonPositive(x: real, lo: real, hi: real)
    requires lo <= x && lo < hi
    ensures Rescale(x, lo, hi) <= 0.0 <==> x == lo
  {
    var r, d := Rescale(x, lo, hi), hi - lo;
    if r <= 0.0 {
      assert r * d <= 0.0;
    }
  }

  lemma RescaleAllNonPositive(s: seq<real>, lo: real, hi: real, k: int)
    requires Within(s, lo, hi) && lo < hi && 0 <= k < |s|
    ensures RescaleAll(s, lo, hi)[k] <= 0.0 <==> s[k] == lo
  {
    RescaleNonPositive(s[k], lo, hi);
  }

  lemma RescaleAllOrder(s: seq<real>, lo: real, hi: real, i: int, j: int)
    requires 0 <= i < |s| && 0 <= j < |s|
    ensures lo == hi ==> RescaleAll(s, lo, hi)[i] == RescaleAll(s, lo, hi)[j]
    ensures lo < hi ==> (s[i] <= s[j] <==> RescaleAll(s, lo, hi)[i] <= RescaleAll(s, lo, hi)[j])
  {
    if lo < hi {
      var p, q := RescaleAll(s, lo, hi)[i], RescaleAll(s, lo, hi)[j];
      var d := hi - lo;
      assert p == (s[i] - lo) / d && q == (s[j] - lo) / d;
      if s[i] <= s[j] {
        assert q - p == (s[j] - s[i]) / d;
      } else {
        assert p - q == (s[i] - s[j]) / d;
      }
    }
  }

  lemma DenormalizeRescaleAll(s: seq<real>, lo: real, hi: real)
    requires Within(s, lo, hi)
    ensures Denormalize(RescaleAll(s, lo, hi), lo, hi) == s
  {
    var back := Denormalize(RescaleAll(s, lo, hi), lo, hi);
    forall k | 0 <= k < |s| ensures back[k] == s[k] {
      assert lo <= s[k] <= hi;
    }
  }

  lemma WithinMinMax(s: seq<real>)
    requires |s| > 0
    ensures Within(s, SeqMin(s), SeqMax(s))
  {
  }

  /** Every normalised value lies in [0, 1]. */
  lemma NormalizeInUnitInterval(s: seq<real>)
    ensures forall k :: 0 <= k < |s| ==> 0.0 <= Normalize(s)[k] <= 1.0
  {
    if |s| > 0 {
      WithinMinMax(s);
      RescaleAllInUnitInterval(s, SeqMin(s), SeqMax(s));
    }
  }

  /**
   * On a non-uniform frame the pixels holding the minimum become exactly 0
   * and those holding the maximum exactly 1, so both 0 and 1 occur.
   */
  lemma NormalizeEndpoints(s: seq<real>)
    requires NonUniform(s)
    ensures forall k :: 0 <= k < |s| && s[k] == SeqMin(s) ==> Normalize(s)[k] == 0.0
    ensures forall k :: 0 <= k < |s| && s[k] == SeqMax(s) ==> Normalize(s)[k] == 1.0
    ensures 0.0 in Normalize(s) && 1.0 in Normalize(s)
  {
    var lo, hi := SeqMin(s), SeqMax(s);
    var r := RescaleAll(s, lo, hi);
    RescaleAllEndpoints(s, lo, hi);
    SeqMinAttained(s);
    SeqMaxAttained(s);
    var i :| 0 <= i < |s| && s[i] == lo;
    var j :| 0 <= j < |s| && s[j] == hi;
    assert r[i] == 0.0 && r[j] == 1.0;
  }

  /**
   * On a non-uniform frame a value normalises to 0 or below exactly when it
   * is the frame's minimum.
   */
  lemma NormalizeZero(s: seq<real>, k: int)
    requires NonUniform(s) && 0 <= k < |s|
    ensures Normalize(s)[k] <= 0.0 <==> s[k] == SeqMin(s)
  {
    WithinMinMax(s);
    RescaleAllNonPositive(s, SeqMin(s), SeqMax(s), k);
  }

  /**
   * Normalisation keeps the order of the readback: on a non-uniform frame
   * s[i] <= s[j] exactly when the normalised values compare the same way,
   * and on a uniform frame all normalised values are equal.
   */
  lemma NormalizeMonotone(s: seq<real>, i: int, j: int)
    requires 0 <= i < |s| && 0 <= j < |s|
    ensures s[i] <= s[j] ==> Normalize(s)[i] <= Normalize(s)[j]
    ensures NonUniform(s) ==> (s[i] <= s[j] <==> Normalize(s)[i] <= Normalize(s)[j])
  {
    RescaleAllOrder(s, SeqMin(s), SeqMax(s), i, j);
  }

  /**
   * Round trip: the frame's own minimum and maximum bring the normalised
   * buffer back to the readback, uniform frames included.
   */
  lemma DenormalizeNormalize(s: seq<real>)
    requires |s| > 0
    ensures Denormalize(Normalize(s), SeqMin(s), SeqMax(s)) == s
  {
    WithinMinMax(s);
    DenormalizeRescaleAll(s, SeqMin(s), SeqMax(s));
  }

  // ---------------------------------------------------------------------
  // numpy `reshape` of a flat buffer into rows (row-major)
  // ---------------------------------------------------------------------

  /**
   * `flat.reshape(rows, cols)`: consecutive runs of `cols` elements become
   * the rows.
   */
  function Reshape2<T>(flat: seq<T>, rows: nat, cols: nat): (g: seq<seq<T>>)
    requires |flat| == rows * cols
    ensures |g| == rows
    decreases rows
  {
    if rows == 0 then []
    else
      assert |flat[cols..]| == (rows - 1) * cols;
      [flat[..cols]] + Reshape2(flat[cols..], rows - 1, cols)
  }

  /** Every row of `flat.reshape(rows, cols)` has `cols` elements. */
  lemma {:induction false} Reshape2Shape<T>(flat: seq<T>, rows: nat, cols: nat)
    requires |flat| == rows * cols
    ensures forall i :: 0 <= i < rows ==> |Reshape2(flat, rows, cols)[i]| == cols
    decreases rows
  {
    if rows > 0 {
      var rest := flat[cols..];
      assert |rest| == (rows - 1) * cols;
      Reshape2Shape(rest, rows - 1, cols);
      var g := Reshape2(flat, rows, cols);
      forall i | 0 <= i < rows
        ensures |g[i]| == cols
      {
        if i > 0 {
          assert g[i] == Reshape2(rest, rows - 1, cols)[i - 1];
        }
      }
    }
  }

  /** Every cell of `flat.reshape(rows, cols)` is an element of the flat buffer. */
  lemma {:induction false} Reshape2Members<T>(flat: seq<T>, rows: nat, cols: nat)
    requires |flat| == rows * cols
    ensures forall i :: 0 <= i < rows ==> |Reshape2(flat, rows, cols)[i]| == cols
    ensures forall i, j :: 0 <= i < rows && 0 <= j < cols ==> Reshape2(flat, rows, cols)[i][j] in flat
    decreases rows
  {
    Reshape2Shape(flat, rows, cols);
    if rows > 0 {
      var rest := flat[cols..];
      assert |rest| == (rows - 1) * cols;
      Reshape2Members(rest, rows - 1, cols);
      var g := Reshape2(flat, rows, cols);
      forall i, j | 0 <= i < rows && 0 <= j < cols
        ensures g[i][j] in flat
      {
        if i == 0 {
          assert g[0][j] == flat[j];
        } else {
          assert g[i] == Reshape2(rest, rows - 1, cols)[i - 1];
          assert g[i][j] in rest;
        }
      }
    }
  }

  /** One more row of `b` elements: (a + 1) * b == a * b + b, and neither is negative. */
  lemma MulSucc(a: nat, b: nat)
    ensures a * b >= 0 && (a + 1) * b == a * b + b
  {
  }

  /** Row-major layout: cell (i, j) of `flat.reshape(rows, cols)` is flat[i * cols + j]. */
  lemma Reshape2At<T>(flat: seq<T>, rows: nat, cols: nat, i: nat, j: nat)
    requires |flat| == rows * cols && i < rows && j < cols
    ensures |Reshape2(flat, rows, cols)[i]| == cols
    ensures i * cols + j < |flat| && Reshape2(flat, rows, cols)[i][j] == flat[i * cols + j]
  {
    Reshape2Cell(flat, rows, cols, i, j, i * cols);
  }

  /** Reshape2At with the row offset `off` = i * cols named, so that each step is linear. */
  lemma {:induction false} Reshape2Cell<T>(flat: seq<T>, rows: nat, cols: nat, i: nat, j: nat, off: int)
    requires |flat| == rows * cols && i < rows && j < cols && off == i * cols
    ensures |Reshape2(flat, rows, cols)[i]| == cols
    ensures 0 <= off && off + j < |flat| && Reshape2(flat, rows, cols)[i][j] == flat[off + j]
    decreases i
  {
    Reshape2Shape(flat, rows, cols);
    MulSucc(rows - 1, cols);
    var rest := flat[cols..];
    if i == 0 {
      assert Reshape2(flat, rows, cols)[0] == flat[..cols];
    } else {
      MulSucc(i - 1, cols);
      Reshape2Cell(rest, rows - 1, cols, i - 1, j, off - cols);
      assert Reshape2(flat, rows, cols)[i] == Reshape2(rest, rows - 1, cols)[i - 1];
      assert rest[off - cols + j] == flat[off + j];
    }
  }

  /**
   * `flat.reshape(rows, cols, depth)`: runs of `depth` elements become the
   * pixels, and runs of `cols` pixels the rows.
   */
  function Reshape3<T>(flat: seq<T>, rows: nat, cols: nat, depth: nat): (g: seq<seq<seq<T>>>)
    requires |flat| == rows * cols * depth
    ensures |g| == rows
  {
    Reshape2(Reshape2(flat, rows * cols, depth), rows, cols)
  }

  /** `flat.reshape(rows, cols, depth)` has `cols` pixels per row and `depth` values per pixel. */
  lemma Reshape3Shape<T>(flat: seq<T>, rows: nat, cols: nat, depth: nat)
    requires |flat| == rows * cols * depth
    ensures forall i :: 0 <= i < rows ==> |Reshape3(flat, rows, cols, depth)[i]| == cols
    ensures forall i, j :: 0 <= i < rows && 0 <= j < cols ==> |Reshape3(flat, rows, cols, depth)[i][j]| == depth
  {
    var pixels := Reshape2(flat, rows * cols, depth);
    Reshape2Shape(flat, rows * cols, depth);
    Reshape2Members(pixels, rows, cols);
    assert forall p :: p in pixels ==> |p| == depth;
  }

  /** Pixel (i, j) of `flat.reshape(rows, cols, depth)` is pixel i * cols + j of the flat pixel list. */
  lemma Reshape3Pixel<T>(flat: seq<T>, rows: nat, cols: nat, depth: nat, i: nat, j: nat)
    requires |flat| == rows * cols * depth && i < rows && j < cols
    ensures |Reshape3(flat, rows, cols, depth)[i]| == cols
    ensures i * cols + j < rows * cols &&
      Reshape3(flat, rows, cols, depth)[i][j] == Reshape2(flat, rows * cols, depth)[i * cols + j]
  {
    Reshape2At(Reshape2(flat, rows * cols, depth), rows, cols, i, j);
  }

  /**
   * Element (i, j, c) of `flat.reshape(rows, cols, depth)` is element c of
   * flat pixel p = i * cols + j, that is flat[p * depth + c].
   */
  lemma Reshape3At<T>(flat: seq<T>, rows: nat, cols: nat, depth: nat, i: nat, j: nat, c: nat, p: nat)
    requires |flat| == rows * cols * depth && i < rows && j < cols && c < depth
    requires p == i * cols + j
    ensures |Reshape3(flat, rows, cols, depth)[i]| == cols && |Reshape3(flat, rows, cols, depth)[i][j]| == depth
    ensures p * depth + c < |flat| && Reshape3(flat, rows, cols, depth)[i][j][c] == flat[p * depth + c]
  {
    Reshape3Pixel(flat, rows, cols, depth, i, j);
    Reshape2At(flat, rows * cols, depth, p, c);
  }

  // ---------------------------------------------------------------------
  // saveImageColor / saveImageDepth: `(array * 255).astype(np.uint8)`
  // ---------------------------------------------------------------------

  /** One normalised value scaled to 0..255 and truncated to an unsigned byte. */
  function ToByte(v: real): (b: int)
    requires 0.0 <= v <= 1.0
    ensures 0 <= b <= 255
    ensures b as real <= v * 255.0 < b as real + 1.0
  {
    (v * 255.0).Floor
  }

  /** Normalised readback scaled to bytes, in readback order. */
  function SnapshotBytes(readback: seq<real>): (img: seq<int>)
    ensures |img| == |readback|
    ensures forall k :: 0 <= k < |img| ==> 0 <= img[k] <= 255
  {
    NormalizeInUnitInterval(readback);
    var n := Normalize(readback);
    seq(|n|, k requires 0 <= k < |n| => ToByte(n[k]))
  }

  /**
   * On a non-uniform frame the darkest pixel is written as byte 0, the
   * brightest as byte 255, and the byte image keeps the readback's order.
   */
  lemma SnapshotBytesRange(s: seq<real>, i: int, j: int)
    requires NonUniform(s)
    requires 0 <= i < |s| && 0 <= j < |s|
    ensures s[i] == SeqMin(s) ==> SnapshotBytes(s)[i] == 0
    ensures s[i] == SeqMax(s) ==> SnapshotBytes(s)[i] == 255
    ensures s[i] <= s[j] ==> SnapshotBytes(s)[i] <= SnapshotBytes(s)[j]
  {
    NormalizeEndpoints(s);
    NormalizeMonotone(s, i, j);
    NormalizeInUnitInterval(s);
    var a, b := Normalize(s)[i], Normalize(s)[j];
    if a <= b {
      assert a * 255.0 <= b * 255.0;
    }
  }

  /** saveImageDepth: the byte image reshaped to (height, width). */
  function DepthImage(readback: seq<real>, width: nat, height: nat): (img: seq<seq<int>>)
    requires |readback| == height * width
    ensures |img| == height
    ensures forall i, j :: 0 <= i < height && 0 <= j < width ==>
      |img[i]| == width && 0 <= img[i][j] <= 255
  {
    var bytes := SnapshotBytes(readback);
    Reshape2Members(bytes, height, width);
    Reshape2(bytes, height, width)
  }

  /** saveImageColor: the byte image reshaped to (height, width, 4). */
  function ColorImage(readback: seq<real>, width: nat, height: nat): (img: seq<seq<seq<int>>>)
    requires |readback| == height * width * 4
    ensures |img| == height
    ensures forall i :: 0 <= i < height ==> |img[i]| == width
    ensures forall i, j :: 0 <= i < height && 0 <= j < width ==> |img[i][j]| == 4
    ensures forall i, j, c :: 0 <= i < height && 0 <= j < width && 0 <= c < 4 ==> 0 <= img[i][j][c] <= 255
  {
    var bytes := SnapshotBytes(readback);
    var pixels := Reshape2(bytes, height * width, 4);
    Reshape2Members(bytes, height * width, 4);
    Reshape2Members(pixels, height, width);
    Reshape2Shape(bytes, height * width, 4);
    assert forall p :: p in pixels ==> |p| == 4 && forall c :: 0 <= c < 4 ==> 0 <= p[c] <= 255;
    Reshape3(bytes, height, width, 4)
  }

  /** Pixel (i, j) of saveImageDepth's array is the byte of the normalised readback at i * width + j. */
  lemma DepthImageAt(readback: seq<real>, width: nat, height: nat, i: nat, j: nat)
    requires |readback| == height * width && i < height && j < width
    ensures i * width + j < |readback| && 0.0 <= Normalize(readback)[i * width + j] <= 1.0
    ensures |DepthImage(readback, width, height)[i]| == width
    ensures DepthImage(readback, width, height)[i][j] == ToByte(Normalize(readback)[i * width + j])
  {
    NormalizeInUnitInterval(readback);
    Reshape2At(SnapshotBytes(readback), height, width, i, j);
  }

  /** Channel c of pixel (i, j) of saveImageColor's array is the byte of the normalised readback at (i * width + j) * 4 + c. */
  lemma ColorImageAt(readback: seq<real>, width: nat, height: nat, i: nat, j: nat, c: nat)
    requires |readback| == height * width * 4 && i < height && j < width && c < 4
    ensures |ColorImage(readback, width, height)[i]| == width && |ColorImage(readback, width, height)[i][j]| == 4
    ensures (i * width + j) * 4 + c < |readback| && 0.0 <= Normalize(readback)[(i * width + j) * 4 + c] <= 1.0
    ensures ColorImage(readback, width, height)[i][j][c] == ToByte(Normalize(readback)[(i * width + j) * 4 + c])
  {
    NormalizeInUnitInterval(readback);
    Reshape3At(SnapshotBytes(readback), height, width, 4, i, j, c, i * width + j);
  }
}
