/**
  The per-class metric kernels of `utils_metrics.py`: class-wise Dice overlap,
  class-wise HD95 surface distance and class-wise mean displacement, each followed
  by a trailing NaN-ignoring mean over the per-class entries.

  Label volumes are flattened to `seq<int>` (the source flattens or squeezes them;
  the geometry the HD95 primitive needs is left to that primitive). A score is an
  `Option<real>` whose `None` stands for NaN.
*/
module MetricKernels {
  import opened Wrappers

  /** One metric entry; `None` is NaN. */
  type Score = Option<real>

  /** Physical voxel size per axis, handed through to the surface-distance primitive. */
  datatype Spacing = Spacing(x: real, y: real, z: real)

  /** One voxel of a deformation field: its (x, y, z) displacement components. */
  datatype Vec3 = Vec3(dx: real, dy: real, dz: real)

  /** The external 95th-percentile Hausdorff distance of `compute_surface_distances` and
      `compute_robust_hausdorff`, applied to (ground-truth mask, predicted mask, spacing). */
  type Hd95Primitive = (seq<bool>, seq<bool>, Spacing) -> Score

  /** `np.sqrt`, applied here only to sums of squares; its value is left uninterpreted. */
  type SquareRoot = real -> real

  // ---------------------------------------------------------------------------
  // Masks and voxel counts

  /** The binary mask `volume == classLabel`. */
  function Mask(volume: seq<int>, classLabel: int): seq<bool>
  {
    seq(|volume|, i requires 0 <= i < |volume| => volume[i] == classLabel)
  }

  /** Number of set voxels of a mask (`np.count_nonzero`). */
  function Count(m: seq<bool>): nat
  {
    if |m| == 0 then 0 else Count(m[..|m| - 1]) + (if m[|m| - 1] then 1 else 0)
  }

  /** Number of voxels set in both masks, `|A ∩ B|`. */
  function Overlap(a: seq<bool>, b: seq<bool>): nat
    requires |a| == |b|
  {
    if |a| == 0 then 0
    else Overlap(a[..|a| - 1], b[..|b| - 1]) + (if a[|a| - 1] && b[|b| - 1] then 1 else 0)
  }

  lemma {:induction false} CountZero(m: seq<bool>)
    ensures Count(m) == 0 <==> true !in m
  {
    if |m| > 0 {
      CountZero(m[..|m| - 1]);
      assert m == m[..|m| - 1] + [m[|m| - 1]];
    }
  }

  lemma {:induction false} OverlapBounds(a: seq<bool>, b: seq<bool>)
    requires |a| == |b|
    ensures Overlap(a, b) <= Count(a) && Overlap(a, b) <= Count(b)
  {
    if |a| > 0 {
      OverlapBounds(a[..|a| - 1], b[..|b| - 1]);
    }
  }

  lemma {:induction false} OverlapSelf(a: seq<bool>)
    ensures Overlap(a, a) == Count(a)
  {
    if |a| > 0 {
      OverlapSelf(a[..|a| - 1]);
    }
  }

  /** Full overlap on both sides means the two masks are the same mask. */
  lemma {:induction false} OverlapFull(a: seq<bool>, b: seq<bool>)
    requires |a| == |b|
    requires Overlap(a, b) == Count(a) == Count(b)
    ensures a == b
  {
    if |a| > 0 {
      var a', b' := a[..|a| - 1], b[..|b| - 1];
      OverlapBounds(a', b');
      OverlapFull(a', b');
      assert a == a' + [a[|a| - 1]] && b == b' + [b[|b| - 1]];
    }
  }

  lemma MaskAny(volume: seq<int>, classLabel: int)
    ensures true in Mask(volume, classLabel) <==> classLabel in volume
  {
    var m := Mask(volume, classLabel);
    if classLabel in volume {
      var i :| 0 <= i < |volume| && volume[i] == classLabel;
      assert m[i];
    }
  }

  lemma MaskCount(volume: seq<int>, classLabel: int)
    ensures Count(Mask(volume, classLabel)) == 0 <==> classLabel !in volume
  {
    var m := Mask(volume, classLabel);
    CountZero(m);
    if classLabel in volume {
      var i :| 0 <= i < |volume| && volume[i] == classLabel;
      assert m[i];
    }
  }

  // ---------------------------------------------------------------------------
  // Dice

  /** The Dice coefficient `2|A∩B| / (|A|+|B|)` of medpy's `binary.dc(result, reference)`,
      which is 0 when both masks are empty. */
  function Dc(result: seq<bool>, reference: seq<bool>): real
    requires |result| == |reference|
  {
    var total := Count(result) + Count(reference);
    if total == 0 then 0.0 else 2.0 * Overlap(result, reference) as real / total as real
  }

  /** Dice of one class as `calculate_dice` records it: NaN when the class is absent
      from the ground truth, otherwise the Dice of the prediction mask against the
      ground-truth mask. */
  function ClassDice(groundTruth: seq<int>, pred: seq<int>, classLabel: int): Score
    requires |groundTruth| == |pred|
  {
    if classLabel in groundTruth then Some(Dc(Mask(pred, classLabel), Mask(groundTruth, classLabel))) else None
  }

  lemma DcBounds(result: seq<bool>, reference: seq<bool>)
    requires |result| == |reference|
    ensures 0.0 <= Dc(result, reference) <= 1.0
    ensures Dc(result, reference) == 0.0 <==> Overlap(result, reference) == 0
  {
    OverlapBounds(result, reference);
    var total := Count(result) + Count(reference);
    if total > 0 {
      Ratio(2.0 * Overlap(result, reference) as real, total as real);
    }
  }

  /** Bounds of a ratio `a / b` with `0 <= a <= b`. */
  lemma Ratio(a: real, b: real)
    requires 0.0 <= a <= b && b > 0.0
    ensures 0.0 <= a / b <= 1.0
    ensures a / b == 0.0 <==> a == 0.0
    ensures a / b == 1.0 <==> a == b
  {
    var q := a / b;
    assert q * b == a;
    if q < 0.0 { Product(-q, b); }
    if q > 1.0 { Product(q - 1.0, b); }
  }

  lemma Product(x: real, y: real)
    requires x > 0.0 && y > 0.0
    ensures x * y > 0.0
  {
  }

  /** With a non-empty reference mask, Dice is exactly 1 when and only when the masks agree. */
  lemma DcOne(result: seq<bool>, reference: seq<bool>)
    requires |result| == |reference| && Count(reference) > 0
    ensures Dc(result, reference) == 1.0 <==> result == reference
  {
    var o, p, q := Overlap(result, reference), Count(result), Count(reference);
    OverlapBounds(result, reference);
    Ratio(2.0 * o as real, (p + q) as real);
    assert Dc(result, reference) == 2.0 * o as real / (p + q) as real;
    if result == reference {
      OverlapSelf(result);
    }
    if Dc(result, reference) == 1.0 {
      assert 2 * o == p + q;
      OverlapFull(result, reference);
    }
  }

  /** A class absent from the ground truth scores NaN, whatever the prediction holds;
      a class present in it always gets a number. */
  lemma ClassDiceNaN(groundTruth: seq<int>, pred: seq<int>, classLabel: int)
    requires |groundTruth| == |pred|
    ensures ClassDice(groundTruth, pred, classLabel) == None <==> classLabel !in groundTruth
  {
  }

  /** A class present in the ground truth scores in [0, 1]; it scores exactly 0 when
      no voxel carries the class in both volumes (in particular when the prediction
      has no voxel of it), and exactly 1 when both volumes carry it on the same voxels. */
  lemma ClassDiceValue(groundTruth: seq<int>, pred: seq<int>, classLabel: int)
    requires |groundTruth| == |pred| && classLabel in groundTruth
    ensures ClassDice(groundTruth, pred, classLabel).Some?
    ensures 0.0 <= ClassDice(groundTruth, pred, classLabel).value <= 1.0
    ensures ClassDice(groundTruth, pred, classLabel).value == 0.0 <==>
              forall i :: 0 <= i < |groundTruth| && groundTruth[i] == classLabel ==> pred[i] != classLabel
    ensures classLabel !in pred ==> ClassDice(groundTruth, pred, classLabel) == Some(0.0)
    ensures ClassDice(groundTruth, pred, classLabel) == Some(1.0) <==>
              forall i :: 0 <= i < |groundTruth| ==> (groundTruth[i] == classLabel <==> pred[i] == classLabel)
  {
    var g, p := Mask(groundTruth, classLabel), Mask(pred, classLabel);
    DcBounds(p, g);
    MaskCount(groundTruth, classLabel);
    DcOne(p, g);
    OverlapZero(p, g);
    if classLabel !in pred {
      MaskCount(pred, classLabel);
      OverlapBounds(p, g);
    }
    assert (forall i :: 0 <= i < |groundTruth| ==> (groundTruth[i] == classLabel <==> pred[i] == classLabel))
           <==> p == g by {
      if p == g {
        forall i | 0 <= i < |groundTruth| ensures groundTruth[i] == classLabel <==> pred[i] == classLabel {
          assert p[i] == g[i];
        }
      }
    }
    assert forall i :: 0 <= i < |p| ==> p[i] == (pred[i] == classLabel) && g[i] == (groundTruth[i] == classLabel);
    assert (forall i :: 0 <= i < |groundTruth| && groundTruth[i] == classLabel ==> pred[i] != classLabel)
           <==> (forall i :: 0 <= i < |p| ==> !(p[i] && g[i]));
  }

  lemma {:induction false} OverlapZero(a: seq<bool>, b: seq<bool>)
    requires |a| == |b|
    ensures Overlap(a, b) == 0 <==> forall i :: 0 <= i < |a| ==> !(a[i] && b[i])
  {
    if |a| > 0 {
      var n := |a| - 1;
      OverlapZero(a[..n], b[..n]);
      if Overlap(a, b) == 0 {
        forall i | 0 <= i < |a| ensures !(a[i] && b[i]) {
          if i < n { assert a[..n][i] == a[i] && b[..n][i] == b[i]; }
        }
      }
      if forall i :: 0 <= i < |a| ==> !(a[i] && b[i]) {
        forall i | 0 <= i < n ensures !(a[..n][i] && b[..n][i]) {
          assert a[..n][i] == a[i] && b[..n][i] == b[i];
        }
      }
    }
  }

  // ---------------------------------------------------------------------------
  // NaN-ignoring mean

  /** Number of non-NaN entries. */
  function CountValid(xs: seq<Score>): nat
  {
    if |xs| == 0 then 0 else CountValid(xs[..|xs| - 1]) + (if xs[|xs| - 1].Some? then 1 else 0)
  }

  /** Sum of the non-NaN entries. */
  function SumValid(xs: seq<Score>): real
  {
    if |xs| == 0 then 0.0
    else SumValid(xs[..|xs| - 1]) + (if xs[|xs| - 1].Some? then xs[|xs| - 1].value else 0.0)
  }

  /** `np.nanmean`: the mean of the non-NaN entries, NaN when every entry is NaN
      (an empty input included). */
  function NanMean(xs: seq<Score>): Score
  {
    var n := CountValid(xs);
    if n == 0 then None else Some(SumValid(xs) / n as real)
  }

  /** The non-NaN entries in order: a reference reading of "ignores NaN". */
  function Valid(xs: seq<Score>): seq<real>
  {
    if |xs| == 0 then []
    else Valid(xs[..|xs| - 1]) + (if xs[|xs| - 1].Some? then [xs[|xs| - 1].value] else [])
  }

  /** Plain arithmetic sum. */
  function Sum(xs: seq<real>): real
  {
    if |xs| == 0 then 0.0 else Sum(xs[..|xs| - 1]) + xs[|xs| - 1]
  }

  /** The NaN-ignoring mean is the plain mean of the entries left after dropping every NaN. */
  lemma {:induction false} NanMeanIsMeanOfValid(xs: seq<Score>)
    ensures CountValid(xs) == |Valid(xs)| && SumValid(xs) == Sum(Valid(xs))
    ensures NanMean(xs) == if |Valid(xs)| == 0 then None else Some(Sum(Valid(xs)) / |Valid(xs)| as real)
  {
    if |xs| > 0 {
      var init := xs[..|xs| - 1];
      NanMeanIsMeanOfValid(init);
      var v := Valid(xs);
      if xs[|xs| - 1].Some? {
        assert v[..|v| - 1] == Valid(init);
      } else {
        assert v == Valid(init);
      }
    }
  }

  lemma {:induction false} CountValidZero(xs: seq<Score>)
    ensures CountValid(xs) == 0 <==> forall i :: 0 <= i < |xs| ==> xs[i] == None
  {
    if |xs| > 0 {
      var init := xs[..|xs| - 1];
      CountValidZero(init);
      if CountValid(xs) == 0 {
        forall i | 0 <= i < |xs| ensures xs[i] == None {
          if i < |init| { assert init[i] == xs[i]; }
        }
      }
      if forall i :: 0 <= i < |xs| ==> xs[i] == None {
        forall i | 0 <= i < |init| ensures init[i] == None { assert init[i] == xs[i]; }
      }
    }
  }

  /** The mean is NaN exactly when every entry is NaN. */
  lemma NanMeanNaN(xs: seq<Score>)
    ensures NanMean(xs) == None <==> forall i :: 0 <= i < |xs| ==> xs[i] == None
  {
    CountValidZero(xs);
  }

  /** `n` copies of `x` added up. */
  function Times(x: real, n: nat): real
  {
    if n == 0 then 0.0 else Times(x, n - 1) + x
  }

  lemma {:induction false} TimesIsProduct(x: real, n: nat)
    ensures Times(x, n) == x * n as real
  {
    if n > 0 {
      TimesIsProduct(x, n - 1);
      assert x * n as real == x * (n - 1) as real + x;
    }
  }

  /** If every number among the entries lies in [lo, hi], their sum lies between `lo` and
      `hi` added up once per number. */
  lemma {:induction false} SumValidBounds(xs: seq<Score>, lo: real, hi: real)
    requires forall i :: 0 <= i < |xs| && xs[i].Some? ==> lo <= xs[i].value <= hi
    ensures Times(lo, CountValid(xs)) <= SumValid(xs) <= Times(hi, CountValid(xs))
    decreases |xs|
  {
    if |xs| > 0 {
      var init := xs[..|xs| - 1];
      assert forall i :: 0 <= i < |init| ==> init[i] == xs[i];
      SumValidBounds(init, lo, hi);
    }
  }

  /** A quotient `s / c` with `lo * c <= s <= hi * c` lies in [lo, hi]. */
  lemma QuotientBounds(s: real, c: real, lo: real, hi: real)
    requires c > 0.0 && lo * c <= s <= hi * c
    ensures lo <= s / c <= hi
  {
    assert s / c == lo + (s - lo * c) / c;
    assert s / c == hi - (hi * c - s) / c;
    DivNonNegative(s - lo * c, c);
    DivNonNegative(hi * c - s, c);
  }

  lemma DivNonNegative(a: real, c: real)
    requires a >= 0.0 && c > 0.0
    ensures a / c >= 0.0
  {
  }

  /** A mean of entries that all lie in [lo, hi] lies in [lo, hi]. */
  lemma NanMeanBounds(xs: seq<Score>, lo: real, hi: real)
    requires forall i :: 0 <= i < |xs| && xs[i].Some? ==> lo <= xs[i].value <= hi
    ensures NanMean(xs).Some? ==> lo <= NanMean(xs).value <= hi
  {
    var n := CountValid(xs);
    if n > 0 {
      SumValidBounds(xs, lo, hi);
      TimesIsProduct(lo, n);
      TimesIsProduct(hi, n);
      QuotientBounds(SumValid(xs), n as real, lo, hi);
      assert NanMean(xs) == Some(SumValid(xs) / n as real);
    }
  }

  // ---------------------------------------------------------------------------
  // The three kernels: specification functions

  /** Number of foreground class labels `1..numClasses-1` (`range(1, num_classes)`). */
  function LabelCount(numClasses: int): nat
  {
    if numClasses > 1 then numClasses - 1 else 0
  }

  /** A per-class vector followed by its NaN-ignoring mean. */
  function WithMean(scores: seq<Score>): (r: seq<Score>)
    ensures |r| == |scores| + 1 && r[..|scores|] == scores && r[|scores|] == NanMean(scores)
  {
    scores + [NanMean(scores)]
  }

  function DiceScores(groundTruth: seq<int>, pred: seq<int>, numClasses: int): seq<Score>
    requires |groundTruth| == |pred|
  {
    seq(LabelCount(numClasses), i requires 0 <= i < LabelCount(numClasses) => ClassDice(groundTruth, pred, i + 1))
  }

  /** What `calculate_dice` returns: one entry per class label `1..numClasses-1`,
      then the NaN-ignoring mean of those entries. */
  function DiceSpec(groundTruth: seq<int>, pred: seq<int>, numClasses: int): (r: seq<Score>)
    requires |groundTruth| == |pred|
    ensures |r| == LabelCount(numClasses) + 1
    ensures forall c :: 1 <= c < numClasses ==> r[c - 1] == ClassDice(groundTruth, pred, c)
    ensures r[|r| - 1] == NanMean(r[..|r| - 1])
  {
    WithMean(DiceScores(groundTruth, pred, numClasses))
  }

  function Hd95Scores(groundTruth: seq<int>, pred: seq<int>, spacing: Spacing, numClasses: int,
                      hd95: Hd95Primitive): seq<Score>
  {
    seq(LabelCount(numClasses), i => hd95(Mask(groundTruth, i + 1), Mask(pred, i + 1), spacing))
  }

  /** What `calculate_hd_95` returns: the external HD95 of each class's ground-truth and
      predicted masks, with no NaN guard, then the NaN-ignoring mean. */
  function Hd95Spec(groundTruth: seq<int>, pred: seq<int>, spacing: Spacing, numClasses: int,
                    hd95: Hd95Primitive): (r: seq<Score>)
    ensures |r| == LabelCount(numClasses) + 1
    ensures forall c :: 1 <= c < numClasses ==>
              r[c - 1] == hd95(Mask(groundTruth, c), Mask(pred, c), spacing)
    ensures r[|r| - 1] == NanMean(r[..|r| - 1])
  {
    WithMean(Hd95Scores(groundTruth, pred, spacing, numClasses, hd95))
  }

  /** The field's vectors at the voxels where `mask` is set, in voxel order
      (`dvf_flow[k][np.where(mask)]` for the three components k). */
  function Gather(dvf: seq<Vec3>, mask: seq<bool>): seq<Vec3>
    requires |dvf| == |mask|
  {
    if |mask| == 0 then []
    else Gather(dvf[..|dvf| - 1], mask[..|mask| - 1]) + (if mask[|mask| - 1] then [dvf[|dvf| - 1]] else [])
  }

  lemma {:induction false} GatherCount(dvf: seq<Vec3>, mask: seq<bool>)
    requires |dvf| == |mask|
    ensures |Gather(dvf, mask)| == Count(mask)
  {
    if |mask| > 0 {
      GatherCount(dvf[..|dvf| - 1], mask[..|mask| - 1]);
    }
  }

  /** Euclidean length of one displacement vector: the square root of `a² + b² + c²`. */
  function Magnitude(v: Vec3, sqrt: SquareRoot): real
  {
    sqrt(v.dx * v.dx + v.dy * v.dy + v.dz * v.dz)
  }

  /** `np.sqrt(temp)` for the selected vectors, one (never NaN) score per voxel. */
  function Magnitudes(vs: seq<Vec3>, sqrt: SquareRoot): (r: seq<Score>)
    ensures |r| == |vs| && forall i :: 0 <= i < |vs| ==> r[i] == Some(Magnitude(vs[i], sqrt))
  {
    seq(|vs|, i requires 0 <= i < |vs| => Some(Magnitude(vs[i], sqrt)))
  }

  /** A vector without NaN entries counts every entry. */
  lemma {:induction false} CountValidAll(xs: seq<Score>)
    requires forall i :: 0 <= i < |xs| ==> xs[i].Some?
    ensures CountValid(xs) == |xs|
  {
    if |xs| > 0 {
      var init := xs[..|xs| - 1];
      assert forall i :: 0 <= i < |init| ==> init[i] == xs[i];
      CountValidAll(init);
    }
  }

  /** Mean displacement magnitude of one class, `np.nanmean` over the magnitudes of the vectors
      the prediction selects: NaN exactly when the prediction has no voxel of the class (the
      mean of nothing), a number otherwise. */
  function ClassDisplacement(dvf: seq<Vec3>, pred: seq<int>, classLabel: int, sqrt: SquareRoot): (r: Score)
    requires |dvf| == |pred|
    ensures r == None <==> classLabel !in pred
  {
    var vs := Gather(dvf, Mask(pred, classLabel));
    GatherCount(dvf, Mask(pred, classLabel));
    MaskCount(pred, classLabel);
    CountValidAll(Magnitudes(vs, sqrt));
    NanMean(Magnitudes(vs, sqrt))
  }

  function DisplacementScores(dvf: seq<Vec3>, pred: seq<int>, numClasses: int, sqrt: SquareRoot): seq<Score>
    requires |dvf| == |pred|
  {
    seq(LabelCount(numClasses), i requires 0 <= i < LabelCount(numClasses) =>
      ClassDisplacement(dvf, pred, i + 1, sqrt))
  }

  /** What `calculate_displacement` returns: one mean magnitude per class label, then
      the NaN-ignoring mean. */
  function DisplacementSpec(dvf: seq<Vec3>, pred: seq<int>, numClasses: int, sqrt: SquareRoot): (r: seq<Score>)
    requires |dvf| == |pred|
    ensures |r| == LabelCount(numClasses) + 1
    ensures forall c :: 1 <= c < numClasses ==> r[c - 1] == ClassDisplacement(dvf, pred, c, sqrt)
    ensures r[|r| - 1] == NanMean(r[..|r| - 1])
  {
    WithMean(DisplacementScores(dvf, pred, numClasses, sqrt))
  }

  /** The trailing Dice average is NaN exactly when no foreground class occurs in the
      ground truth, and otherwise lies in [0, 1]. */
  lemma DiceAverage(groundTruth: seq<int>, pred: seq<int>, numClasses: int)
    requires |groundTruth| == |pred|
    ensures var r := DiceSpec(groundTruth, pred, numClasses);
            && (r[|r| - 1] == None <==> forall c :: 1 <= c < numClasses ==> c !in groundTruth)
            && (r[|r| - 1].Some? ==> 0.0 <= r[|r| - 1].value <= 1.0)
  {
    var scores := DiceScores(groundTruth, pred, numClasses);
    NanMeanNaN(scores);
    forall i | 0 <= i < |scores| && scores[i].Some? ensures 0.0 <= scores[i].value <= 1.0 {
      ClassDiceValue(groundTruth, pred, i + 1);
    }
    NanMeanBounds(scores, 0.0, 1.0);
    if forall c :: 1 <= c < numClasses ==> c !in groundTruth {
      forall i | 0 <= i < |scores| ensures scores[i] == None {
        ClassDiceNaN(groundTruth, pred, i + 1);
      }
    }
    if forall i :: 0 <= i < |scores| ==> scores[i] == None {
      forall c | 1 <= c < numClasses ensures c !in groundTruth {
        assert scores[c - 1] == None;
      }
    }
  }

  /** A prediction identical to the ground truth scores 1 exactly on the classes the ground
      truth contains and NaN on every other class. */
  lemma ClassDicePerfect(groundTruth: seq<int>, c: int)
    ensures ClassDice(groundTruth, groundTruth, c) == if c in groundTruth then Some(1.0) else None
  {
    ClassDiceNaN(groundTruth, groundTruth, c);
    if c in groundTruth {
      ClassDiceValue(groundTruth, groundTruth, c);
    }
  }

  /** A vector whose entries are all NaN or `v`, with at least one `v`, has NaN-ignoring mean `v`. */
  lemma NanMeanOfConstant(xs: seq<Score>, v: real, j: int)
    requires forall i :: 0 <= i < |xs| ==> xs[i] == None || xs[i] == Some(v)
    requires 0 <= j < |xs| && xs[j] == Some(v)
    ensures NanMean(xs) == Some(v)
  {
    NanMeanBounds(xs, v, v);
    NanMeanNaN(xs);
  }

  /** Scoring the ground truth against itself: every class it contains scores 1, every other
      class is NaN, and the average is 1 as soon as one foreground class occurs. */
  lemma DicePerfect(groundTruth: seq<int>, numClasses: int)
    ensures var r := DiceSpec(groundTruth, groundTruth, numClasses);
            && (forall c :: 1 <= c < numClasses ==> r[c - 1] == if c in groundTruth then Some(1.0) else None)
            && ((exists c :: 1 <= c < numClasses && c in groundTruth) ==> r[|r| - 1] == Some(1.0))
  {
    var scores := DiceScores(groundTruth, groundTruth, numClasses);
    forall c | 1 <= c < numClasses
      ensures ClassDice(groundTruth, groundTruth, c) == if c in groundTruth then Some(1.0) else None
    {
      ClassDicePerfect(groundTruth, c);
    }
    if exists c :: 1 <= c < numClasses && c in groundTruth {
      var c :| 1 <= c < numClasses && c in groundTruth;
      forall i | 0 <= i < |scores| ensures scores[i] == None || scores[i] == Some(1.0) {
        ClassDicePerfect(groundTruth, i + 1);
      }
      ClassDicePerfect(groundTruth, c);
      NanMeanOfConstant(scores, 1.0, c - 1);
    }
  }

  /** The field's vectors at a mask are among the field's vectors. */
  lemma {:induction false} GatherFrom(dvf: seq<Vec3>, mask: seq<bool>)
    requires |dvf| == |mask|
    ensures forall j :: 0 <= j < |Gather(dvf, mask)| ==> Gather(dvf, mask)[j] in dvf
  {
    if |mask| > 0 {
      GatherFrom(dvf[..|dvf| - 1], mask[..|mask| - 1]);
      assert forall v :: v in dvf[..|dvf| - 1] ==> v in dvf;
    }
  }

  /** One class of an all-zero field: 0 when the prediction holds the class, NaN otherwise,
      given only that the square root of 0 is 0. */
  lemma ZeroFieldClass(dvf: seq<Vec3>, pred: seq<int>, c: int, sqrt: SquareRoot)
    requires |dvf| == |pred| && forall j :: 0 <= j < |dvf| ==> dvf[j] == Vec3(0.0, 0.0, 0.0)
    requires sqrt(0.0) == 0.0
    ensures ClassDisplacement(dvf, pred, c, sqrt) == if c in pred then Some(0.0) else None
  {
    var vs := Gather(dvf, Mask(pred, c));
    var ms := Magnitudes(vs, sqrt);
    GatherFrom(dvf, Mask(pred, c));
    forall i | 0 <= i < |ms| ensures ms[i] == Some(0.0) {
      assert vs[i] in dvf;
      assert vs[i] == Vec3(0.0, 0.0, 0.0);
    }
    if c in pred {
      GatherCount(dvf, Mask(pred, c));
      MaskCount(pred, c);
      NanMeanOfConstant(ms, 0.0, 0);
    }
  }

  /** The trailing average of an all-zero field: 0 when some foreground class occurs in the
      prediction, NaN otherwise. */
  lemma ZeroFieldAverage(dvf: seq<Vec3>, pred: seq<int>, numClasses: int, sqrt: SquareRoot)
    requires |dvf| == |pred| && forall j :: 0 <= j < |dvf| ==> dvf[j] == Vec3(0.0, 0.0, 0.0)
    requires sqrt(0.0) == 0.0
    ensures NanMean(DisplacementScores(dvf, pred, numClasses, sqrt)) ==
              if exists c :: 1 <= c < numClasses && c in pred then Some(0.0) else None
  {
    var scores := DisplacementScores(dvf, pred, numClasses, sqrt);
    forall i | 0 <= i < |scores| ensures scores[i] == if (i + 1) in pred then Some(0.0) else None {
      ZeroFieldClass(dvf, pred, i + 1, sqrt);
    }
    if exists c :: 1 <= c < numClasses && c in pred {
      var c :| 1 <= c < numClasses && c in pred;
      assert scores[c - 1] == Some(0.0);
      NanMeanOfConstant(scores, 0.0, c - 1);
    } else {
      NanMeanNaN(scores);
    }
  }

  /** For a displacement field of all zeros, every class the prediction contains moves by
      exactly 0 and every other class is NaN; the average is 0 when some foreground class
      occurs in the prediction and NaN otherwise. */
  lemma ZeroFieldDisplacement(dvf: seq<Vec3>, pred: seq<int>, numClasses: int, sqrt: SquareRoot)
    requires |dvf| == |pred| && forall j :: 0 <= j < |dvf| ==> dvf[j] == Vec3(0.0, 0.0, 0.0)
    requires sqrt(0.0) == 0.0
    ensures var r := DisplacementSpec(dvf, pred, numClasses, sqrt);
            && (forall c :: 1 <= c < numClasses ==> r[c - 1] == if c in pred then Some(0.0) else None)
            && r[|r| - 1] == if exists c :: 1 <= c < numClasses && c in pred then Some(0.0) else None
  {
    forall c | 1 <= c < numClasses
      ensures ClassDisplacement(dvf, pred, c, sqrt) == if c in pred then Some(0.0) else None
    {
      ZeroFieldClass(dvf, pred, c, sqrt);
    }
    ZeroFieldAverage(dvf, pred, numClasses, sqrt);
    assert DisplacementSpec(dvf, pred, numClasses, sqrt) == WithMean(DisplacementScores(dvf, pred, numClasses, sqrt));
  }

  // ---------------------------------------------------------------------------
  // The three kernels as the source runs them: one append per class label

  method CalculateDice(groundTruth: seq<int>, pred: seq<int>, numClasses: int) returns (metricDice: seq<Score>)
    requires |groundTruth| == |pred|
    ensures metricDice == DiceSpec(groundTruth, pred, numClasses)
  {
    metricDice := [];
    var classLabel := 1;
    while classLabel < numClasses
      invariant 1 <= classLabel && |metricDice| == classLabel - 1 <= LabelCount(numClasses)
      invariant forall i :: 0 <= i < |metricDice| ==> metricDice[i] == ClassDice(groundTruth, pred, i + 1)
    {
      var gtMask := Mask(groundTruth, classLabel);
      var predMask := Mask(pred, classLabel);
      MaskAny(groundTruth, classLabel);
      if true in gtMask {
        metricDice := metricDice + [Some(Dc(predMask, gtMask))];
      } else {
        metricDice := metricDice + [None];
      }
      classLabel := classLabel + 1;
    }
    assert metricDice == DiceScores(groundTruth, pred, numClasses);
    metricDice := metricDice + [NanMean(metricDice)];
  }

  method CalculateHd95(groundTruth: seq<int>, pred: seq<int>, spacing: Spacing, numClasses: int,
                       hd95: Hd95Primitive) returns (metricHd95: seq<Score>)
    ensures metricHd95 == Hd95Spec(groundTruth, pred, spacing, numClasses, hd95)
  {
    metricHd95 := [];
    var classLabel := 1;
    while classLabel < numClasses
      invariant 1 <= classLabel && |metricHd95| == classLabel - 1 <= LabelCount(numClasses)
      invariant forall i :: 0 <= i < |metricHd95| ==>
                  metricHd95[i] == hd95(Mask(groundTruth, i + 1), Mask(pred, i + 1), spacing)
    {
      var gtMask := Mask(groundTruth, classLabel);
      var predMask := Mask(pred, classLabel);
      metricHd95 := metricHd95 + [hd95(gtMask, predMask, spacing)];
      classLabel := classLabel + 1;
    }
    assert metricHd95 == Hd95Scores(groundTruth, pred, spacing, numClasses, hd95);
    metricHd95 := metricHd95 + [NanMean(metricHd95)];
  }

  method CalculateDisplacement(dvf: seq<Vec3>, pred: seq<int>, numClasses: int,
                               sqrt: SquareRoot) returns (metricsDisp: seq<Score>)
    requires |dvf| == |pred|
    ensures metricsDisp == DisplacementSpec(dvf, pred, numClasses, sqrt)
  {
    metricsDisp := [];
    var classLabel := 1;
    while classLabel < numClasses
      invariant 1 <= classLabel && |metricsDisp| == classLabel - 1 <= LabelCount(numClasses)
      invariant forall i :: 0 <= i < |metricsDisp| ==>
                  metricsDisp[i] == ClassDisplacement(dvf, pred, i + 1, sqrt)
    {
      var selected := Gather(dvf, Mask(pred, classLabel));
      metricsDisp := metricsDisp + [NanMean(Magnitudes(selected, sqrt))];
      classLabel := classLabel + 1;
    }
    assert metricsDisp == DisplacementScores(dvf, pred, numClasses, sqrt);
    metricsDisp := metricsDisp + [NanMean(metricsDisp)];
  }
}
