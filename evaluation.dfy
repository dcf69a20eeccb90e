/**
  The result accumulator `Eval` of `utils_metrics.py`: per-sample rows in a run table
  `df`, one summary row per run in `avg_df`, both written through to CSV files after
  every change. The CSV directory `sv_dir/CSVs` is modelled as a map from file name
  to the table last written under that name.
*/
module Evaluation {
  import opened Wrappers
  import opened MetricKernels
  import opened ColumnLabels
  import Decimal

  // ---------------------------------------------------------------------------
  // Which column groups are written, and in what order

  /** Whether the (family, kind) group is produced: Reg and Rigid Dice/HD95 with
      registration, Reg displacement with registration and a displacement field,
      Seg Dice/HD95 with segmentation. */
  predicate Enabled(f: Family, k: Kind, reg: bool, disp: bool, seg: bool)
  {
    match k
    case Displacement => f == Reg && reg && disp
    case _ => if f == Seg then seg else reg
  }

  /** The registration groups `calculate_results` writes, in the order it writes them. */
  function RegOrder(disp: bool): seq<(Family, Kind)>
  {
    [(Reg, Dice), (Reg, HD95)] + (if disp then [(Reg, Displacement)] else []) + [(Rigid, Dice), (Rigid, HD95)]
  }

  /** The segmentation groups both methods write, in the order they write them. */
  const SEG_ORDER: seq<(Family, Kind)> := [(Seg, Dice), (Seg, HD95)]

  /** The groups `calculate_results` writes, in the order it writes them. */
  function ResultOrder(reg: bool, disp: bool, seg: bool): seq<(Family, Kind)>
  {
    (if reg then RegOrder(disp) else []) + (if seg then SEG_ORDER else [])
  }

  /** The registration groups `average_results` writes, in the order it writes them. */
  function SummaryRegOrder(disp: bool): seq<(Family, Kind)>
  {
    [(Reg, Dice), (Reg, HD95), (Rigid, Dice), (Rigid, HD95)] + (if disp then [(Reg, Displacement)] else [])
  }

  /** The groups `average_results` writes, in the order it writes them. */
  function SummaryOrder(reg: bool, disp: bool, seg: bool): seq<(Family, Kind)>
  {
    (if reg then SummaryRegOrder(disp) else []) + (if seg then SEG_ORDER else [])
  }

  /** Both methods write exactly the enabled groups (in different orders). */
  lemma OrdersEnable(f: Family, k: Kind, reg: bool, disp: bool, seg: bool)
    ensures (f, k) in ResultOrder(reg, disp, seg) <==> Enabled(f, k, reg, disp, seg)
    ensures (f, k) in SummaryOrder(reg, disp, seg) <==> Enabled(f, k, reg, disp, seg)
  {
  }

  /** The loops for the registration groups, spelled out one after the other. */
  lemma RegOrderApply(m: Row, names: seq<string>, vals: map<(Family, Kind), seq<Value>>, disp: bool)
    requires Fits(names, RegOrder(disp), vals)
    ensures var a := PutColumns(PutColumns(m, Reg, names, Dice, vals[(Reg, Dice)]), Reg, names, HD95, vals[(Reg, HD95)]);
            var b := if disp then PutColumns(a, Reg, names, Displacement, vals[(Reg, Displacement)]) else a;
            Apply(m, names, RegOrder(disp), vals) ==
              PutColumns(PutColumns(b, Rigid, names, Dice, vals[(Rigid, Dice)]), Rigid, names, HD95, vals[(Rigid, HD95)])
  {
    var p1 := [(Reg, Dice)];
    var p2 := p1 + [(Reg, HD95)];
    var p3 := if disp then p2 + [(Reg, Displacement)] else p2;
    var p4 := p3 + [(Rigid, Dice)];
    assert p4 + [(Rigid, HD95)] == RegOrder(disp);
    ApplySnoc(m, names, p4, (Rigid, HD95), vals);
    ApplySnoc(m, names, p3, (Rigid, Dice), vals);
    if disp {
      ApplySnoc(m, names, p2, (Reg, Displacement), vals);
    }
    ApplySnoc(m, names, p1, (Reg, HD95), vals);
    ApplySnoc(m, names, [], (Reg, Dice), vals);
  }

  /** The loops for the registration summary groups, spelled out one after the other. */
  lemma SummaryRegOrderApply(m: Row, names: seq<string>, vals: map<(Family, Kind), seq<Value>>, disp: bool)
    requires Fits(names, SummaryRegOrder(disp), vals)
    ensures var a := PutColumns(PutColumns(m, Reg, names, Dice, vals[(Reg, Dice)]), Reg, names, HD95, vals[(Reg, HD95)]);
            var b := PutColumns(PutColumns(a, Rigid, names, Dice, vals[(Rigid, Dice)]), Rigid, names, HD95, vals[(Rigid, HD95)]);
            Apply(m, names, SummaryRegOrder(disp), vals) ==
              if disp then PutColumns(b, Reg, names, Displacement, vals[(Reg, Displacement)]) else b
  {
    var p1 := [(Reg, Dice)];
    var p2 := p1 + [(Reg, HD95)];
    var p3 := p2 + [(Rigid, Dice)];
    var p4 := p3 + [(Rigid, HD95)];
    if disp {
      assert p4 + [(Reg, Displacement)] == SummaryRegOrder(disp);
      ApplySnoc(m, names, p4, (Reg, Displacement), vals);
    } else {
      assert p4 == SummaryRegOrder(disp);
    }
    ApplySnoc(m, names, p3, (Rigid, HD95), vals);
    ApplySnoc(m, names, p2, (Rigid, Dice), vals);
    ApplySnoc(m, names, p1, (Reg, HD95), vals);
    ApplySnoc(m, names, [], (Reg, Dice), vals);
  }

  /** The loops for the segmentation groups, spelled out one after the other. */
  lemma SegOrderApply(m: Row, names: seq<string>, vals: map<(Family, Kind), seq<Value>>)
    requires Fits(names, SEG_ORDER, vals)
    ensures Apply(m, names, SEG_ORDER, vals) ==
              PutColumns(PutColumns(m, Seg, names, Dice, vals[(Seg, Dice)]), Seg, names, HD95, vals[(Seg, HD95)])
  {
    assert [(Seg, Dice)] + [(Seg, HD95)] == SEG_ORDER;
    ApplySnoc(m, names, [(Seg, Dice)], (Seg, HD95), vals);
    ApplySnoc(m, names, [], (Seg, Dice), vals);
  }

  // ---------------------------------------------------------------------------
  // calculate_results as a function of its inputs

  /** The inputs of one `calculate_results` call, with the two primitives the model leaves
      uninterpreted. Absent predictions are `None`. */
  datatype Sample = Sample(spacing: Spacing, gt: seq<int>, rigidMsk: Option<seq<int>>,
                           regResult: Option<seq<int>>, segResult: Option<seq<int>>,
                           dvf: Option<seq<Vec3>>, hd95: Hd95Primitive, sqrt: SquareRoot)
  {
    /** What the source needs to run without raising: a rigid mask whenever a registration
        result is given, and volumes (and the field) of one extent. */
    predicate WellShaped()
    {
      && (regResult.Some? ==> rigidMsk.Some? && |regResult.value| == |gt| && |rigidMsk.value| == |gt|)
      && (regResult.Some? && dvf.Some? ==> |dvf.value| == |gt|)
      && (segResult.Some? ==> |segResult.value| == |gt|)
    }
  }

  /** The volume family `f` compares against the ground truth. */
  function Prediction(s: Sample, f: Family): (p: seq<int>)
    requires s.WellShaped() && (if f == Seg then s.segResult.Some? else s.regResult.Some?)
    ensures |p| == |s.gt|
  {
    match f
    case Reg => s.regResult.value
    case Rigid => s.rigidMsk.value
    case Seg => s.segResult.value
  }

  /** The metric vector `calculate_results` computes for one enabled group, for a class list
      of `n` names (`num_classes` is `len(self.class_list)`). */
  function GroupScores(n: nat, s: Sample, f: Family, k: Kind): (r: seq<Score>)
    requires s.WellShaped() && Enabled(f, k, s.regResult.Some?, s.dvf.Some?, s.segResult.Some?)
    ensures |r| == LabelCount(n) + 1 && r[LabelCount(n)] == NanMean(r[..LabelCount(n)])
  {
    match k
    case Dice => DiceSpec(s.gt, Prediction(s, f), n)
    case HD95 => Hd95Spec(s.gt, Prediction(s, f), s.spacing, n, s.hd95)
    case Displacement => DisplacementSpec(s.dvf.value, s.regResult.value, n, s.sqrt)
  }

  function SampleOrder(s: Sample): seq<(Family, Kind)>
  {
    ResultOrder(s.regResult.Some?, s.dvf.Some?, s.segResult.Some?)
  }

  lemma SampleOrderEnabled(s: Sample)
    ensures forall g :: g in SampleOrder(s) ==> Enabled(g.0, g.1, s.regResult.Some?, s.dvf.Some?, s.segResult.Some?)
  {
    forall g | g in SampleOrder(s) ensures Enabled(g.0, g.1, s.regResult.Some?, s.dvf.Some?, s.segResult.Some?) {
      OrdersEnable(g.0, g.1, s.regResult.Some?, s.dvf.Some?, s.segResult.Some?);
    }
  }

  /** The cells of every written group, as the row stores them. */
  function SampleValues(n: nat, s: Sample): (r: map<(Family, Kind), seq<Value>>)
    requires s.WellShaped()
  {
    SampleOrderEnabled(s);
    map g | g in SampleOrder(s) :: Metrics(GroupScores(n, s, g.0, g.1))
  }

  lemma SampleValue(n: nat, s: Sample, f: Family, k: Kind)
    requires s.WellShaped() && Enabled(f, k, s.regResult.Some?, s.dvf.Some?, s.segResult.Some?)
    ensures (f, k) in SampleValues(n, s) && SampleValues(n, s)[(f, k)] == Metrics(GroupScores(n, s, f, k))
  {
    OrdersEnable(f, k, s.regResult.Some?, s.dvf.Some?, s.segResult.Some?);
  }

  /** The registration and rigid cells are the registration kernels' results. */
  lemma RegistrationValues(n: nat, s: Sample)
    requires s.WellShaped() && s.regResult.Some?
    ensures var vals, reg, rigid := SampleValues(n, s), s.regResult.value, s.rigidMsk.value;
            && (Reg, Dice) in vals && vals[(Reg, Dice)] == Metrics(DiceSpec(s.gt, reg, n))
            && (Reg, HD95) in vals && vals[(Reg, HD95)] == Metrics(Hd95Spec(s.gt, reg, s.spacing, n, s.hd95))
            && (Rigid, Dice) in vals && vals[(Rigid, Dice)] == Metrics(DiceSpec(s.gt, rigid, n))
            && (Rigid, HD95) in vals && vals[(Rigid, HD95)] == Metrics(Hd95Spec(s.gt, rigid, s.spacing, n, s.hd95))
            && (s.dvf.Some? ==>
                  (Reg, Displacement) in vals &&
                  vals[(Reg, Displacement)] == Metrics(DisplacementSpec(s.dvf.value, reg, n, s.sqrt)))
  {
    SampleValue(n, s, Reg, Dice);
    SampleValue(n, s, Reg, HD95);
    SampleValue(n, s, Rigid, Dice);
    SampleValue(n, s, Rigid, HD95);
    assert Prediction(s, Reg) == s.regResult.value && Prediction(s, Rigid) == s.rigidMsk.value;
    if s.dvf.Some? {
      SampleValue(n, s, Reg, Displacement);
    }
  }

  /** The segmentation cells are the segmentation kernels' results. */
  lemma SegmentationValues(n: nat, s: Sample)
    requires s.WellShaped() && s.segResult.Some?
    ensures var vals, seg := SampleValues(n, s), s.segResult.value;
            && (Seg, Dice) in vals && vals[(Seg, Dice)] == Metrics(DiceSpec(s.gt, seg, n))
            && (Seg, HD95) in vals && vals[(Seg, HD95)] == Metrics(Hd95Spec(s.gt, seg, s.spacing, n, s.hd95))
  {
    SampleValue(n, s, Seg, Dice);
    SampleValue(n, s, Seg, HD95);
    assert Prediction(s, Seg) == s.segResult.value;
  }

  /** The sample's registration and segmentation groups fit the class list. */
  lemma SampleFitsParts(names: seq<string>, s: Sample)
    requires s.WellShaped()
    ensures s.regResult.Some? ==> Fits(names, RegOrder(s.dvf.Some?), SampleValues(|names|, s))
    ensures s.segResult.Some? ==> Fits(names, SEG_ORDER, SampleValues(|names|, s))
  {
    SampleFits(names, s);
    ApplyAppend(map[], names, if s.regResult.Some? then RegOrder(s.dvf.Some?) else [],
                if s.segResult.Some? then SEG_ORDER else [], SampleValues(|names|, s));
  }

  lemma SampleFits(names: seq<string>, s: Sample)
    requires s.WellShaped()
    ensures Fits(names, SampleOrder(s), SampleValues(|names|, s))
  {
    SampleOrderEnabled(s);
  }

  /** The dict `calculate_results` leaves behind: the caller's `info` extended with the
      metric columns of the sample. */
  function ResultRow(info: Row, names: seq<string>, s: Sample): Row
    requires s.WellShaped()
  {
    SampleFits(names, s);
    Apply(info, names, SampleOrder(s), SampleValues(|names|, s))
  }

  /** The row holds the caller's keys plus exactly the enabled metric columns: Reg and Rigid
      Dice/HD95 iff a registration result is given, Reg displacement iff a displacement field
      is given too, Seg Dice/HD95 iff a segmentation result is given. Every caller key that is
      not one of those columns keeps its value. */
  lemma ResultRowColumns(info: Row, names: seq<string>, s: Sample)
    requires s.WellShaped()
    ensures var r := ResultRow(info, names, s);
            && info.Keys <= r.Keys
            && (forall key :: key in r && key !in info ==> exists f, n, k :: key == Label(f, n, k))
            && (forall f, n, k :: Label(f, n, k) in r <==>
                  Label(f, n, k) in info || (n in names && Enabled(f, k, s.regResult.Some?, s.dvf.Some?, s.segResult.Some?)))
            && (forall key :: key in info && key !in Columns(names, SampleOrder(s)) ==> r[key] == info[key])
  {
    var order := SampleOrder(s);
    SampleFits(names, s);
    ApplySpec(info, names, order, SampleValues(|names|, s));
    var r := ResultRow(info, names, s);
    forall key | key in r && key !in info ensures exists f, n, k :: key == Label(f, n, k) {
      var g, n :| g in order && n in names && Label(g.0, n, g.1) == key;
    }
    forall f, n, k ensures Label(f, n, k) in r <==>
        Label(f, n, k) in info || (n in names && Enabled(f, k, s.regResult.Some?, s.dvf.Some?, s.segResult.Some?)) {
      ColumnsMember(names, order, f, n, k);
      OrdersEnable(f, k, s.regResult.Some?, s.dvf.Some?, s.segResult.Some?);
    }
  }

  /** Positional alignment: the `i`-th entry of an enabled group's metric vector lands under
      the `i`-th class name (the later entry wins if a name is listed twice). */
  lemma ResultRowValue(info: Row, names: seq<string>, s: Sample, f: Family, k: Kind, i: nat)
    requires s.WellShaped() && Enabled(f, k, s.regResult.Some?, s.dvf.Some?, s.segResult.Some?)
    requires i < |names| && LastOccurrence(names, i)
    ensures var r := ResultRow(info, names, s);
            Label(f, names[i], k) in r && r[Label(f, names[i], k)] == Metric(GroupScores(|names|, s, f, k)[i])
  {
    SampleFits(names, s);
    OrdersEnable(f, k, s.regResult.Some?, s.dvf.Some?, s.segResult.Some?);
    ApplySpec(info, names, SampleOrder(s), SampleValues(|names|, s));
  }

  /** With the class list ending in the synthetic "Avg" class, every enabled group's "Avg"
      column holds the NaN-ignoring mean of that group's per-class entries. */
  lemma AvgColumn(info: Row, names: seq<string>, s: Sample, f: Family, k: Kind)
    requires s.WellShaped() && Enabled(f, k, s.regResult.Some?, s.dvf.Some?, s.segResult.Some?)
    requires |names| > 0 && names[|names| - 1] == "Avg"
    ensures var r, scores, last := ResultRow(info, names, s), GroupScores(|names|, s, f, k), |names| - 1;
            Label(f, "Avg", k) in r && r[Label(f, "Avg", k)] == Metric(NanMean(scores[..last]))
  {
    var last := |names| - 1;
    ResultRowValue(info, names, s, f, k, last);
    assert LabelCount(|names|) == last;
  }

  // ---------------------------------------------------------------------------
  // average_results as a function of the run table

  /** One column of the run table, NaN where a row lacks the key (as `pd.concat` fills it). */
  function Column(df: seq<Row>, key: string): seq<Value>
  {
    seq(|df|, j requires 0 <= j < |df| => if key in df[j] then df[j][key] else NaN)
  }

  /** The table has the column: some row carries the key (`df[label]` raises otherwise). */
  predicate HasColumn(df: seq<Row>, key: string)
  {
    exists j :: 0 <= j < |df| && key in df[j]
  }

  /** The "mean ± std" cells of one group, per class name. */
  function Stats(df: seq<Row>, f: Family, names: seq<string>, k: Kind): seq<Value>
  {
    seq(|names|, i requires 0 <= i < |names| => MeanStd(Column(df, Label(f, names[i], k))))
  }

  function SummaryValues(df: seq<Row>, names: seq<string>, groups: seq<(Family, Kind)>): (r: map<(Family, Kind), seq<Value>>)
    ensures Fits(names, groups, r)
  {
    map g | g in groups :: Stats(df, g.0, names, g.1)
  }

  /** The row `average_results` starts from: the epoch in train mode, nothing otherwise. */
  function SummarySeed(mode: string, epoch: int): Row
  {
    if mode == "train" then map[EPOCH := Int(epoch)] else map[]
  }

  /** The summary row `average_results` builds from the run table. */
  function SummaryRow(mode: string, epoch: int, names: seq<string>,
                      calcReg: bool, calcSeg: bool, calcDisp: bool, df: seq<Row>): Row
  {
    var order := SummaryOrder(calcReg, calcDisp, calcSeg);
    Apply(SummarySeed(mode, epoch), names, order, SummaryValues(df, names, order))
  }

  lemma EpochNotInColumns(names: seq<string>, groups: seq<(Family, Kind)>)
    ensures EPOCH !in Columns(names, groups)
  {
    if EPOCH in Columns(names, groups) {
      var g, n :| g in groups && n in names && Label(g.0, n, g.1) == EPOCH;
      EpochIsNotALabel(g.0, n, g.1);
    }
  }

  /** The summary row has `Epoch` iff the mode is "train", Reg and Rigid Dice/HD95 columns iff
      `calc_reg`, Reg displacement columns iff `calc_reg` and `calc_disp`, Seg columns iff
      `calc_seg`, and nothing else. */
  lemma SummaryRowKeys(mode: string, epoch: int, names: seq<string>,
                       calcReg: bool, calcSeg: bool, calcDisp: bool, df: seq<Row>)
    ensures var r := SummaryRow(mode, epoch, names, calcReg, calcSeg, calcDisp, df);
            && (EPOCH in r <==> mode == "train")
            && (mode == "train" ==> r[EPOCH] == Int(epoch))
            && (forall key :: key in r && key != EPOCH ==> exists f, n, k :: key == Label(f, n, k))
            && (forall f, n, k :: Label(f, n, k) in r <==> n in names && Enabled(f, k, calcReg, calcDisp, calcSeg))
  {
    var order := SummaryOrder(calcReg, calcDisp, calcSeg);
    var seed, vals := SummarySeed(mode, epoch), SummaryValues(df, names, order);
    ApplySpec(seed, names, order, vals);
    EpochNotInColumns(names, order);
    var r := SummaryRow(mode, epoch, names, calcReg, calcSeg, calcDisp, df);
    forall key | key in r && key != EPOCH ensures exists f, n, k :: key == Label(f, n, k) {
      var g, n :| g in order && n in names && Label(g.0, n, g.1) == key;
    }
    forall f, n, k ensures Label(f, n, k) in r <==> n in names && Enabled(f, k, calcReg, calcDisp, calcSeg) {
      ColumnsMember(names, order, f, n, k);
      OrdersEnable(f, k, calcReg, calcDisp, calcSeg);
      EpochIsNotALabel(f, n, k);
    }
  }

  /** Each metric column of the summary row holds the statistics of that very column of
      the run table. */
  lemma SummaryRowValue(mode: string, epoch: int, names: seq<string>,
                        calcReg: bool, calcSeg: bool, calcDisp: bool, df: seq<Row>, f: Family, n: string, k: Kind)
    requires n in names && Enabled(f, k, calcReg, calcDisp, calcSeg)
    ensures var r := SummaryRow(mode, epoch, names, calcReg, calcSeg, calcDisp, df);
            Label(f, n, k) in r && r[Label(f, n, k)] == MeanStd(Column(df, Label(f, n, k)))
  {
    var order := SummaryOrder(calcReg, calcDisp, calcSeg);
    OrdersEnable(f, k, calcReg, calcDisp, calcSeg);
    ApplySpec(SummarySeed(mode, epoch), names, order, SummaryValues(df, names, order));
    var i := LastIndex(names, n);
  }

  /** A run table built by `calculate_results` calls: in the column of group (f, k) and class
      `names[i]`, each row holds that sample's metric when the sample enables the group, and
      otherwise whatever the caller's `info` held there, or NaN. These are the values
      `average_results` summarises. */
  lemma ResultsColumn(df: seq<Row>, infos: seq<Row>, names: seq<string>, samples: seq<Sample>,
                      f: Family, k: Kind, i: nat)
    requires |df| == |infos| == |samples|
    requires forall j :: 0 <= j < |df| ==> samples[j].WellShaped() && df[j] == ResultRow(infos[j], names, samples[j])
    requires i < |names| && LastOccurrence(names, i)
    ensures var key, col := Label(f, names[i], k), Column(df, Label(f, names[i], k));
            && |col| == |df|
            && forall j :: 0 <= j < |df| ==>
                 col[j] == if Enabled(f, k, samples[j].regResult.Some?, samples[j].dvf.Some?, samples[j].segResult.Some?)
                           then Metric(GroupScores(|names|, samples[j], f, k)[i])
                           else if key in infos[j] then infos[j][key] else NaN
  {
    var key := Label(f, names[i], k);
    forall j | 0 <= j < |df|
      ensures Column(df, key)[j] ==
                if Enabled(f, k, samples[j].regResult.Some?, samples[j].dvf.Some?, samples[j].segResult.Some?)
                then Metric(GroupScores(|names|, samples[j], f, k)[i])
                else if key in infos[j] then infos[j][key] else NaN
    {
      var s := samples[j];
      if Enabled(f, k, s.regResult.Some?, s.dvf.Some?, s.segResult.Some?) {
        ResultRowValue(infos[j], names, s, f, k, i);
      } else {
        ResultRowColumns(infos[j], names, s);
        ColumnsMember(names, SampleOrder(s), f, names[i], k);
        OrdersEnable(f, k, s.regResult.Some?, s.dvf.Some?, s.segResult.Some?);
      }
    }
  }

  /** The last position at which a name occurs. */
  lemma LastIndex(names: seq<string>, n: string) returns (i: nat)
    requires n in names
    ensures i < |names| && names[i] == n && LastOccurrence(names, i)
  {
    i := |names| - 1;
    while names[i] != n
      invariant 0 <= i < |names| && n in names[..i + 1]
      invariant forall l :: i < l < |names| ==> names[l] != n
      decreases i
    {
      i := i - 1;
    }
  }

  // ---------------------------------------------------------------------------
  // File names

  /** The run table's file: `{epoch}_Results.csv` in train mode, `{mode}_Results.csv` otherwise. */
  function RunFileName(mode: string, epoch: int): string
  {
    if mode == "train" then Decimal.IntToString(epoch) + "_Results.csv" else mode + "_Results.csv"
  }

  /** The summary table's file. */
  function SummaryFileName(mode: string): string
  {
    mode + "Mean_Results.csv"
  }

  /** The file `load_avg_df` reads, whatever the mode. */
  const PRIOR_SUMMARY_FILE := "trainMean_Results.csv"

  /** In train mode each epoch has its own run file; in any other mode every epoch shares one. */
  lemma RunFileNames(mode: string, e1: int, e2: int)
    ensures mode == "train" ==> (RunFileName(mode, e1) == RunFileName(mode, e2) <==> e1 == e2)
    ensures mode != "train" ==> RunFileName(mode, e1) == RunFileName(mode, e2)
  {
    if mode == "train" && RunFileName(mode, e1) == RunFileName(mode, e2) {
      var a, b := Decimal.IntToString(e1), Decimal.IntToString(e2);
      assert |a| == |b|;
      assert a == RunFileName(mode, e1)[..|a|];
      assert b == RunFileName(mode, e2)[..|b|];
      Decimal.IntToStringInjective(e1, e2);
    }
  }

  /** The run file never overwrites the summary file. */
  lemma RunFileIsNotSummaryFile(mode: string, epoch: int)
    ensures RunFileName(mode, epoch) != SummaryFileName(mode)
  {
    var run, summary := RunFileName(mode, epoch), SummaryFileName(mode);
    if mode == "train" {
      var digits := Decimal.IntToString(epoch);
      assert run == digits + "_Results.csv";
      assert run[0] == digits[0];
      assert summary[0] == mode[0] == 't';
    } else {
      assert |run| == |mode| + 12 && |summary| == |mode| + 16;
    }
  }

  // ---------------------------------------------------------------------------
  // The objects the source mutates in place

  /** The caller's class list, which the constructor extends in place. */
  class ClassList {
    var names: seq<string>

    constructor (names: seq<string>)
      ensures this.names == names
    {
      this.names := names;
    }

    method Append(name: string)
      modifies this
      ensures names == old(names) + [name]
    {
      names := names + [name];
    }
  }

  /** The caller's `info` dict, which `calculate_results` extends in place and returns. */
  class Info {
    var entries: Row

    constructor (entries: Row)
      ensures this.entries == entries
    {
      this.entries := entries;
    }
  }

  /** The directory `sv_dir/CSVs`: file name to the table last written there. Every `Eval`
      built on the same `sv_dir` shares it, so one object's writes are visible to the others. */
  class CsvDir {
    var files: map<string, seq<Row>>

    constructor (files: map<string, seq<Row>>)
      ensures this.files == files
    {
      this.files := files;
    }
  }

  /** One more pass of a column loop writes the next class's cell. */
  lemma PutColumnsStep(m: Row, f: Family, names: seq<string>, k: Kind, vals: seq<Value>, i: nat)
    requires i < |names| <= |vals|
    ensures PutColumns(m, f, names[..i + 1], k, vals) ==
              PutColumns(m, f, names[..i], k, vals)[Label(f, names[i], k) := vals[i]]
  {
    assert names[..i + 1][..i] == names[..i];
  }

  /** One of the source's column loops: `m[Label(f, names[i], k)] = vals[i]` for each i. */
  method WriteColumns(m: Row, f: Family, names: seq<string>, k: Kind, vals: seq<Value>) returns (r: Row)
    requires |names| <= |vals|
    ensures r == PutColumns(m, f, names, k, vals)
  {
    r := m;
    var i := 0;
    while i < |names|
      invariant 0 <= i <= |names|
      invariant r == PutColumns(m, f, names[..i], k, vals)
    {
      PutColumnsStep(m, f, names, k, vals, i);
      r := r[Label(f, names[i], k) := vals[i]];
      i := i + 1;
    }
    assert names[..i] == names;
  }

  /** Lines computing and writing the registration and rigid groups of one sample. */
  method RegistrationColumns(row: Row, names: seq<string>, s: Sample) returns (r: Row)
    requires s.WellShaped() && s.regResult.Some?
    ensures Fits(names, RegOrder(s.dvf.Some?), SampleValues(|names|, s))
    ensures r == Apply(row, names, RegOrder(s.dvf.Some?), SampleValues(|names|, s))
  {
    var n := |names|;
    var reg, rigid := s.regResult.value, s.rigidMsk.value;
    var regDice := CalculateDice(s.gt, reg, n);
    var regHd95 := CalculateHd95(s.gt, reg, s.spacing, n, s.hd95);
    r := WriteColumns(row, Reg, names, Dice, Metrics(regDice));
    r := WriteColumns(r, Reg, names, HD95, Metrics(regHd95));
    if s.dvf.Some? {
      var regDisp := CalculateDisplacement(s.dvf.value, reg, n, s.sqrt);
      r := WriteColumns(r, Reg, names, Displacement, Metrics(regDisp));
    }
    var rigidDice := CalculateDice(s.gt, rigid, n);
    var rigidHd95 := CalculateHd95(s.gt, rigid, s.spacing, n, s.hd95);
    r := WriteColumns(r, Rigid, names, Dice, Metrics(rigidDice));
    r := WriteColumns(r, Rigid, names, HD95, Metrics(rigidHd95));
    SampleFitsParts(names, s);
    RegistrationValues(n, s);
    RegOrderApply(row, names, SampleValues(n, s), s.dvf.Some?);
  }

  /** Lines computing and writing the segmentation groups of one sample. */
  method SegmentationColumns(row: Row, names: seq<string>, s: Sample) returns (r: Row)
    requires s.WellShaped() && s.segResult.Some?
    ensures Fits(names, SEG_ORDER, SampleValues(|names|, s))
    ensures r == Apply(row, names, SEG_ORDER, SampleValues(|names|, s))
  {
    var n := |names|;
    var seg := s.segResult.value;
    var segDice := CalculateDice(s.gt, seg, n);
    var segHd95 := CalculateHd95(s.gt, seg, s.spacing, n, s.hd95);
    r := WriteColumns(row, Seg, names, Dice, Metrics(segDice));
    r := WriteColumns(r, Seg, names, HD95, Metrics(segHd95));
    SampleFitsParts(names, s);
    SegmentationValues(n, s);
    SegOrderApply(row, names, SampleValues(n, s));
  }

  /** The lines of `calculate_results` that extend `info` with the sample's columns. */
  method SampleColumns(info: Row, names: seq<string>, s: Sample) returns (row: Row)
    requires s.WellShaped()
    ensures row == ResultRow(info, names, s)
  {
    ghost var vals := SampleValues(|names|, s);
    ghost var regPart := if s.regResult.Some? then RegOrder(s.dvf.Some?) else [];
    ghost var segPart := if s.segResult.Some? then SEG_ORDER else [];
    row := info;
    if s.regResult.Some? {
      row := RegistrationColumns(row, names, s);
    }
    ghost var afterReg := row;
    if s.segResult.Some? {
      row := SegmentationColumns(row, names, s);
    }
    assert row == ResultRow(info, names, s) by {
      SampleFits(names, s);
      ApplyAppend(info, names, regPart, segPart, vals);
      assert afterReg == Apply(info, names, regPart, vals);
      assert row == Apply(afterReg, names, segPart, vals);
    }
  }

  /** Lines writing the registration and rigid statistics of the run table. */
  method SummaryRegistrationColumns(row: Row, names: seq<string>, df: seq<Row>, ghost groups: seq<(Family, Kind)>,
                                    calcDisp: bool) returns (r: Row)
    requires forall g :: g in SummaryRegOrder(calcDisp) ==> g in groups
    ensures Fits(names, SummaryRegOrder(calcDisp), SummaryValues(df, names, groups))
    ensures r == Apply(row, names, SummaryRegOrder(calcDisp), SummaryValues(df, names, groups))
  {
    ghost var vals := SummaryValues(df, names, groups);
    r := WriteColumns(row, Reg, names, Dice, Stats(df, Reg, names, Dice));
    r := WriteColumns(r, Reg, names, HD95, Stats(df, Reg, names, HD95));
    r := WriteColumns(r, Rigid, names, Dice, Stats(df, Rigid, names, Dice));
    r := WriteColumns(r, Rigid, names, HD95, Stats(df, Rigid, names, HD95));
    if calcDisp {
      r := WriteColumns(r, Reg, names, Displacement, Stats(df, Reg, names, Displacement));
    }
    SummaryRegOrderApply(row, names, vals, calcDisp);
  }

  /** Lines writing the segmentation statistics of the run table. */
  method SummarySegmentationColumns(row: Row, names: seq<string>, df: seq<Row>, ghost groups: seq<(Family, Kind)>)
    returns (r: Row)
    requires forall g :: g in SEG_ORDER ==> g in groups
    ensures Fits(names, SEG_ORDER, SummaryValues(df, names, groups))
    ensures r == Apply(row, names, SEG_ORDER, SummaryValues(df, names, groups))
  {
    ghost var vals := SummaryValues(df, names, groups);
    r := WriteColumns(row, Seg, names, Dice, Stats(df, Seg, names, Dice));
    r := WriteColumns(r, Seg, names, HD95, Stats(df, Seg, names, HD95));
    SegOrderApply(row, names, vals);
  }

  /** The lines of `average_results` that build its row from the run table. */
  method SummaryColumns(mode: string, epoch: int, names: seq<string>, calcReg: bool, calcSeg: bool, calcDisp: bool,
                        df: seq<Row>) returns (info: Row)
    ensures info == SummaryRow(mode, epoch, names, calcReg, calcSeg, calcDisp, df)
  {
    ghost var order := SummaryOrder(calcReg, calcDisp, calcSeg);
    ghost var vals := SummaryValues(df, names, order);
    ghost var regPart := if calcReg then SummaryRegOrder(calcDisp) else [];
    ghost var segPart := if calcSeg then SEG_ORDER else [];
    info := map[];
    if mode == "train" {
      info := info[EPOCH := Int(epoch)];
    }
    ghost var seed := info;
    if calcReg {
      assert forall g :: g in SummaryRegOrder(calcDisp) ==> g in order;
      info := SummaryRegistrationColumns(info, names, df, order, calcDisp);
    }
    ghost var afterReg := info;
    if calcSeg {
      assert forall g :: g in SEG_ORDER ==> g in order;
      info := SummarySegmentationColumns(info, names, df, order);
    }
    assert info == SummaryRow(mode, epoch, names, calcReg, calcSeg, calcDisp, df) by {
      assert seed == SummarySeed(mode, epoch);
      ApplyAppend(seed, names, regPart, segPart, vals);
      assert afterReg == Apply(seed, names, regPart, vals);
      assert info == Apply(afterReg, names, segPart, vals);
    }
  }

  class Eval {
    var df: seq<Row>
    var avgDf: seq<Row>
    var epoch: int
    /** The storage root; `csvDir` is its `CSVs` sub-directory. */
    const svDir: string
    const classList: ClassList
    const calcReg: bool
    const calcSeg: bool
    const calcDisp: bool
    const mode: string
    const csvDir: CsvDir

    /** Appends "Avg" to the caller's class list (which the object keeps sharing) and starts
        with empty tables at epoch 0. The directory is shared with whoever else holds it. */
    constructor (svDir: string, classList: ClassList, calcReg: bool, calcSeg: bool, calcDisp: bool,
                 mode: string, csvDir: CsvDir)
      modifies classList
      ensures classList.names == old(classList.names) + ["Avg"]
      ensures this.classList == classList && this.svDir == svDir && this.mode == mode
      ensures this.calcReg == calcReg && this.calcSeg == calcSeg && this.calcDisp == calcDisp
      ensures df == [] && avgDf == [] && epoch == 0 && this.csvDir == csvDir
    {
      df := [];
      avgDf := [];
      epoch := 0;
      this.svDir := svDir;
      classList.Append("Avg");
      this.classList := classList;
      this.calcReg := calcReg;
      this.calcSeg := calcSeg;
      this.calcDisp := calcDisp;
      this.mode := mode;
      this.csvDir := csvDir;
    }

    /** Starts a new epoch with an empty run table. */
    method UpdateEpoch(epoch: int)
      modifies this`epoch, this`df
      ensures this.epoch == epoch && df == []
    {
      this.epoch := epoch;
      df := [];
    }

    /** Replaces the summary table by the train-mode summary file, if there is one;
        `found` is false where the source prints its diagnostic. */
    method LoadAvgDf() returns (found: bool)
      modifies this`avgDf
      ensures found <==> PRIOR_SUMMARY_FILE in csvDir.files
      ensures avgDf == if found then csvDir.files[PRIOR_SUMMARY_FILE] else old(avgDf)
    {
      found := PRIOR_SUMMARY_FILE in csvDir.files;
      if found {
        avgDf := csvDir.files[PRIOR_SUMMARY_FILE];
      }
    }

    /** Extends `info` with the sample's metric columns, appends it to the run table, rewrites
        the run file and returns `info` itself. */
    method CalculateResults(info: Info, spacing: Spacing, gt: seq<int>, rigidMsk: Option<seq<int>>,
                            regResult: Option<seq<int>>, segResult: Option<seq<int>>, dvf: Option<seq<Vec3>>,
                            hd95: Hd95Primitive, sqrt: SquareRoot) returns (r: Info)
      requires Sample(spacing, gt, rigidMsk, regResult, segResult, dvf, hd95, sqrt).WellShaped()
      modifies this`df, csvDir, info
      ensures r == info
      ensures info.entries ==
                ResultRow(old(info.entries), classList.names,
                          Sample(spacing, gt, rigidMsk, regResult, segResult, dvf, hd95, sqrt))
      ensures df == old(df) + [info.entries] && epoch == old(epoch)
      ensures csvDir.files == old(csvDir.files)[RunFileName(mode, epoch) := df]
    {
      var sample := Sample(spacing, gt, rigidMsk, regResult, segResult, dvf, hd95, sqrt);
      var row := SampleColumns(info.entries, classList.names, sample);
      info.entries := row;
      df := df + [row];
      csvDir.files := csvDir.files[RunFileName(mode, epoch) := df];
      r := info;
    }

    /** Builds the summary row of the run table, appends it to the summary table, rewrites
        the summary file and returns it. Every summarised column must exist in the run table. */
    method AverageResults() returns (info: Row)
      requires forall key :: key in Columns(classList.names, SummaryOrder(calcReg, calcDisp, calcSeg)) ==>
                 HasColumn(df, key)
      modifies this`avgDf, csvDir
      ensures info == SummaryRow(mode, epoch, classList.names, calcReg, calcSeg, calcDisp, df)
      ensures avgDf == old(avgDf) + [info] && df == old(df) && epoch == old(epoch)
      ensures csvDir.files == old(csvDir.files)[SummaryFileName(mode) := avgDf]
      ensures var run := RunFileName(mode, epoch);
              run in old(csvDir.files) ==> run in csvDir.files && csvDir.files[run] == old(csvDir.files)[run]
    {
      info := SummaryColumns(mode, epoch, classList.names, calcReg, calcSeg, calcDisp, df);
      avgDf := avgDf + [info];
      csvDir.files := csvDir.files[SummaryFileName(mode) := avgDf];
      RunFileIsNotSummaryFile(mode, epoch);
    }
  }

  /** With every toggle off, `average_results` summarises no column. */
  lemma NoSummaryColumns(names: seq<string>)
    ensures Columns(names, SummaryOrder(false, false, false)) == {}
  {
  }

  /** The summary file of train mode is the file `load_avg_df` reads. */
  lemma TrainSummaryIsPrior()
    ensures SummaryFileName("train") == PRIOR_SUMMARY_FILE
  {
  }

  /** A train-mode and a test-mode `Eval` on one directory: once the train-mode object has
      written its summary, the test-mode object's `load_avg_df` finds it and takes that table,
      although the test-mode object never writes `trainMean_Results.csv` itself. */
  method SharedSummary(svDir: string, trainNames: ClassList, testNames: ClassList, dir: CsvDir)
    returns (found: bool, loaded: seq<Row>, written: seq<Row>)
    modifies trainNames, testNames, dir
    ensures found && loaded == written && |written| == 1
  {
    var train := new Eval(svDir, trainNames, false, false, false, "train", dir);
    var test := new Eval(svDir, testNames, false, false, false, "test", dir);
    NoSummaryColumns(train.classList.names);
    var row := train.AverageResults();
    TrainSummaryIsPrior();
    found := test.LoadAvgDf();
    loaded := test.avgDf;
    written := train.avgDf;
  }
}
