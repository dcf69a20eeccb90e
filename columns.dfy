/**
  Result rows and their column names. `calculate_results` and `average_results`
  fill a row (a Python dict) by groups: for one metric family and one metric kind
  they loop over the class list and set `{Family}_{ClassName}_{MetricKind}`.
  The family and kind are typed here; `Label` renders them as the source does.
*/
module ColumnLabels {
  import opened Wrappers
  import opened MetricKernels

  /** A cell of a results table. */
  datatype Value =
    | Real(x: real)                 // a float metric value
    | NaN                           // NumPy's NaN; also what pandas puts in a cell a row lacks
    | Int(n: int)                   // the `Epoch` column
    | Text(s: string)               // caller-supplied entries of `info`, such as a sample name
    | MeanStd(samples: seq<Value>)  // the "mean ± std" string of one column; its rendering is not modelled

  /** One dict: column name to cell. */
  type Row = map<string, Value>

  datatype Family = Reg | Rigid | Seg
  datatype Kind = Dice | HD95 | Displacement

  function FamilyName(f: Family): string
  {
    match f
    case Reg => "Reg"
    case Rigid => "Rigid"
    case Seg => "Seg"
  }

  function KindName(k: Kind): string
  {
    match k
    case Dice => "Dice"
    case HD95 => "HD95"
    case Displacement => "Displacement"
  }

  /** The column `{Family}_{ClassName}_{MetricKind}`. */
  function Label(f: Family, className: string, k: Kind): string
  {
    FamilyName(f) + "_" + className + "_" + KindName(k)
  }

  /** The summary table's leading column in train mode. */
  const EPOCH := "Epoch"

  /** Where the parts of `p + "_" + n + "_" + q` sit. */
  lemma JoinChars(p: string, n: string, q: string)
    requires |p| >= 2 && |q| >= 1
    ensures var s := p + "_" + n + "_" + q;
            && |s| == |p| + |n| + |q| + 2
            && s[0] == p[0] && s[1] == p[1]
            && s[|s| - 1] == q[|q| - 1]
            && forall i :: 0 <= i < |n| ==> s[|p| + 1 + i] == n[i]
  {
    var a := p + "_";
    var b := a + n;
    var c := b + "_";
    var s := c + q;
    assert s[|s| - 1] == q[|q| - 1];
    assert s[0] == c[0] == b[0] == a[0];
    assert s[1] == c[1] == b[1] == a[1];
    forall i | 0 <= i < |n| ensures s[|p| + 1 + i] == n[i] {
      assert s[|a| + i] == c[|a| + i] == b[|a| + i];
    }
  }

  lemma LabelChars(f: Family, n: string, k: Kind)
    ensures var s, p, q := Label(f, n, k), FamilyName(f), KindName(k);
            && |s| == |p| + |n| + |q| + 2
            && s[0] == p[0] && s[1] == p[1]
            && s[|s| - 1] == q[|q| - 1]
            && forall i :: 0 <= i < |n| ==> s[|p| + 1 + i] == n[i]
  {
    var p, q := FamilyName(f), KindName(k);
    assert |p| >= 2 && |q| >= 1;
    JoinChars(p, n, q);
  }

  lemma FamilyByPrefix(f1: Family, f2: Family)
    requires FamilyName(f1)[0] == FamilyName(f2)[0] && FamilyName(f1)[1] == FamilyName(f2)[1]
    ensures f1 == f2
  {
  }

  lemma KindBySuffix(k1: Kind, k2: Kind)
    requires var q1, q2 := KindName(k1), KindName(k2); q1[|q1| - 1] == q2[|q2| - 1]
    ensures k1 == k2
  {
  }

  lemma LabelFamilyKind(f1: Family, n1: string, k1: Kind, f2: Family, n2: string, k2: Kind)
    requires Label(f1, n1, k1) == Label(f2, n2, k2)
    ensures f1 == f2 && k1 == k2
  {
    LabelChars(f1, n1, k1);
    LabelChars(f2, n2, k2);
    FamilyByPrefix(f1, f2);
    KindBySuffix(k1, k2);
  }

  lemma LabelClass(f: Family, n1: string, k: Kind, n2: string)
    requires Label(f, n1, k) == Label(f, n2, k)
    ensures n1 == n2
  {
    LabelChars(f, n1, k);
    LabelChars(f, n2, k);
    var p, s1 := FamilyName(f), Label(f, n1, k);
    assert |n1| == |n2|;
    forall i | 0 <= i < |n1| ensures n1[i] == n2[i] {
      assert n1[i] == s1[|p| + 1 + i];
    }
  }

  /** The string labels never clash: each one names a single (family, class, kind). */
  lemma LabelInjective(f1: Family, n1: string, k1: Kind, f2: Family, n2: string, k2: Kind)
    ensures Label(f1, n1, k1) == Label(f2, n2, k2) ==> f1 == f2 && n1 == n2 && k1 == k2
  {
    if Label(f1, n1, k1) == Label(f2, n2, k2) {
      LabelFamilyKind(f1, n1, k1, f2, n2, k2);
      LabelClass(f1, n1, k1, n2);
    }
  }

  lemma EpochIsNotALabel(f: Family, n: string, k: Kind)
    ensures Label(f, n, k) != EPOCH
  {
    assert Label(f, n, k)[0] == FamilyName(f)[0];
  }

  function Metric(s: Score): Value
  {
    match s
    case Some(x) => Real(x)
    case None => NaN
  }

  function Metrics(scores: seq<Score>): seq<Value>
  {
    seq(|scores|, i requires 0 <= i < |scores| => Metric(scores[i]))
  }

  /** Every column of the given (family, kind) groups, for every class name. */
  function Columns(names: seq<string>, groups: seq<(Family, Kind)>): set<string>
  {
    set g, n | g in groups && n in names :: Label(g.0, n, g.1)
  }

  lemma ColumnsMember(names: seq<string>, groups: seq<(Family, Kind)>, f: Family, n: string, k: Kind)
    ensures Label(f, n, k) in Columns(names, groups) <==> n in names && (f, k) in groups
  {
    if Label(f, n, k) in Columns(names, groups) {
      var g, n' :| g in groups && n' in names && Label(g.0, n', g.1) == Label(f, n, k);
      LabelInjective(g.0, n', g.1, f, n, k);
    }
  }

  lemma ColumnsSnoc(names: seq<string>, groups: seq<(Family, Kind)>, g: (Family, Kind))
    ensures Columns(names, groups + [g]) == Columns(names, groups) + Columns(names, [g])
  {
    var a, b, c := Columns(names, groups + [g]), Columns(names, groups), Columns(names, [g]);
    forall key | key in a ensures key in b + c {
      var g', n :| g' in groups + [g] && n in names && Label(g'.0, n, g'.1) == key;
      if g' == g { assert g' in [g]; } else { assert g' in groups; }
    }
    forall key | key in b + c ensures key in a {
      if key in b {
        var g', n :| g' in groups && n in names && Label(g'.0, n, g'.1) == key;
        assert g' in groups + [g];
      } else {
        var g', n :| g' in [g] && n in names && Label(g'.0, n, g'.1) == key;
        assert g' in groups + [g];
      }
    }
  }

  /** `names[i]` is the last occurrence of that class name. */
  predicate LastOccurrence(names: seq<string>, i: int)
    requires 0 <= i < |names|
  {
    forall l :: i < l < |names| ==> names[l] != names[i]
  }

  /** One of the source's loops: `row[Label(f, names[i], k)] = vals[i]` for i = 0, 1, ... in turn. */
  function PutColumns(m: Row, f: Family, names: seq<string>, k: Kind, vals: seq<Value>): Row
    requires |names| <= |vals|
    decreases |names|
  {
    if |names| == 0 then m
    else PutColumns(m, f, names[..|names| - 1], k, vals)[Label(f, names[|names| - 1], k) := vals[|names| - 1]]
  }

  lemma ColumnsNameSnoc(init: seq<string>, n: string, g: (Family, Kind))
    ensures Columns(init + [n], [g]) == Columns(init, [g]) + {Label(g.0, n, g.1)}
  {
    var lhs, rhs := Columns(init + [n], [g]), Columns(init, [g]) + {Label(g.0, n, g.1)};
    forall key | key in lhs ensures key in rhs {
      var g', n' :| g' in [g] && n' in init + [n] && Label(g'.0, n', g'.1) == key;
      if n' != n { assert n' in init; }
    }
    forall key | key in rhs ensures key in lhs {
      if key in Columns(init, [g]) {
        var g', n' :| g' in [g] && n' in init && Label(g'.0, n', g'.1) == key;
        assert n' in init + [n];
      } else {
        assert g in [g] && n in init + [n];
      }
    }
  }

  /** One loop adds exactly the group's columns. */
  lemma {:induction false} PutColumnsKeys(m: Row, f: Family, names: seq<string>, k: Kind, vals: seq<Value>)
    requires |names| <= |vals|
    ensures PutColumns(m, f, names, k, vals).Keys == m.Keys + Columns(names, [(f, k)])
    decreases |names|
  {
    if |names| == 0 {
      assert Columns(names, [(f, k)]) == {};
    } else {
      var last := |names| - 1;
      var init := names[..last];
      assert names == init + [names[last]];
      PutColumnsKeys(m, f, init, k, vals);
      ColumnsNameSnoc(init, names[last], (f, k));
    }
  }

  /** One loop keeps every entry outside the group's columns. */
  lemma {:induction false} PutColumnsKeeps(m: Row, f: Family, names: seq<string>, k: Kind, vals: seq<Value>)
    requires |names| <= |vals|
    ensures forall key :: key in m && key !in Columns(names, [(f, k)]) ==>
              key in PutColumns(m, f, names, k, vals) && PutColumns(m, f, names, k, vals)[key] == m[key]
    decreases |names|
  {
    if |names| > 0 {
      var last := |names| - 1;
      var init := names[..last];
      assert names == init + [names[last]];
      PutColumnsKeeps(m, f, init, k, vals);
      ColumnsNameSnoc(init, names[last], (f, k));
    }
  }

  /** After one loop, class `names[i]`'s column holds `vals[i]` (for a class name listed
      twice, the later write wins). */
  lemma {:induction false} PutColumnsValues(m: Row, f: Family, names: seq<string>, k: Kind, vals: seq<Value>)
    requires |names| <= |vals|
    ensures forall i :: 0 <= i < |names| && LastOccurrence(names, i) ==>
              Label(f, names[i], k) in PutColumns(m, f, names, k, vals) &&
              PutColumns(m, f, names, k, vals)[Label(f, names[i], k)] == vals[i]
    decreases |names|
  {
    if |names| > 0 {
      var last := |names| - 1;
      var init := names[..last];
      assert names == init + [names[last]];
      PutColumnsValues(m, f, init, k, vals);
      var r := PutColumns(m, f, names, k, vals);
      var before := PutColumns(m, f, init, k, vals);
      assert r == before[Label(f, names[last], k) := vals[last]];
      forall i | 0 <= i < |names| && LastOccurrence(names, i)
        ensures Label(f, names[i], k) in r && r[Label(f, names[i], k)] == vals[i]
      {
        if i < last {
          assert init[i] == names[i];
          assert LastOccurrence(init, i);
          assert names[last] != names[i];
          LabelInjective(f, names[i], k, f, names[last], k);
        }
      }
    }
  }

  /** One loop adds the group's columns, keeps every other entry, and leaves class `names[i]`'s
      column holding `vals[i]` (for a class name listed twice, the later write wins). */
  lemma PutColumnsSpec(m: Row, f: Family, names: seq<string>, k: Kind, vals: seq<Value>)
    requires |names| <= |vals|
    ensures PutColumns(m, f, names, k, vals).Keys == m.Keys + Columns(names, [(f, k)])
    ensures forall key :: key in m && key !in Columns(names, [(f, k)]) ==>
              PutColumns(m, f, names, k, vals)[key] == m[key]
    ensures forall i :: 0 <= i < |names| && LastOccurrence(names, i) ==>
              Label(f, names[i], k) in PutColumns(m, f, names, k, vals) &&
              PutColumns(m, f, names, k, vals)[Label(f, names[i], k)] == vals[i]
  {
    PutColumnsKeys(m, f, names, k, vals);
    PutColumnsKeeps(m, f, names, k, vals);
    PutColumnsValues(m, f, names, k, vals);
  }

  /** The columns a sequence of loops writes, from a map giving each group's values. */
  predicate Fits(names: seq<string>, groups: seq<(Family, Kind)>, vals: map<(Family, Kind), seq<Value>>)
  {
    forall g :: g in groups ==> g in vals && |names| <= |vals[g]|
  }

  /** The loops for `groups`, run in order. */
  function Apply(m: Row, names: seq<string>, groups: seq<(Family, Kind)>, vals: map<(Family, Kind), seq<Value>>): Row
    requires Fits(names, groups, vals)
    decreases |groups|
  {
    if |groups| == 0 then m
    else
      var g := groups[|groups| - 1];
      assert g in groups;
      PutColumns(Apply(m, names, groups[..|groups| - 1], vals), g.0, names, g.1, vals[g])
  }

  lemma ApplySnoc(m: Row, names: seq<string>, groups: seq<(Family, Kind)>, g: (Family, Kind),
                  vals: map<(Family, Kind), seq<Value>>)
    requires Fits(names, groups + [g], vals)
    ensures Fits(names, groups, vals)
    ensures Apply(m, names, groups + [g], vals) == PutColumns(Apply(m, names, groups, vals), g.0, names, g.1, vals[g])
  {
    assert (groups + [g])[..|groups|] == groups;
    assert forall h :: h in groups ==> h in groups + [g];
  }

  /** Running the loops for `a + b` is running those for `a`, then those for `b`. */
  lemma {:induction false} ApplyAppend(m: Row, names: seq<string>, a: seq<(Family, Kind)>, b: seq<(Family, Kind)>,
                                       vals: map<(Family, Kind), seq<Value>>)
    requires Fits(names, a + b, vals)
    ensures Fits(names, a, vals) && Fits(names, b, vals)
    ensures Apply(m, names, a + b, vals) == Apply(Apply(m, names, a, vals), names, b, vals)
    decreases |b|
  {
    assert forall h :: h in a ==> h in a + b;
    assert forall h :: h in b ==> h in a + b;
    if |b| == 0 {
      assert a + b == a;
    } else {
      var init, g := b[..|b| - 1], b[|b| - 1];
      assert b == init + [g];
      assert a + b == (a + init) + [g];
      ApplySnoc(m, names, a + init, g, vals);
      ApplyAppend(m, names, a, init, vals);
      ApplySnoc(Apply(m, names, a, vals), names, init, g, vals);
    }
  }

  /** Running the loops adds exactly their columns. */
  lemma {:induction false} ApplyKeys(m: Row, names: seq<string>, groups: seq<(Family, Kind)>,
                                     vals: map<(Family, Kind), seq<Value>>)
    requires Fits(names, groups, vals)
    ensures Apply(m, names, groups, vals).Keys == m.Keys + Columns(names, groups)
    decreases |groups|
  {
    if |groups| == 0 {
      assert Columns(names, groups) == {};
    } else {
      var init, g := groups[..|groups| - 1], groups[|groups| - 1];
      assert groups == init + [g];
      ApplySnoc(m, names, init, g, vals);
      ApplyKeys(m, names, init, vals);
      PutColumnsSpec(Apply(m, names, init, vals), g.0, names, g.1, vals[g]);
      ColumnsSnoc(names, init, g);
    }
  }

  /** Running the loops keeps every entry that is not one of their columns. */
  lemma {:induction false} ApplyKeeps(m: Row, names: seq<string>, groups: seq<(Family, Kind)>,
                                      vals: map<(Family, Kind), seq<Value>>)
    requires Fits(names, groups, vals)
    ensures forall key :: key in m && key !in Columns(names, groups) ==>
              key in Apply(m, names, groups, vals) && Apply(m, names, groups, vals)[key] == m[key]
    decreases |groups|
  {
    if |groups| > 0 {
      var init, g := groups[..|groups| - 1], groups[|groups| - 1];
      assert groups == init + [g];
      ApplySnoc(m, names, init, g, vals);
      ApplyKeeps(m, names, init, vals);
      PutColumnsSpec(Apply(m, names, init, vals), g.0, names, g.1, vals[g]);
      ColumnsSnoc(names, init, g);
    }
  }

  /** After the loops, each group's column for class `names[i]` holds that group's `i`-th
      value, unless a later class has the same name. */
  lemma {:induction false} ApplyValues(m: Row, names: seq<string>, groups: seq<(Family, Kind)>,
                                       vals: map<(Family, Kind), seq<Value>>)
    requires Fits(names, groups, vals)
    ensures forall f, k, i :: (f, k) in groups && 0 <= i < |names| && LastOccurrence(names, i) ==>
              Label(f, names[i], k) in Apply(m, names, groups, vals) &&
              Apply(m, names, groups, vals)[Label(f, names[i], k)] == vals[(f, k)][i]
    decreases |groups|
  {
    if |groups| > 0 {
      var init, g := groups[..|groups| - 1], groups[|groups| - 1];
      assert groups == init + [g];
      ApplySnoc(m, names, init, g, vals);
      ApplyValues(m, names, init, vals);
      var before := Apply(m, names, init, vals);
      PutColumnsSpec(before, g.0, names, g.1, vals[g]);
      forall f, k, i | (f, k) in groups && 0 <= i < |names| && LastOccurrence(names, i)
        ensures Label(f, names[i], k) in Apply(m, names, groups, vals) &&
                Apply(m, names, groups, vals)[Label(f, names[i], k)] == vals[(f, k)][i]
      {
        if (f, k) != g {
          assert (f, k) in init;
          ColumnsMember(names, [g], f, names[i], k);
        } else {
          assert (g.0, g.1) == g;
        }
      }
    }
  }

  /** Running the loops adds exactly their columns, keeps every other entry, and leaves each
      group's column for class `names[i]` holding that group's `i`-th value. */
  lemma ApplySpec(m: Row, names: seq<string>, groups: seq<(Family, Kind)>, vals: map<(Family, Kind), seq<Value>>)
    requires Fits(names, groups, vals)
    ensures Apply(m, names, groups, vals).Keys == m.Keys + Columns(names, groups)
    ensures forall key :: key in m && key !in Columns(names, groups) ==> Apply(m, names, groups, vals)[key] == m[key]
    ensures forall f, k, i :: (f, k) in groups && 0 <= i < |names| && LastOccurrence(names, i) ==>
              Label(f, names[i], k) in Apply(m, names, groups, vals) &&
              Apply(m, names, groups, vals)[Label(f, names[i], k)] == vals[(f, k)][i]
  {
    ApplyKeys(m, names, groups, vals);
    ApplyKeeps(m, names, groups, vals);
    ApplyValues(m, names, groups, vals);
  }
}
