/** The statistics of app/my-contributions/page.js: `calculateStats` folds the
    user's reports into totals and a per-waste-type breakdown, and the impact card
    shows the total in tonnes. */
module Contributions {
  import opened Js

  /** A fetched report, as far as the statistics read it. */
  datatype ReportView = ReportView(wasteType: string, quantity: Option<real>, creditsEarned: Option<real>)

  /** One breakdown entry. `quantity` is None once an undefined quantity has been
      added, which makes it NaN in JavaScript; the other members use `|| 0`. */
  datatype Entry = Entry(quantity: Option<real>, credits: real, count: nat)

  datatype Stats = Stats(totalCredits: real, totalWaste: real, reportCount: nat, breakdown: map<string, Entry>)

  /** `x + y` where an undefined y makes the sum NaN. */
  function AddOrNaN(x: Option<real>, y: Option<real>): (s: Option<real>)
    ensures s.Some? <==> x.Some? && y.Some?
    ensures s.Some? ==> s.value == x.value + y.value
  {
    if x.Some? && y.Some? then Some(x.value + y.value) else None
  }

  /** The sum of `creditsEarned || 0`. */
  function SumCredits(rs: seq<ReportView>): real {
    if rs == [] then 0.0 else SumCredits(rs[..|rs| - 1]) + OrZero(rs[|rs| - 1].creditsEarned)
  }

  /** The sum of `quantity || 0`. */
  function SumWaste(rs: seq<ReportView>): real {
    if rs == [] then 0.0 else SumWaste(rs[..|rs| - 1]) + OrZero(rs[|rs| - 1].quantity)
  }

  /** How many reports have waste type t. */
  function CountOf(rs: seq<ReportView>, t: string): nat {
    if rs == [] then 0 else CountOf(rs[..|rs| - 1], t) + (if rs[|rs| - 1].wasteType == t then 1 else 0)
  }

  /** The credits of the reports of waste type t. */
  function CreditsOf(rs: seq<ReportView>, t: string): real {
    if rs == [] then 0.0
    else CreditsOf(rs[..|rs| - 1], t) + (if rs[|rs| - 1].wasteType == t then OrZero(rs[|rs| - 1].creditsEarned) else 0.0)
  }

  /** The quantities of the reports of waste type t, added without `|| 0`. */
  function QuantityOf(rs: seq<ReportView>, t: string): Option<real> {
    if rs == [] then Some(0.0)
    else AddOrNaN(QuantityOf(rs[..|rs| - 1], t), if rs[|rs| - 1].wasteType == t then rs[|rs| - 1].quantity else Some(0.0))
  }

  function WasteTypes(rs: seq<ReportView>): set<string> {
    set i | 0 <= i < |rs| :: rs[i].wasteType
  }

  /** The breakdown the page should show: one entry per waste type that occurs. */
  function Breakdown(rs: seq<ReportView>): map<string, Entry> {
    map t | t in WasteTypes(rs) :: Entry(QuantityOf(rs, t), CreditsOf(rs, t), CountOf(rs, t))
  }

  lemma PrefixOfSnoc(rs: seq<ReportView>, r: ReportView)
    ensures (rs + [r])[..|rs|] == rs
  {
  }

  lemma SumsSnoc(rs: seq<ReportView>, r: ReportView)
    ensures SumCredits(rs + [r]) == SumCredits(rs) + OrZero(r.creditsEarned)
    ensures SumWaste(rs + [r]) == SumWaste(rs) + OrZero(r.quantity)
  {
    PrefixOfSnoc(rs, r);
  }

  /** Adding one report to the fold updates exactly its own waste type's entry. */
  lemma BreakdownSnoc(rs: seq<ReportView>, r: ReportView)
    ensures Breakdown(rs + [r]) == Breakdown(rs)[r.wasteType := Stepped(Breakdown(rs), r)]
  {
    var rs' := rs + [r];
    PrefixOfSnoc(rs, r);
    assert WasteTypes(rs') == WasteTypes(rs) + {r.wasteType} by {
      forall t | t in WasteTypes(rs')
        ensures t in WasteTypes(rs) + {r.wasteType}
      {
        var i :| 0 <= i < |rs'| && rs'[i].wasteType == t;
        if i < |rs| {
          assert rs[i] == rs'[i];
        }
      }
      forall t | t in WasteTypes(rs)
        ensures t in WasteTypes(rs')
      {
        var i :| 0 <= i < |rs| && rs[i].wasteType == t;
        assert rs'[i] == rs[i];
      }
      assert rs'[|rs|] == r;
    }
    if r.wasteType !in WasteTypes(rs) {
      NeverSeen(rs, r.wasteType);
    }
  }

  /** A waste type that does not occur has nothing counted against it. */
  lemma {:induction false} NeverSeen(rs: seq<ReportView>, t: string)
    requires t !in WasteTypes(rs)
    ensures CountOf(rs, t) == 0 && CreditsOf(rs, t) == 0.0 && QuantityOf(rs, t) == Some(0.0)
  {
    if rs != [] {
      var init := rs[..|rs| - 1];
      assert WasteTypes(init) <= WasteTypes(rs) by {
        forall u | u in WasteTypes(init) ensures u in WasteTypes(rs) {
          var i :| 0 <= i < |init| && init[i].wasteType == u;
          assert rs[i] == init[i];
        }
      }
      assert rs[|rs| - 1].wasteType in WasteTypes(rs);
      NeverSeen(init, t);
    }
  }

  /** `calculateStats`: one pass over the reports, updating the running totals and
      the breakdown entry of each report's waste type in place. */
  method CalculateStats(reports: seq<ReportView>) returns (stats: Stats)
    ensures stats.totalCredits == RoundTenth(SumCredits(reports))
    ensures stats.totalWaste == RoundTenth(SumWaste(reports))
    ensures stats.reportCount == |reports|
    ensures stats.breakdown == Breakdown(reports)
  {
    var totalCredits := 0.0;
    var totalWaste := 0.0;
    var breakdown: map<string, Entry> := map[];
    for i := 0 to |reports|
      invariant totalCredits == SumCredits(reports[..i])
      invariant totalWaste == SumWaste(reports[..i])
      invariant breakdown == Breakdown(reports[..i])
    {
      var report := reports[i];
      ghost var done := reports[..i];
      SumsSnoc(done, report);
      BreakdownSnoc(done, report);
      totalCredits := totalCredits + OrZero(report.creditsEarned);
      totalWaste := totalWaste + OrZero(report.quantity);
      breakdown := AddToBreakdown(breakdown, report);
      assert reports[..i + 1] == done + [report];
    }
    assert reports[..|reports|] == reports;
    stats := Stats(RoundTenth(totalCredits), RoundTenth(totalWaste), |reports|, breakdown);
  }

  /** The body of the `forEach` for the breakdown: create the entry of the report's
      waste type if it is missing, then add the report to it. */
  method AddToBreakdown(breakdown: map<string, Entry>, report: ReportView) returns (updated: map<string, Entry>)
    ensures updated == breakdown[report.wasteType := Stepped(breakdown, report)]
  {
    updated := breakdown;
    if report.wasteType !in updated {
      updated := updated[report.wasteType := Entry(Some(0.0), 0.0, 0)];
    }
    var e := updated[report.wasteType];
    updated := updated[report.wasteType := Entry(AddOrNaN(e.quantity, report.quantity),
                                                 e.credits + OrZero(report.creditsEarned), e.count + 1)];
  }

  /** The breakdown has a key for exactly the waste types that occur. */
  lemma BreakdownKeys(rs: seq<ReportView>, t: string)
    ensures t in Breakdown(rs) <==> exists i :: 0 <= i < |rs| && rs[i].wasteType == t
    ensures t in Breakdown(rs) ==> Breakdown(rs)[t].count >= 1
  {
    if t in Breakdown(rs) {
      var i :| 0 <= i < |rs| && rs[i].wasteType == t;
      CountPositive(rs, i);
    }
  }

  lemma {:induction false} CountPositive(rs: seq<ReportView>, i: nat)
    requires i < |rs|
    ensures CountOf(rs, rs[i].wasteType) >= 1
  {
    if i < |rs| - 1 {
      var init := rs[..|rs| - 1];
      assert init[i] == rs[i];
      CountPositive(init, i);
    }
  }

  /** The sum of f over the entries of a breakdown (the keys are taken in an
      arbitrary order; the sum does not depend on it, see TotalRemove). */
  ghost function Total(m: map<string, Entry>, f: Entry -> real): real
    decreases |m.Keys|
  {
    if m.Keys == {} then 0.0
    else
      var k :| k in m.Keys;
      f(m[k]) + Total(m - {k}, f)
  }

  /** Any key can be taken out first. */
  lemma {:induction false} TotalRemove(m: map<string, Entry>, f: Entry -> real, k: string)
    requires k in m
    ensures Total(m, f) == f(m[k]) + Total(m - {k}, f)
    decreases |m.Keys|
  {
    var k' :| k' in m.Keys && Total(m, f) == f(m[k']) + Total(m - {k'}, f);
    if k' != k {
      assert (m - {k'})[k] == m[k];
      assert (m - {k})[k'] == m[k'];
      assert |(m - {k'}).Keys| < |m.Keys| by {
        assert (m - {k'}).Keys == m.Keys - {k'};
      }
      TotalRemove(m - {k'}, f, k);
      assert |(m - {k}).Keys| < |m.Keys| by {
        assert (m - {k}).Keys == m.Keys - {k};
      }
      TotalRemove(m - {k}, f, k');
      assert (m - {k'}) - {k} == (m - {k}) - {k'};
    }
  }

  /** Replacing or adding the entry under k changes the total by the difference. */
  lemma TotalUpdate(m: map<string, Entry>, f: Entry -> real, k: string, e: Entry)
    ensures Total(m[k := e], f) == Total(m, f) - (if k in m then f(m[k]) else 0.0) + f(e)
  {
    TotalRemove(m[k := e], f, k);
    assert m[k := e] - {k} == m - {k};
    if k in m {
      TotalRemove(m, f, k);
    } else {
      assert m - {k} == m;
    }
  }

  function EntryCount(e: Entry): real {
    e.count as real
  }

  function EntryCredits(e: Entry): real {
    e.credits
  }

  function EntryQuantity(e: Entry): real {
    e.quantity.GetOr(0.0)
  }

  /** The entry a report's own waste type gets when the report is folded in. */
  function Stepped(b: map<string, Entry>, r: ReportView): Entry {
    var e := if r.wasteType in b then b[r.wasteType] else Entry(Some(0.0), 0.0, 0);
    Entry(AddOrNaN(e.quantity, r.quantity), e.credits + OrZero(r.creditsEarned), e.count + 1)
  }

  lemma CountStep(rs: seq<ReportView>, r: ReportView)
    ensures Total(Breakdown(rs + [r]), EntryCount) == Total(Breakdown(rs), EntryCount) + 1.0
  {
    BreakdownSnoc(rs, r);
    TotalUpdate(Breakdown(rs), EntryCount, r.wasteType, Stepped(Breakdown(rs), r));
  }

  lemma CreditsStep(rs: seq<ReportView>, r: ReportView)
    ensures Total(Breakdown(rs + [r]), EntryCredits) == Total(Breakdown(rs), EntryCredits) + OrZero(r.creditsEarned)
  {
    BreakdownSnoc(rs, r);
    TotalUpdate(Breakdown(rs), EntryCredits, r.wasteType, Stepped(Breakdown(rs), r));
  }

  lemma QuantityStep(rs: seq<ReportView>, r: ReportView)
    requires r.quantity.Some?
    requires forall t :: t in Breakdown(rs) ==> Breakdown(rs)[t].quantity.Some?
    ensures forall t :: t in Breakdown(rs + [r]) ==> Breakdown(rs + [r])[t].quantity.Some?
    ensures Total(Breakdown(rs + [r]), EntryQuantity) == Total(Breakdown(rs), EntryQuantity) + r.quantity.value
  {
    BreakdownSnoc(rs, r);
    TotalUpdate(Breakdown(rs), EntryQuantity, r.wasteType, Stepped(Breakdown(rs), r));
  }

  /** The per-type counts add up to the number of reports, and the per-type credits
      to the total credits. */
  lemma {:induction false} BreakdownTotals(rs: seq<ReportView>)
    ensures Total(Breakdown(rs), EntryCount) == |rs| as real
    ensures Total(Breakdown(rs), EntryCredits) == SumCredits(rs)
  {
    if rs == [] {
      assert Breakdown(rs) == map[];
    } else {
      var init, r := rs[..|rs| - 1], rs[|rs| - 1];
      assert rs == init + [r];
      BreakdownTotals(init);
      CountStep(init, r);
      CreditsStep(init, r);
      SumsSnoc(init, r);
    }
  }

  /** When every report has a quantity (the schema requires one), no entry is NaN
      and the per-type quantities add up to the total waste. */
  lemma {:induction false} BreakdownQuantities(rs: seq<ReportView>)
    requires forall i :: 0 <= i < |rs| ==> rs[i].quantity.Some?
    ensures forall t :: t in Breakdown(rs) ==> Breakdown(rs)[t].quantity.Some?
    ensures Total(Breakdown(rs), EntryQuantity) == SumWaste(rs)
  {
    if rs == [] {
      assert Breakdown(rs) == map[];
    } else {
      var init, r := rs[..|rs| - 1], rs[|rs| - 1];
      assert rs == init + [r];
      assert forall i :: 0 <= i < |init| ==> init[i] == rs[i];
      BreakdownQuantities(init);
      QuantityStep(init, r);
      SumsSnoc(init, r);
    }
  }

  /** A report without a quantity adds 0 to the total but turns its type's entry
      into NaN. */
  lemma MissingQuantityIsNaN(t: string)
    ensures var rs := [ReportView(t, None, Some(2.0))];
            SumWaste(rs) == 0.0 && Breakdown(rs)[t].quantity.None?
  {
    var rs := [ReportView(t, None, Some(2.0))];
    assert rs[..0] == [];
    assert rs[0].wasteType == t;
  }

  /** The impact card: `Math.round((totalWaste / 1000) * 100) / 100` tonnes. */
  function ImpactTons(totalWaste: real): (tons: real)
    ensures (tons * 100.0).Floor as real == tons * 100.0
    ensures totalWaste / 1000.0 - 0.005 < tons <= totalWaste / 1000.0 + 0.005
    ensures totalWaste >= 0.0 ==> tons >= 0.0
  {
    MathRoundMonotone(0.0, if totalWaste >= 0.0 then totalWaste / 1000.0 * 100.0 else 0.0);
    RoundHundredth(totalWaste / 1000.0)
  }
}
