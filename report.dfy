/**
 * Reading the parsed analysis report the way the retriever and the
 * ideal-call prompt builder do: `report.get('kpi_analysis', [])` filtered
 * to the items whose `status` is `"Not Met"`, and
 * `report.get('overall_assessment', {}).get('mistakes_and_improvement_areas', [])`.
 */
module Report {
  import opened Common
  import opened Json

  /** The `status` value that marks a missed KPI. */
  const NotMetStatus: string := "Not Met"

  /** `item.get('status') == 'Not Met'` for an item of `kpi_analysis`. */
  predicate IsNotMet(item: Json) {
    item.Obj? && Get(item.members, "status") == Some(Str(NotMetStatus))
  }

  /**
   * An item the comprehension can read without raising: a dict, and when it
   * is a missed KPI, one with a `kpi` key (`item['kpi']` raises `KeyError`
   * otherwise). The `kpi` value itself may be of any type.
   */
  predicate ItemReadable(item: Json) {
    item.Obj? && (IsNotMet(item) ==> Get(item.members, "kpi").Some?)
  }

  /**
   * A `kpi_analysis` value the comprehension can iterate: a list of items as
   * above, or an empty string or dict (iterating either yields nothing).
   */
  predicate KpiAnalysisReadable(k: Json) {
    k == Str("") || k == Obj([]) || (k.Arr? && forall i :: 0 <= i < |k.items| ==> ItemReadable(k.items[i]))
  }

  /**
   * An `overall_assessment` value: a dict whose areas, when present, are a
   * list (`mistakes + missed_kpis` raises `TypeError` otherwise). The listed
   * values may be of any type.
   */
  predicate AssessmentReadable(a: Json) {
    a.Obj? && GetOr(a.members, "mistakes_and_improvement_areas", Arr([])).Arr?
  }

  /** A report from which the retriever builds its search values without raising. */
  predicate ReportReadable(report: Json) {
    && report.Obj?
    && AssessmentReadable(GetOr(report.members, "overall_assessment", Obj([])))
    && KpiAnalysisReadable(GetOr(report.members, "kpi_analysis", Arr([])))
  }

  /** What iterating `report.get('kpi_analysis', [])` yields. */
  function KpiItems(report: Json): (r: seq<Json>)
    requires ReportReadable(report)
    ensures forall i :: 0 <= i < |r| ==> ItemReadable(r[i])
    ensures Get(report.members, "kpi_analysis").None? ==> r == []
  {
    var k := GetOr(report.members, "kpi_analysis", Arr([]));
    if k.Arr? then k.items else []
  }

  /** `item['kpi']` of a missed item. */
  function KpiValue(item: Json): Json
    requires ItemReadable(item) && IsNotMet(item)
  {
    Get(item.members, "kpi").value
  }

  /** `[item['kpi'] for item in items if item.get('status') == 'Not Met']`. */
  function MissedKpis(items: seq<Json>): (r: seq<Json>)
    requires forall i :: 0 <= i < |items| ==> ItemReadable(items[i])
    ensures |r| <= |items|
  {
    if items == [] then []
    else
      var rest := MissedKpis(items[1..]);
      if IsNotMet(items[0]) then [KpiValue(items[0])] + rest else rest
  }

  /** The `kpi` value of every `Not Met` item is in the comprehension. */
  lemma {:induction false} MissedKpisKeepsNotMet(items: seq<Json>, i: int)
    requires forall k :: 0 <= k < |items| ==> ItemReadable(items[k])
    requires 0 <= i < |items| && IsNotMet(items[i])
    ensures KpiValue(items[i]) in MissedKpis(items)
  {
    if i > 0 {
      var tail := items[1..];
      assert tail[i - 1] == items[i];
      MissedKpisKeepsNotMet(tail, i - 1);
    }
  }

  /** Everything in the comprehension is the `kpi` value of a `Not Met` item. */
  lemma {:induction false} MissedKpisOnlyNotMet(items: seq<Json>, x: Json)
    requires forall k :: 0 <= k < |items| ==> ItemReadable(items[k])
    requires x in MissedKpis(items)
    ensures exists i :: 0 <= i < |items| && IsNotMet(items[i]) && KpiValue(items[i]) == x
  {
    if !(IsNotMet(items[0]) && x == KpiValue(items[0])) {
      var tail := items[1..];
      assert forall k :: 0 <= k < |tail| ==> tail[k] == items[k + 1];
      MissedKpisOnlyNotMet(tail, x);
      var j :| 0 <= j < |tail| && IsNotMet(tail[j]) && KpiValue(tail[j]) == x;
      assert items[j + 1] == tail[j];
    }
  }

  /** The comprehension is empty exactly when no item is `Not Met`. */
  lemma MissedKpisEmpty(items: seq<Json>)
    requires forall k :: 0 <= k < |items| ==> ItemReadable(items[k])
    ensures (forall i :: 0 <= i < |items| ==> !IsNotMet(items[i])) <==> MissedKpis(items) == []
  {
    if MissedKpis(items) != [] {
      MissedKpisOnlyNotMet(items, MissedKpis(items)[0]);
    }
    if i :| 0 <= i < |items| && IsNotMet(items[i]) {
      MissedKpisKeepsNotMet(items, i);
    }
  }

  /** The comprehension keeps report order: filtering a concatenation concatenates the results. */
  lemma {:induction false} MissedKpisAppend(a: seq<Json>, b: seq<Json>)
    requires forall i :: 0 <= i < |a| ==> ItemReadable(a[i])
    requires forall i :: 0 <= i < |b| ==> ItemReadable(b[i])
    ensures MissedKpis(a + b) == MissedKpis(a) + MissedKpis(b)
  {
    if a == [] {
      assert a + b == b;
    } else {
      var ab, tail := a + b, a[1..];
      assert ab[0] == a[0];
      assert ab[1..] == tail + b;
      assert forall k :: 0 <= k < |tail| ==> tail[k] == a[k + 1];
      MissedKpisAppend(tail, b);
    }
  }

  /** The missed KPIs of a report. */
  function ReportMissedKpis(report: Json): (r: seq<Json>)
    requires ReportReadable(report)
    ensures Get(report.members, "kpi_analysis").None? ==> r == []
  {
    MissedKpis(KpiItems(report))
  }

  /** `report.get('overall_assessment', {}).get('mistakes_and_improvement_areas', [])`. */
  function ImprovementAreas(report: Json): (r: seq<Json>)
    requires ReportReadable(report)
    ensures Get(report.members, "overall_assessment").None? ==> r == []
    ensures var a := GetOr(report.members, "overall_assessment", Obj([]));
            Get(a.members, "mistakes_and_improvement_areas").None? ==> r == []
    ensures var a := GetOr(report.members, "overall_assessment", Obj([]));
            Get(a.members, "mistakes_and_improvement_areas").Some? ==>
              Get(a.members, "mistakes_and_improvement_areas") == Some(Arr(r))
  {
    var a := GetOr(report.members, "overall_assessment", Obj([]));
    GetOr(a.members, "mistakes_and_improvement_areas", Arr([])).items
  }

  /** `mistakes + missed_kpis`: the values the retriever searches, areas first. */
  function SearchItems(report: Json): seq<Json>
    requires ReportReadable(report)
  {
    ImprovementAreas(report) + ReportMissedKpis(report)
  }

  /** A report whose search values are all strings: the shape the analysis prompt asks for. */
  predicate ReportShaped(report: Json) {
    ReportReadable(report) && forall i :: 0 <= i < |SearchItems(report)| ==> SearchItems(report)[i].Str?
  }

  /** A report with neither key gives nothing to search. */
  lemma NoKeysNoSearchItems(report: Json)
    requires ReportReadable(report)
    requires Get(report.members, "overall_assessment").None? && Get(report.members, "kpi_analysis").None?
    ensures SearchItems(report) == []
  {
  }
}
