/** The decisions of the pdf report generator (internal/pdf/generator.go): cell text shortening,
    the column labels of a report mode, the counterparty shown per trip, and the volume figures.
    Page layout, fonts and the gofpdf calls are not modelled. */
module PdfGenerator {
  import opened Wrappers
  import opened ReportModel
  import ExcelGenerator

  const Ellipsis: string := "..."

  /** `trim(v, max)`: a value that fits is kept; a longer one is cut to `max` runes, the last three
      of them replaced by "..." when there is room for them. A negative `max` makes the source's
      slice panic, so it is excluded. */
  function TrimToWidth(v: string, max: int): (r: string)
    requires max >= 0
    ensures |r| == (if |v| <= max then |v| else max)
    ensures |v| <= max ==> r == v
    ensures |v| > max && max <= 3 ==> r <= v
    ensures |v| > max && max > 3 ==> r[..max - 3] <= v && r[max - 3..] == Ellipsis
  {
    if |v| <= max then v
    else if max <= 3 then v[..max]
    else v[..max - 3] + Ellipsis
  }

  /** A shortened value is never shortened again. */
  lemma TrimToWidthIdempotent(v: string, max: int)
    requires max >= 0
    ensures TrimToWidth(TrimToWidth(v, max), max) == TrimToWidth(v, max)
  {
  }

  /** A shortened value is a prefix of the original, possibly followed by "...". */
  lemma TrimToWidthKeepsPrefix(v: string, max: int)
    requires max >= 0
    ensures var r := TrimToWidth(v, max);
            r <= v || (|r| >= 3 && r[..|r| - 3] <= v && r[|r| - 3..] == Ellipsis)
  {
  }

  /** `groupLabel`: the groups of a landfill report are contractors; every other mode is read as a
      contractor report, whose groups are landfills. */
  function GroupLabel(mode: ReportMode): (r: string)
    ensures r == "Contractor" <==> mode == LandfillMode
    ensures r == "Landfill" <==> mode != LandfillMode
  {
    if mode == LandfillMode then "Contractor" else "Landfill"
  }

  /** `relatedLabel`: the column naming the counterparty of each trip. */
  function RelatedLabel(mode: ReportMode): (r: string)
    ensures r == "Contractor" <==> mode == LandfillMode
    ensures r == "Landfill" <==> mode != LandfillMode
  {
    if mode == LandfillMode then "Contractor" else "Landfill"
  }

  /** The two generators label groups alike for the two known modes, and differently for any other
      mode (the spreadsheet says "Group", the pdf "Landfill"). */
  lemma GroupLabelsAgreeOnKnownModes(mode: ReportMode)
    ensures (mode == LandfillMode || mode == ContractorMode) <==>
            GroupLabel(mode) == ExcelGenerator.ReportLabels(mode).groupLabel
  {
  }

  /** `relatedName`: the contractor's name in a landfill report, the polygon's name otherwise; a
      missing name reads as "". */
  function RelatedName(mode: ReportMode, trip: TripDetail): (r: string)
    ensures mode == LandfillMode ==> r == OrEmpty(trip.contractorName)
    ensures mode != LandfillMode ==> r == OrEmpty(trip.polygonName)
  {
    OrEmpty(if mode == LandfillMode then trip.contractorName else trip.polygonName)
  }

  /** `floatPtr`: a missing volume prints as zero. */
  function FloatOrZero(v: Option<real>): (r: real)
    ensures v.Some? ==> r == v.value
    ensures v.None? ==> r == 0.0
  {
    v.GetOr(0.0)
  }

  /** The snow volume of a list of trips: the sum of the volumes that are present. */
  function SnowVolume(trips: seq<TripDetail>): real {
    if |trips| == 0 then 0.0
    else SnowVolume(trips[..|trips| - 1]) + FloatOrZero(trips[|trips| - 1].snowVolumeM3)
  }

  /** `sumGroupVolume`: adds the present snow volumes; the mode test at the end returns the same
      total on both branches, so the result does not depend on the mode. */
  method SumGroupVolume(mode: ReportMode, group: TripGroup) returns (total: real)
    ensures total == SnowVolume(group.trips)
  {
    total := 0.0;
    for i := 0 to |group.trips|
      invariant total == SnowVolume(group.trips[..i])
    {
      assert group.trips[..i + 1][..i] == group.trips[..i];
      if group.trips[i].snowVolumeM3.Some? {
        total := total + group.trips[i].snowVolumeM3.value;
      }
    }
    assert group.trips[..|group.trips|] == group.trips;
    if mode == LandfillMode || mode == ContractorMode {
      return total;
    }
    return total;
  }

  /** The summed snow volume of every group of a report. */
  function ReportSnowVolume(groups: seq<TripGroup>): real {
    if |groups| == 0 then 0.0 else ReportSnowVolume(groups[..|groups| - 1]) + SnowVolume(groups[|groups| - 1].trips)
  }

  /** `sumReportVolume`: adds the group volumes. */
  method SumReportVolume(report: ActReport) returns (total: real)
    ensures total == ReportSnowVolume(report.groups)
  {
    total := 0.0;
    for i := 0 to |report.groups|
      invariant total == ReportSnowVolume(report.groups[..i])
    {
      assert report.groups[..i + 1][..i] == report.groups[..i];
      var v := SumGroupVolume(report.mode, report.groups[i]);
      total := total + v;
    }
    assert report.groups[..|report.groups|] == report.groups;
  }

  /** Where every trip's snow volume is the volume the spreadsheet computes for it, the two
      generators print the same group totals. */
  lemma {:induction false} GroupTotalsAgree(trips: seq<TripDetail>)
    requires forall i :: 0 <= i < |trips| ==> trips[i].snowVolumeM3 == ExcelGenerator.TripVolume(trips[i])
    ensures SnowVolume(trips) == ExcelGenerator.GroupVolume(trips)
    decreases |trips|
  {
    if |trips| > 0 {
      GroupTotalsAgree(trips[..|trips| - 1]);
    }
  }

  /** The groups that get a detail page: those with at least one trip, in report order. */
  function DetailPageGroups(groups: seq<TripGroup>): (r: seq<TripGroup>)
    ensures |r| <= |groups|
    ensures forall g :: g in r <==> g in groups && |g.trips| > 0
  {
    if |groups| == 0 then []
    else
      var rest := DetailPageGroups(groups[..|groups| - 1]);
      var last := groups[|groups| - 1];
      assert groups == groups[..|groups| - 1] + [last];
      if |last.trips| > 0 then rest + [last] else rest
  }

  /** Selecting detail pages keeps the report's order: the pages for a concatenation of groups are
      the pages for the first part followed by those for the second. */
  lemma {:induction false} DetailPageGroupsAppend(a: seq<TripGroup>, b: seq<TripGroup>)
    ensures DetailPageGroups(a + b) == DetailPageGroups(a) + DetailPageGroups(b)
    decreases |b|
  {
    if |b| == 0 {
      assert a + b == a;
    } else {
      var b0 := b[..|b| - 1];
      assert (a + b)[..|a + b| - 1] == a + b0;
      DetailPageGroupsAppend(a, b0);
    }
  }
}
