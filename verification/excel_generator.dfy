/** The decisions of the spreadsheet report generator (internal/excel/generator.go): the labels of
    a report mode, the sheet name given to each counterparty group, and the volume figures of the
    summary and detail sheets. Writing cells through excelize is not modelled; names are taken rune
    by rune, which agrees with the byte slicing of the source for ASCII names. */
module ExcelGenerator {
  import opened Wrappers
  import opened Text
  import opened Domain
  import opened ReportModel

  /** The sheet that holds the report summary; group sheets are added after it. */
  const SummarySheet: string := "Summary"

  /** The fallback name of `sanitizeSheetName`. */
  const DefaultSheet: string := "Sheet"

  /** The spreadsheet limit on sheet-name length. */
  const MaxSheetName: nat := 31

  // ---------------------------------------------------------------------------
  // Labels
  // ---------------------------------------------------------------------------

  /** The label of the report mode and the label of its groups. */
  datatype Labels = Labels(modeLabel: string, groupLabel: string)

  /** `reportLabels`: a landfill report lists its trips by contractor and a contractor report by
      landfill; any other mode is "Unknown", grouped by "Group". */
  function ReportLabels(mode: ReportMode): (r: Labels)
    ensures r.modeLabel != r.groupLabel
    ensures mode == LandfillMode ==> r == Labels("Landfill", "Contractor")
    ensures mode == ContractorMode ==> r == Labels("Contractor", "Landfill")
    ensures mode != LandfillMode && mode != ContractorMode ==> r == Labels("Unknown", "Group")
  {
    if mode == LandfillMode then Labels("Landfill", "Contractor")
    else if mode == ContractorMode then Labels("Contractor", "Landfill")
    else Labels("Unknown", "Group")
  }

  // ---------------------------------------------------------------------------
  // sanitizeSheetName
  // ---------------------------------------------------------------------------

  /** The runes a sheet name may not contain, each replaced by '-'. */
  predicate Forbidden(c: char) {
    c == '[' || c == ']' || c == ':' || c == '*' || c == '?' || c == '/' || c == '\\'
  }

  /** The `strings.NewReplacer` step of `sanitizeSheetName`. */
  function ReplaceForbidden(s: string): (r: string)
    ensures |r| == |s|
    ensures forall k :: 0 <= k < |s| ==> r[k] == (if Forbidden(s[k]) then '-' else s[k])
  {
    seq(|s|, k requires 0 <= k < |s| => if Forbidden(s[k]) then '-' else s[k])
  }

  /** Names `sanitizeSheetName` hands back unchanged. */
  predicate SheetSafe(s: string) {
    s != [] && !IsSpace(s[0]) && !IsSpace(s[|s| - 1]) && forall k :: 0 <= k < |s| ==> !Forbidden(s[k])
  }

  /** `sanitizeSheetName`: trims, falls back to "Sheet" when nothing is left, and replaces every
      forbidden rune by '-'. The result is never empty and has no forbidden rune; the second trim and
      fallback of the source never fire, because a replaced rune is never white space. */
  function SanitizeSheetName(value: string): (r: string)
    ensures SheetSafe(r)
    ensures IsBlank(value) ==> r == DefaultSheet
    ensures !IsBlank(value) ==> r == ReplaceForbidden(TrimSpace(value))
    ensures SheetSafe(value) ==> r == value
  {
    var v := TrimSpace(value);
    if v == [] then DefaultSheet
    else
      var replaced := ReplaceForbidden(v);
      ReplacedIsTrimmed(v);
      ReplaceForbiddenKeepsSafe(value);
      var w := TrimSpace(replaced);
      if w == [] then DefaultSheet else w
  }

  /** Replacement never puts white space at either end of a trimmed name. */
  lemma ReplacedIsTrimmed(v: string)
    requires v != [] && !IsSpace(v[0]) && !IsSpace(v[|v| - 1])
    ensures TrimSpace(ReplaceForbidden(v)) == ReplaceForbidden(v)
    ensures SheetSafe(ReplaceForbidden(v))
  {
    var replaced := ReplaceForbidden(v);
    assert !IsSpace('-');
    assert replaced[0] == v[0] || replaced[0] == '-';
    assert replaced[|replaced| - 1] == v[|v| - 1] || replaced[|replaced| - 1] == '-';
  }

  /** Replacing leaves a name without forbidden runes alone. */
  lemma ReplaceForbiddenKeepsSafe(value: string)
    ensures SheetSafe(value) ==> TrimSpace(value) == value && ReplaceForbidden(value) == value
  {
  }

  /** Sanitizing twice is sanitizing once. */
  lemma SanitizeSheetNameIdempotent(value: string)
    ensures SanitizeSheetName(SanitizeSheetName(value)) == SanitizeSheetName(value)
  {
  }

  // ---------------------------------------------------------------------------
  // buildSheetName
  // ---------------------------------------------------------------------------

  /** No rune of `s` is forbidden. */
  predicate NoForbidden(s: string) {
    forall k :: 0 <= k < |s| ==> !Forbidden(s[k])
  }

  /** The text `buildSheetName` starts from: "<group label> - <trimmed name>", or
      "<group label> - <id>" when the trimmed name is empty. The source's other test (the name part
      missing altogether) can never hold, because the label is always followed by " - ". */
  function BaseText(mode: ReportMode, name: string, id: Uuid): (r: string)
    ensures r == ReportLabels(mode).groupLabel + " - " + (if IsBlank(name) then id.text else TrimSpace(name))
  {
    var groupLabel := ReportLabels(mode).groupLabel;
    var trimmedName := TrimSpace(name);
    var named := groupLabel + " - " + trimmedName;
    assert |named| > |TrimSpace(groupLabel) + " -"|;
    if named == TrimSpace(groupLabel) + " -" || trimmedName == [] then groupLabel + " - " + id.text else named
  }

  /** The first name `buildSheetName` tries: the sanitized base text, cut to the length limit. */
  function SheetBase(mode: ReportMode, name: string, id: Uuid): (r: string)
    ensures 1 <= |r| <= MaxSheetName && NoForbidden(r)
    ensures var clean := SanitizeSheetName(BaseText(mode, name, id));
            r <= clean && |r| == (if |clean| > MaxSheetName then MaxSheetName else |clean|)
  {
    var clean := SanitizeSheetName(BaseText(mode, name, id));
    CutKeepsSafe(clean);
    if |clean| > MaxSheetName then clean[..MaxSheetName] else clean
  }

  /** Cutting a safe name to the limit leaves a non-empty name without forbidden runes. */
  lemma CutKeepsSafe(clean: string)
    requires SheetSafe(clean)
    ensures var r := if |clean| > MaxSheetName then clean[..MaxSheetName] else clean;
            1 <= |r| <= MaxSheetName && NoForbidden(r)
  {
  }

  /** A bound on the counter far above any reachable value; below it the suffix always fits. */
  const CounterBound: nat := Pow10(30)

  /** Counters below the bound have at most 30 digits. */
  lemma CounterDigits(k: nat)
    requires k < CounterBound
    ensures |NatToString(k)| <= 30
  {
    NatToStringLength(k, 30);
  }

  /** The counter suffix of the k-th candidate. */
  function Suffix(k: nat): (r: string)
    ensures |r| == |NatToString(k)| + 1 && r[0] == '-'
  {
    "-" + NatToString(k)
  }

  /** The candidate tried with counter `k`: the base, cut so that the suffix fits the limit, followed
      by "-k". Counters stay far below 10^30 for any finite set of used names. */
  function Candidate(base: string, k: nat): (r: string)
    requires k < CounterBound
    ensures |r| <= MaxSheetName
    ensures NoForbidden(base) ==> NoForbidden(r)
  {
    CounterDigits(k);
    var suffix := Suffix(k);
    var trimmed := if |base| + |suffix| > MaxSheetName then base[..MaxSheetName - |suffix|] else base;
    assert forall k :: 0 <= k < |suffix| ==> suffix[k] == '-' || IsDigit(suffix[k]);
    trimmed + suffix
  }

  /** A candidate is a prefix of the base followed by the whole suffix "-k". */
  lemma CandidateShape(base: string, k: nat)
    requires k < CounterBound
    ensures var r := Candidate(base, k);
            && |r| >= |Suffix(k)|
            && r[|r| - |Suffix(k)|..] == Suffix(k)
            && r[..|r| - |Suffix(k)|] <= base
  {
    CounterDigits(k);
    var suffix := Suffix(k);
    var trimmed := if |base| + |suffix| > MaxSheetName then base[..MaxSheetName - |suffix|] else base;
    assert Candidate(base, k) == trimmed + suffix;
    assert (trimmed + suffix)[..|trimmed|] == trimmed;
  }

  /** Distinct counters give distinct candidates: the digits after the last '-' are the counter. */
  lemma CandidateInjective(base: string, j: nat, k: nat)
    requires j < CounterBound && k < CounterBound
    ensures Candidate(base, j) == Candidate(base, k) ==> j == k
  {
    var cj, ck := Candidate(base, j), Candidate(base, k);
    var dj, dk := NatToString(j), NatToString(k);
    CandidateShape(base, j);
    CandidateShape(base, k);
    if cj == ck {
      var c := cj;
      if |dj| == |dk| {
        assert Suffix(j) == c[|c| - |Suffix(j)|..] == Suffix(k);
        assert dj == Suffix(j)[1..] && dk == Suffix(k)[1..];
        NatToStringInjective(j, k);
      } else {
        // The '-' of the shorter suffix would sit on a digit of the longer one.
        assert false;
      }
    }
  }

  /** The n-th name `buildSheetName` tries: first the base itself, then the candidates 2, 3, …. */
  function Attempt(base: string, n: nat): string
    requires 1 <= n < CounterBound
  {
    if n == 1 then base else Candidate(base, n)
  }

  /** `r` is the first attempt at `base` that is not in `used`. */
  ghost predicate FirstFree(base: string, used: set<string>, r: string) {
    exists n :: 1 <= n < CounterBound && r == Attempt(base, n) && r !in used &&
      forall m :: 1 <= m < n ==> Attempt(base, m) in used
  }

  /** `buildSheetName`: the first of the base name and its numbered candidates that no sheet uses
      yet. The loop ends because the candidates are pairwise distinct and only finitely many names
      are used. */
  method BuildSheetName(mode: ReportMode, name: string, id: Uuid, used: set<string>) returns (r: string)
    requires |used| + 2 < CounterBound
    ensures r !in used
    ensures 1 <= |r| <= MaxSheetName && NoForbidden(r)
    ensures FirstFree(SheetBase(mode, name, id), used, r)
  {
    var base := SheetBase(mode, name, id);
    r := FirstFreeName(base, used);
  }

  /** The search loop of `buildSheetName`: the base if it is free, otherwise the first free
      candidate. */
  method FirstFreeName(base: string, used: set<string>) returns (r: string)
    requires 1 <= |base| <= MaxSheetName && NoForbidden(base)
    requires |used| + 2 < CounterBound
    ensures r !in used
    ensures 1 <= |r| <= MaxSheetName && NoForbidden(r)
    ensures FirstFree(base, used, r)
  {
    if base !in used {
      assert Attempt(base, 1) == base;
      return base;
    }
    assert Attempt(base, 1) == base;
    var counter: nat := 2;
    ghost var tried: set<string> := {};
    while true
      invariant 2 <= counter <= |used| + 2
      invariant TriedCandidates(base, used, tried, counter)
      decreases |used| - |tried|
    {
      var candidate := Candidate(base, counter);
      if candidate !in used {
        assert candidate == Attempt(base, counter);
        return candidate;
      }
      TryNextCandidate(base, used, tried, counter);
      tried := tried + {candidate};
      counter := counter + 1;
    }
  }

  /** What the loop of `buildSheetName` knows after trying the base and the candidates below
      `counter`: all of them are used, and `tried` holds the candidates, one per counter value. */
  ghost predicate TriedCandidates(base: string, used: set<string>, tried: set<string>, counter: nat) {
    && 2 <= counter < CounterBound
    && tried <= used && |tried| == counter - 2
    && (forall m :: 1 <= m < counter ==> Attempt(base, m) in used)
    && (forall c :: c in tried ==> exists m :: 2 <= m < counter && c == Candidate(base, m))
  }

  /** The candidate for a new counter value differs from every candidate tried before it. */
  lemma CandidateIsNew(base: string, tried: set<string>, counter: nat)
    requires counter < CounterBound
    requires forall c :: c in tried ==> exists m :: 2 <= m < counter && c == Candidate(base, m)
    ensures Candidate(base, counter) !in tried
  {
    forall c | c in tried ensures c != Candidate(base, counter) {
      var m :| 2 <= m < counter && c == Candidate(base, m);
      CandidateInjective(base, m, counter);
    }
  }

  /** Adding the candidate for `counter` to the tried set keeps every tried name a candidate below
      the next counter value. */
  lemma TriedStaysCandidates(base: string, tried: set<string>, counter: nat)
    requires 2 <= counter < CounterBound
    requires forall c :: c in tried ==> exists m :: 2 <= m < counter && c == Candidate(base, m)
    ensures forall c :: c in tried + {Candidate(base, counter)} ==>
              exists m :: 2 <= m < counter + 1 && c == Candidate(base, m)
  {
    forall c | c in tried + {Candidate(base, counter)}
      ensures exists m :: 2 <= m < counter + 1 && c == Candidate(base, m)
    {
      if c !in tried {
        assert c == Candidate(base, counter);
      } else {
        var m :| 2 <= m < counter && c == Candidate(base, m);
        assert 2 <= m < counter + 1;
      }
    }
  }

  /** A used candidate is new to `tried`, so one more counter value can be tried while the tried
      candidates still fit in `used`. */
  lemma TryNextCandidate(base: string, used: set<string>, tried: set<string>, counter: nat)
    requires TriedCandidates(base, used, tried, counter) && |used| + 2 < CounterBound
    requires Candidate(base, counter) in used
    ensures counter + 1 <= |used| + 2
    ensures TriedCandidates(base, used, tried + {Candidate(base, counter)}, counter + 1)
  {
    var candidate := Candidate(base, counter);
    CandidateIsNew(base, tried, counter);
    var tried2 := tried + {candidate};
    assert |tried2| == |tried| + 1;
    SubsetCardinality(tried2, used);
    TriedStaysCandidates(base, tried, counter);
    assert counter + 1 < CounterBound;
    forall m | 1 <= m < counter + 1 ensures Attempt(base, m) in used {
      if m == counter {
        assert Attempt(base, m) == candidate;
      }
    }
  }

  /** A subset is no larger than its superset. */
  lemma {:induction false} SubsetCardinality<T>(a: set<T>, b: set<T>)
    requires a <= b
    ensures |a| <= |b|
    decreases |a|
  {
    if a != {} {
      var x :| x in a;
      SubsetCardinality(a - {x}, b - {x});
    }
  }

  /** Sheet names as the used-names loop leaves them: distinct, none of them "Summary", and within
      the length limit. */
  ghost predicate DistinctSheetNames(names: seq<string>) {
    && (forall i :: 0 <= i < |names| ==> names[i] != SummarySheet && 1 <= |names[i]| <= MaxSheetName)
    && (forall i, j :: 0 <= i < j < |names| ==> names[i] != names[j])
  }

  /** Adding a name that neither the summary nor any earlier sheet uses keeps the names distinct. */
  lemma AddFreeName(names: seq<string>, name: string)
    requires DistinctSheetNames(names)
    requires name != SummarySheet && name !in names && 1 <= |name| <= MaxSheetName
    ensures DistinctSheetNames(names + [name])
  {
    var names2 := names + [name];
    forall k, j | 0 <= k < j < |names2| ensures names2[k] != names2[j] {
      if j == |names| {
        assert names2[k] == names[k] && names[k] in names;
      }
    }
  }

  /** One turn of the used-names loop: the group's sheet name, which no sheet uses yet. */
  method NameGroupSheet(mode: ReportMode, group: TripGroup, used: set<string>) returns (name: string)
    requires |used| + 2 < CounterBound
    ensures name !in used && 1 <= |name| <= MaxSheetName && NoForbidden(name)
  {
    name := BuildSheetName(mode, group.name, group.id, used);
  }

  /** The used-names loop of `Generate`: every group sheet gets the first free name after the summary
      and the sheets named before it, so all sheet names are distinct and none is "Summary". */
  method AssignSheetNames(mode: ReportMode, groups: seq<TripGroup>) returns (names: seq<string>)
    requires |groups| + 2 < CounterBound
    ensures |names| == |groups|
    ensures forall i :: 0 <= i < |names| ==> names[i] != SummarySheet && 1 <= |names[i]| <= MaxSheetName
    ensures forall i, j :: 0 <= i < j < |names| ==> names[i] != names[j]
  {
    var used: set<string> := {SummarySheet};
    names := [];
    for i := 0 to |groups|
      invariant |names| == i
      invariant SummarySheet in used && |used| <= i + 1
      invariant forall k :: 0 <= k < i ==> names[k] in used
      invariant DistinctSheetNames(names)
    {
      var name := NameGroupSheet(mode, groups[i], used);
      AddFreeName(names, name);
      names := names + [name];
      used := used + {name};
    }
  }

  // ---------------------------------------------------------------------------
  // Volumes and cell values
  // ---------------------------------------------------------------------------

  /** `computeTripVolume`: the measured total when present, else the volume detected at entry, else
      the volume detected at exit, else no volume. The report mode is not consulted. */
  function TripVolume(trip: TripDetail): (r: Option<real>)
    ensures r.None? <==> trip.totalVolumeM3.None? && trip.detectedVolumeEntry.None? && trip.detectedVolumeExit.None?
    ensures trip.totalVolumeM3.Some? ==> r == trip.totalVolumeM3
    ensures trip.totalVolumeM3.None? && trip.detectedVolumeEntry.Some? ==> r == trip.detectedVolumeEntry
    ensures trip.totalVolumeM3.None? && trip.detectedVolumeEntry.None? ==> r == trip.detectedVolumeExit
  {
    if trip.totalVolumeM3.Some? then trip.totalVolumeM3
    else if trip.detectedVolumeEntry.Some? then trip.detectedVolumeEntry
    else trip.detectedVolumeExit
  }

  /** The volume of a list of trips: the sum of the volumes that are present. */
  function GroupVolume(trips: seq<TripDetail>): real {
    if |trips| == 0 then 0.0
    else GroupVolume(trips[..|trips| - 1]) + TripVolume(trips[|trips| - 1]).GetOr(0.0)
  }

  /** `sumGroupVolume`: adds the present trip volumes of a group. */
  method SumGroupVolume(group: TripGroup) returns (total: real)
    ensures total == GroupVolume(group.trips)
  {
    total := 0.0;
    for i := 0 to |group.trips|
      invariant total == GroupVolume(group.trips[..i])
    {
      assert group.trips[..i + 1][..i] == group.trips[..i];
      var v := TripVolume(group.trips[i]);
      if v.Some? {
        total := total + v.value;
      }
    }
    assert group.trips[..|group.trips|] == group.trips;
  }

  /** The summed volume of every group of a report. */
  function ReportVolume(groups: seq<TripGroup>): real {
    if |groups| == 0 then 0.0 else ReportVolume(groups[..|groups| - 1]) + GroupVolume(groups[|groups| - 1].trips)
  }

  /** `sumReportVolume`: adds the group volumes. */
  method SumReportVolume(report: ActReport) returns (total: real)
    ensures total == ReportVolume(report.groups)
  {
    total := 0.0;
    for i := 0 to |report.groups|
      invariant total == ReportVolume(report.groups[..i])
    {
      assert report.groups[..i + 1][..i] == report.groups[..i];
      var v := SumGroupVolume(report.groups[i]);
      total := total + v;
    }
    assert report.groups[..|report.groups|] == report.groups;
  }

  /** Volumes add up over concatenated trip lists. */
  lemma {:induction false} GroupVolumeAppend(a: seq<TripDetail>, b: seq<TripDetail>)
    ensures GroupVolume(a + b) == GroupVolume(a) + GroupVolume(b)
    decreases |b|
  {
    if |b| == 0 {
      assert a + b == a;
    } else {
      assert (a + b)[..|a + b| - 1] == a + b[..|b| - 1];
      GroupVolumeAppend(a, b[..|b| - 1]);
    }
  }

  /** Every trip of a report, group after group. */
  function AllTrips(groups: seq<TripGroup>): seq<TripDetail> {
    if |groups| == 0 then [] else AllTrips(groups[..|groups| - 1]) + groups[|groups| - 1].trips
  }

  /** The summary's total is the volume of all trips of the report, whichever group holds them. */
  lemma {:induction false} ReportVolumeOfAllTrips(groups: seq<TripGroup>)
    ensures ReportVolume(groups) == GroupVolume(AllTrips(groups))
    decreases |groups|
  {
    if |groups| > 0 {
      var init := groups[..|groups| - 1];
      ReportVolumeOfAllTrips(init);
      GroupVolumeAppend(AllTrips(init), groups[|groups| - 1].trips);
    }
  }

  /** With no negative measurement, no group volume is negative. */
  lemma {:induction false} GroupVolumeNonnegative(trips: seq<TripDetail>)
    requires forall i :: 0 <= i < |trips| ==> TripVolume(trips[i]).GetOr(0.0) >= 0.0
    ensures GroupVolume(trips) >= 0.0
    decreases |trips|
  {
    if |trips| > 0 {
      GroupVolumeNonnegative(trips[..|trips| - 1]);
    }
  }

  /** `formatUUID`: the id's text, or "" for a missing or nil id. */
  function FormatUuid(id: Option<Uuid>): (r: string)
    ensures id.None? || id == Some(NilUuid) ==> r == ""
    ensures id.Some? && id.value != NilUuid ==> r == id.value.text
    ensures r != "" ==> id == Some(Uuid(r)) && Uuid(r) != NilUuid
  {
    if id.None? || id.value == NilUuid then "" else id.value.text
  }
}
