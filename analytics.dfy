/** The discrete structure of the researcher charts in
    frontend/components/AnalyticsChart.js: the rows extracted from the
    patient records, the three glucose bands and their counts, the
    placeholders for empty data, the per-date trend, the strata and the
    correlation table. Glucose values, ages and sums are exact reals. */
module Analytics {

  import opened Wrappers

  // ---------------------------------------------------------------------
  // Records and rows
  // ---------------------------------------------------------------------

  /** What the extraction reads of a reading's `value`: its truthiness,
      whether `isNaN` accepts it as a number, and `parseFloat` of it. */
  datatype Value = Value(truthy: bool, numeric: bool, parsed: real)

  datatype Reading = Reading(value: Value, time: Field, date: Field)

  /** The parts of a decrypted `surveyData` the charts use. `bloodSugar`
      is None when it is missing or not an array; `age` is `age || 0`. */
  datatype SurveyData = SurveyData(bloodSugar: Option<seq<Reading>>, age: real, gender: Field, diabetesType: Field)

  /** One element of `realData`. */
  datatype Row = Row(patientId: string, value: real, time: string, date: string, age: real,
                     gender: string, diabetesType: string)

  /** `reading.value && !isNaN(reading.value)`. */
  predicate Qualifies(r: Reading)
  {
    r.value.truthy && r.value.numeric
  }

  /** The row pushed for a reading; `today` is the ISO date of
      `new Date()`, used for a reading without a date. */
  function RowOf(id: string, s: SurveyData, r: Reading, today: string): Row
  {
    Row(id, r.value.parsed, OrElse(r.time, "unknown"), OrElse(r.date, today), s.age,
        OrElse(s.gender, "unknown"), OrElse(s.diabetesType, "unknown"))
  }

  /** The rows of one record's readings, in reading order. */
  function ReadingRows(id: string, s: SurveyData, readings: seq<Reading>, today: string): seq<Row>
  {
    if readings == [] then []
    else
      var rest := ReadingRows(id, s, readings[..|readings| - 1], today);
      var r := readings[|readings| - 1];
      if Qualifies(r) then rest + [RowOf(id, s, r, today)] else rest
  }

  /** The rows of one record: none when the fetch failed (None), or when
      `bloodSugar` is not an array. */
  function RecordRows(id: string, fetched: Option<SurveyData>, today: string): seq<Row>
  {
    match fetched
    case None => []
    case Some(s) => if s.bloodSugar.Some? then ReadingRows(id, s, s.bloodSugar.value, today) else []
  }

  /** The rows of the listed patients, record after record. */
  function AllRows(ids: seq<string>, fetch: string -> Option<SurveyData>, today: string): seq<Row>
  {
    if ids == [] then []
    else AllRows(ids[..|ids| - 1], fetch, today) + RecordRows(ids[|ids| - 1], fetch(ids[|ids| - 1]), today)
  }

  /** `fetchRealPatientData()`: `fetch(id)` is what getPatientRecord gives
      for `id` (None for a failure, a thrown error or no surveyData). */
  method FetchRealPatientData(ids: seq<string>, fetch: string -> Option<SurveyData>, today: string)
    returns (realData: seq<Row>)
    ensures realData == AllRows(ids, fetch, today)
  {
    realData := [];
    for i := 0 to |ids|
      invariant realData == AllRows(ids[..i], fetch, today)
    {
      assert ids[..i + 1][..i] == ids[..i];
      var fetched := fetch(ids[i]);
      if fetched.Some? && fetched.value.bloodSugar.Some? {
        var s := fetched.value;
        var readings := s.bloodSugar.value;
        ghost var before := realData;
        for j := 0 to |readings|
          invariant realData == before + ReadingRows(ids[i], s, readings[..j], today)
        {
          assert readings[..j + 1][..j] == readings[..j];
          if Qualifies(readings[j]) {
            realData := realData + [RowOf(ids[i], s, readings[j], today)];
          }
        }
        assert readings[..|readings|] == readings;
      }
    }
    assert ids[..|ids|] == ids;
  }

  /** The number of readings that make a row. */
  function QualifyingCount(readings: seq<Reading>): nat
  {
    if readings == [] then 0
    else QualifyingCount(readings[..|readings| - 1]) + (if Qualifies(readings[|readings| - 1]) then 1 else 0)
  }

  /** One row per qualifying reading, each carrying the record's patient
      ID, the parsed value and the 'unknown' defaults. */
  lemma {:induction false} ReadingRowsExact(id: string, s: SurveyData, readings: seq<Reading>, today: string)
    ensures |ReadingRows(id, s, readings, today)| == QualifyingCount(readings)
    ensures forall k :: 0 <= k < |ReadingRows(id, s, readings, today)| ==>
              var row := ReadingRows(id, s, readings, today)[k];
              row.patientId == id && row.age == s.age && row.gender == OrElse(s.gender, "unknown") &&
              row.diabetesType == OrElse(s.diabetesType, "unknown")
    ensures (forall j :: 0 <= j < |readings| ==> !Qualifies(readings[j])) ==> ReadingRows(id, s, readings, today) == []
  {
    if readings != [] {
      ReadingRowsExact(id, s, readings[..|readings| - 1], today);
      assert forall j :: 0 <= j < |readings| - 1 ==> readings[..|readings| - 1][j] == readings[j];
    }
  }

  /** Extraction is in record order: the rows of two lists of patients
      are the rows of the first followed by the rows of the second. */
  lemma {:induction false} AllRowsAppend(a: seq<string>, b: seq<string>, fetch: string -> Option<SurveyData>, today: string)
    ensures AllRows(a + b, fetch, today) == AllRows(a, fetch, today) + AllRows(b, fetch, today)
    decreases |b|
  {
    if b == [] {
      assert a + b == a;
    } else {
      var b' := b[..|b| - 1];
      var last := RecordRows(b[|b| - 1], fetch(b[|b| - 1]), today);
      assert (a + b)[..|a + b| - 1] == a + b';
      assert (a + b)[|a + b| - 1] == b[|b| - 1];
      assert AllRows(a + b, fetch, today) == AllRows(a + b', fetch, today) + last;
      assert AllRows(b, fetch, today) == AllRows(b', fetch, today) + last;
      AllRowsAppend(a, b', fetch, today);
    }
  }

  /** Every row belongs to one of the listed patients. */
  lemma {:induction false} RowsOfListedPatients(ids: seq<string>, fetch: string -> Option<SurveyData>, today: string)
    ensures forall k :: 0 <= k < |AllRows(ids, fetch, today)| ==> AllRows(ids, fetch, today)[k].patientId in ids
  {
    if ids != [] {
      var init := ids[..|ids| - 1];
      var id := ids[|ids| - 1];
      RowsOfListedPatients(init, fetch, today);
      var before: seq<Row> := AllRows(init, fetch, today);
      var last: seq<Row> := RecordRows(id, fetch(id), today);
      assert AllRows(ids, fetch, today) == before + last;
      if fetch(id).Some? && fetch(id).value.bloodSugar.Some? {
        ReadingRowsExact(id, fetch(id).value, fetch(id).value.bloodSugar.value, today);
      }
      assert forall x :: x in init ==> x in ids;
      forall k | 0 <= k < |before + last|
        ensures (before + last)[k].patientId in ids
      {
        if k >= |before| {
          assert (before + last)[k] == last[k - |before|];
        }
      }
    }
  }

  /** A record that fails or has no reading array adds no row. */
  lemma FailedRecordAddsNothing(ids: seq<string>, id: string, fetch: string -> Option<SurveyData>, today: string)
    requires fetch(id).None? || fetch(id).value.bloodSugar.None?
    ensures AllRows(ids + [id], fetch, today) == AllRows(ids, fetch, today)
  {
    assert (ids + [id])[..|ids|] == ids;
  }

  // ---------------------------------------------------------------------
  // Bands and the summary
  // ---------------------------------------------------------------------

  datatype Band = Low | Normal | High

  /** The three filters of analyzeRealData: `v < 70`, `v >= 70 && v <= 140`,
      `v > 140`. */
  predicate InBand(v: real, b: Band)
  {
    match b
    case Low => v < 70.0
    case Normal => v >= 70.0 && v <= 140.0
    case High => v > 140.0
  }

  /** The band of a value, as getGlucoseLevel of frontend/pages/patient.js
      decides it: below 70, then up to 140, then above. */
  function BandOf(v: real): (b: Band)
    ensures InBand(v, b)
  {
    if v < 70.0 then Low else if v <= 140.0 then Normal else High
  }

  /** The filters are disjoint and cover every value, so each value is in
      exactly the band BandOf names. */
  lemma BandsPartition(v: real, b: Band)
    ensures InBand(v, b) <==> b == BandOf(v)
  {
  }

  /** `values.filter(<band>).length`. */
  function CountBand(rows: seq<Row>, b: Band): (n: nat)
    ensures n <= |rows|
  {
    if rows == [] then 0
    else CountBand(rows[..|rows| - 1], b) + (if InBand(rows[|rows| - 1].value, b) then 1 else 0)
  }

  /** Every row is counted in exactly one band. */
  lemma {:induction false} BandCountsSum(rows: seq<Row>)
    ensures CountBand(rows, Low) + CountBand(rows, Normal) + CountBand(rows, High) == |rows|
  {
    if rows != [] {
      BandCountsSum(rows[..|rows| - 1]);
    }
  }

  /** The counting part of analyzeRealData's result; `total` is missing
      from the object returned for empty data. The mean, standard
      deviation and normal rate are not modelled. */
  datatype Summary = Summary(lowCount: nat, normalCount: nat, highCount: nat, total: Option<nat>)

  function AnalyzeRealData(rows: seq<Row>): Summary
  {
    if |rows| == 0 then Summary(0, 0, 0, None)
    else Summary(CountBand(rows, Low), CountBand(rows, Normal), CountBand(rows, High), Some(|rows|))
  }

  /** Empty data gives the all-zero summary; otherwise the three counts
      add up to the total. */
  lemma SummaryCounts(rows: seq<Row>)
    ensures rows == [] ==> AnalyzeRealData(rows) == Summary(0, 0, 0, None)
    ensures rows != [] ==>
              (AnalyzeRealData(rows).total == Some(|rows|) &&
               AnalyzeRealData(rows).lowCount + AnalyzeRealData(rows).normalCount + AnalyzeRealData(rows).highCount == |rows|)
  {
    BandCountsSum(rows);
  }

  /** One bar or slice of the average and distribution charts: its name
      and its count (the averaged and percentage values are not
      modelled). */
  datatype Entry = Entry(name: string, count: nat)

  const NoDataLabel: string := "暂无数据"

  /** generateAverageDataFromReal: a placeholder for no data, otherwise
      the three bands and the overall entry. */
  function AverageData(rows: seq<Row>): seq<Entry>
  {
    if |rows| == 0 then [Entry(NoDataLabel, 0)]
    else
      var a := AnalyzeRealData(rows);
      [Entry("低血糖 (<70)", a.lowCount), Entry("正常 (70-140)", a.normalCount),
       Entry("高血糖 (>140)", a.highCount), Entry("整体平均", |rows|)]
  }

  /** generateDistributionDataFromReal: a placeholder for no data,
      otherwise one slice per band. */
  function DistributionData(rows: seq<Row>): seq<Entry>
  {
    if |rows| == 0 then [Entry(NoDataLabel, 0)]
    else
      var a := AnalyzeRealData(rows);
      [Entry("低血糖", a.lowCount), Entry("正常", a.normalCount), Entry("高血糖", a.highCount)]
  }

  /** For empty data both charts hold the single placeholder; otherwise
      the band entries add up to the number of rows, which the overall
      bar carries. */
  lemma ChartShapes(rows: seq<Row>)
    ensures rows == [] ==> AverageData(rows) == [Entry(NoDataLabel, 0)] && DistributionData(rows) == [Entry(NoDataLabel, 0)]
    ensures rows != [] ==>
              (|AverageData(rows)| == 4 && |DistributionData(rows)| == 3 &&
               AverageData(rows)[3].count == |rows| &&
               AverageData(rows)[0].count + AverageData(rows)[1].count + AverageData(rows)[2].count == |rows| &&
               forall k :: 0 <= k < 3 ==> DistributionData(rows)[k].count == AverageData(rows)[k].count)
  {
    BandCountsSum(rows);
  }

  // ---------------------------------------------------------------------
  // Trend: grouping by date, key order, the last 30 dates
  // ---------------------------------------------------------------------

  /** The set of dates the rows carry. */
  function DatesOf(rows: seq<Row>): set<string>
  {
    if rows == [] then {} else DatesOf(rows[..|rows| - 1]) + {rows[|rows| - 1].date}
  }

  /** The values of the rows on date `d`, in row order. */
  function ValuesOn(rows: seq<Row>, d: string): seq<real>
  {
    if rows == [] then []
    else ValuesOn(rows[..|rows| - 1], d) + (if rows[|rows| - 1].date == d then [rows[|rows| - 1].value] else [])
  }

  /** `dateGroups` after the forEach over the rows: each row's value is
      pushed onto the array of its date, created on first sight. */
  function Groups(rows: seq<Row>): map<string, seq<real>>
  {
    if rows == [] then map[]
    else
      var g := Groups(rows[..|rows| - 1]);
      var r := rows[|rows| - 1];
      g[r.date := (if r.date in g then g[r.date] else []) + [r.value]]
  }

  /** The keys of `dateGroups` in the order they were created. */
  function DateKeys(rows: seq<Row>): seq<string>
  {
    if rows == [] then []
    else
      var k := DateKeys(rows[..|rows| - 1]);
      var d := rows[|rows| - 1].date;
      if d in k then k else k + [d]
  }

  predicate Distinct(s: seq<string>)
  {
    forall i, j :: 0 <= i < j < |s| ==> s[i] != s[j]
  }

  /** Each date of the rows has a group, which holds exactly the values
      on that date in row order, and no other key exists. */
  lemma {:induction false} GroupsMeaning(rows: seq<Row>)
    ensures Groups(rows).Keys == DatesOf(rows)
    ensures forall d :: d in Groups(rows) ==> Groups(rows)[d] == ValuesOn(rows, d) && ValuesOn(rows, d) != []
  {
    if rows != [] {
      var init := rows[..|rows| - 1];
      GroupsMeaning(init);
      forall d | d !in Groups(init)
        ensures ValuesOn(init, d) == []
      {
        NoValuesOff(init, d);
      }
    }
  }

  /** A date no row carries has no values. */
  lemma {:induction false} NoValuesOff(rows: seq<Row>, d: string)
    requires d !in DatesOf(rows)
    ensures ValuesOn(rows, d) == []
  {
    if rows != [] {
      NoValuesOff(rows[..|rows| - 1], d);
    }
  }

  /** The key order lists every date exactly once. */
  lemma {:induction false} DateKeysMeaning(rows: seq<Row>)
    ensures Distinct(DateKeys(rows))
    ensures forall d :: d in DateKeys(rows) <==> d in DatesOf(rows)
    ensures |DateKeys(rows)| == |DatesOf(rows)|
  {
    if rows != [] {
      var init := rows[..|rows| - 1];
      DateKeysMeaning(init);
      var d := rows[|rows| - 1].date;
      if d !in DateKeys(init) {
        assert DatesOf(rows) == DatesOf(init) + {d};
        assert d !in DatesOf(init);
      } else {
        assert DatesOf(rows) == DatesOf(init);
      }
    }
  }

  /** The forEach that fills `dateGroups`; `keys` is the object's key
      order. */
  method BuildDateGroups(rows: seq<Row>) returns (groups: map<string, seq<real>>, keys: seq<string>)
    ensures groups == Groups(rows) && keys == DateKeys(rows)
  {
    groups := map[];
    keys := [];
    for i := 0 to |rows|
      invariant groups == Groups(rows[..i]) && keys == DateKeys(rows[..i])
    {
      BuildStep(rows, i);
      var d := rows[i].date;
      if d !in groups {
        groups := groups[d := []];
        keys := keys + [d];
      }
      groups := groups[d := groups[d] + [rows[i].value]];
    }
    assert rows[..|rows|] == rows;
  }

  /** One step of the forEach: the row's date is new to `dateGroups`
      exactly when it is new to the key order. */
  lemma BuildStep(rows: seq<Row>, i: nat)
    requires i < |rows|
    ensures var pre := rows[..i];
            var d := rows[i].date;
            Groups(rows[..i + 1]) == Groups(pre)[d := (if d in Groups(pre) then Groups(pre)[d] else []) + [rows[i].value]] &&
            DateKeys(rows[..i + 1]) == if d in Groups(pre) then DateKeys(pre) else DateKeys(pre) + [d]
  {
    assert rows[..i + 1][..i] == rows[..i];
    GroupsMeaning(rows[..i]);
    DateKeysMeaning(rows[..i]);
  }

  /** The order `Array.prototype.sort` uses for strings without a
      comparator: a proper prefix comes first, otherwise the first
      differing character decides. */
  predicate LexLess(a: string, b: string)
  {
    if a == [] then b != []
    else if b == [] then false
    else if a[0] != b[0] then a[0] < b[0]
    else LexLess(a[1..], b[1..])
  }

  lemma {:induction false} LexIrreflexive(a: string)
    ensures !LexLess(a, a)
  {
    if a != [] {
      LexIrreflexive(a[1..]);
    }
  }

  lemma {:induction false} LexTransitive(a: string, b: string, c: string)
    requires LexLess(a, b) && LexLess(b, c)
    ensures LexLess(a, c)
  {
    if a != [] && b != [] && c != [] && a[0] == b[0] && b[0] == c[0] {
      LexTransitive(a[1..], b[1..], c[1..]);
    }
  }

  lemma {:induction false} LexTotal(a: string, b: string)
    requires a != b
    ensures LexLess(a, b) || LexLess(b, a)
  {
    if a != [] && b != [] && a[0] == b[0] {
      assert a == [a[0]] + a[1..] && b == [b[0]] + b[1..];
      LexTotal(a[1..], b[1..]);
    }
  }

  predicate Ascending(s: seq<string>)
  {
    forall i, j :: 0 <= i < j < |s| ==> LexLess(s[i], s[j])
  }

  /** Inserts `x` before the first element above it. */
  function Insert(s: seq<string>, x: string): seq<string>
  {
    if s == [] then [x]
    else if LexLess(x, s[0]) then [x] + s
    else [s[0]] + Insert(s[1..], x)
  }

  /** The keys in ascending order: `Object.keys(dateGroups).sort()`. */
  function Sort(s: seq<string>): seq<string>
  {
    if s == [] then [] else Insert(Sort(s[..|s| - 1]), s[|s| - 1])
  }

  lemma {:induction false} InsertAscending(s: seq<string>, x: string)
    requires Ascending(s) && x !in s
    ensures Ascending(Insert(s, x)) && |Insert(s, x)| == |s| + 1
    ensures forall y :: y in Insert(s, x) <==> y in s || y == x
  {
    if s == [] {
    } else if LexLess(x, s[0]) {
      forall j | 0 <= j < |s|
        ensures LexLess(x, s[j])
      {
        if j > 0 { LexTransitive(x, s[0], s[j]); }
      }
    } else {
      LexTotal(x, s[0]);
      TailAscending(s);
      InsertAscending(s[1..], x);
      var t := Insert(s[1..], x);
      var r := [s[0]] + t;
      forall i, j | 0 <= i < j < |r|
        ensures LexLess(r[i], r[j])
      {
        if i == 0 {
          assert r[j] == t[j - 1] && t[j - 1] in t;
        } else {
          assert r[i] == t[i - 1] && r[j] == t[j - 1];
        }
      }
    }
  }

  /** The tail of an ascending sequence is ascending and above its head. */
  lemma TailAscending(s: seq<string>)
    requires Ascending(s) && s != []
    ensures Ascending(s[1..])
    ensures forall y :: y in s[1..] ==> LexLess(s[0], y)
    ensures forall y :: y in s <==> y == s[0] || y in s[1..]
  {
    forall i, j | 0 <= i < j < |s| - 1
      ensures LexLess(s[1..][i], s[1..][j])
    {
      assert s[1..][i] == s[i + 1] && s[1..][j] == s[j + 1];
    }
    forall y | y in s[1..]
      ensures LexLess(s[0], y)
    {
      var j :| 0 <= j < |s[1..]| && s[1..][j] == y;
      assert s[j + 1] == y;
    }
    assert s == [s[0]] + s[1..];
  }

  /** Sorting distinct keys gives them all, each once, in ascending
      order. */
  lemma {:induction false} SortAscending(s: seq<string>)
    requires Distinct(s)
    ensures Ascending(Sort(s)) && |Sort(s)| == |s|
    ensures forall y :: y in Sort(s) <==> y in s
  {
    if s != [] {
      var init := s[..|s| - 1];
      assert Distinct(init) by {
        forall i, j | 0 <= i < j < |init|
          ensures init[i] != init[j]
        {
          assert init[i] == s[i] && init[j] == s[j];
        }
      }
      SortAscending(init);
      assert forall y :: y in s <==> y in init || y == s[|s| - 1] by {
        assert s == init + [s[|s| - 1]];
      }
      forall i | 0 <= i < |init|
        ensures init[i] != s[|s| - 1]
      {
        assert init[i] == s[i];
      }
      InsertAscending(Sort(init), s[|s| - 1]);
    }
  }

  /** The sum of a sequence of reals. */
  function Sum(v: seq<real>): real
  {
    if v == [] then 0.0 else Sum(v[..|v| - 1]) + v[|v| - 1]
  }

  /** The arithmetic mean, exact. */
  function Mean(v: seq<real>): real
    requires v != []
  {
    Sum(v) / (|v| as real)
  }

  /** The values whose index is `residue` modulo 3. */
  function Picks(v: seq<real>, residue: nat): seq<real>
  {
    if v == [] then []
    else Picks(v[..|v| - 1], residue) + (if (|v| - 1) % 3 == residue then [v[|v| - 1]] else [])
  }

  /** One point of the trend chart; the date is the key itself, since the
      locale rendering is not modelled. */
  datatype TrendRow = TrendRow(date: string, average: real, morning: real, evening: real)

  /** The point of one date: the mean, and the means of the "morning"
      (index 0 mod 3) and "evening" (index 2 mod 3) readings, each falling
      back to the mean when it has no readings. */
  function TrendRowOf(date: string, values: seq<real>): TrendRow
    requires values != []
  {
    var average := Mean(values);
    var morning := Picks(values, 0);
    var evening := Picks(values, 2);
    TrendRow(date, average, if |morning| > 0 then Mean(morning) else average,
             if |evening| > 0 then Mean(evening) else average)
  }

  /** A residue class below 3 is empty exactly when the sequence is no
      longer than the residue. */
  lemma {:induction false} PicksEmpty(v: seq<real>, residue: nat)
    requires residue < 3
    ensures Picks(v, residue) == [] <==> |v| <= residue
  {
    if v != [] {
      PicksEmpty(v[..|v| - 1], residue);
      if |v| - 1 < 3 {
        assert (|v| - 1) % 3 == |v| - 1;
      }
    }
  }

  /** Morning never falls back on a non-empty date; evening falls back to
      the average exactly when the date has fewer than 3 readings. */
  lemma TrendFallbacks(date: string, values: seq<real>)
    requires values != []
    ensures Picks(values, 0) != [] && TrendRowOf(date, values).morning == Mean(Picks(values, 0))
    ensures Picks(values, 2) == [] <==> |values| < 3
    ensures |values| < 3 ==> TrendRowOf(date, values).evening == TrendRowOf(date, values).average
  {
    PicksEmpty(values, 0);
    PicksEmpty(values, 2);
  }

  /** `slice(-30)`: the last 30 elements, or all of them. */
  function LastThirty(s: seq<string>): (r: seq<string>)
    ensures |r| == if |s| < 30 then |s| else 30
    ensures forall k :: 0 <= k < |r| ==> r[k] == s[|s| - |r| + k]
  {
    if |s| <= 30 then s else s[|s| - 30..]
  }

  /** A suffix of an ascending sequence is ascending, and every element
      left out of it is below its first element. */
  lemma SuffixAscending(sorted: seq<string>, kept: seq<string>, off: nat)
    requires Ascending(sorted) && off + |kept| == |sorted| && kept != []
    requires forall k :: 0 <= k < |kept| ==> kept[k] == sorted[off + k]
    ensures Ascending(kept) && (forall k :: 0 <= k < |kept| ==> kept[k] in sorted)
    ensures forall d {:trigger d in sorted} :: d in sorted && d !in kept ==> LexLess(d, kept[0])
  {
    forall k | 0 <= k < |kept|
      ensures kept[k] in sorted
    {
      assert kept[k] == sorted[off + k];
    }
    forall i, j | 0 <= i < j < |kept|
      ensures LexLess(kept[i], kept[j])
    {
      assert kept[i] == sorted[off + i] && kept[j] == sorted[off + j];
    }
    assert kept[0] == sorted[off];
    forall j | off <= j < |sorted|
      ensures sorted[j] in kept
    {
      assert kept[j - off] == sorted[j];
    }
    forall d | d in sorted && d !in kept
      ensures LexLess(d, kept[0])
    {
      var i :| 0 <= i < |sorted| && sorted[i] == d;
    }
  }

  /** The trend keeps the latest 30 dates, or all of them. */
  lemma KeptLength(rows: seq<Row>)
    ensures |LastThirty(Sort(DateKeys(rows)))| == if |DatesOf(rows)| < 30 then |DatesOf(rows)| else 30
  {
    DateKeysMeaning(rows);
    SortAscending(DateKeys(rows));
  }

  /** The kept dates are dates of the rows, in ascending order, and every
      omitted date is earlier than the first kept one. */
  lemma KeptOrder(rows: seq<Row>)
    ensures var kept := LastThirty(Sort(DateKeys(rows)));
            Ascending(kept) && (forall k :: 0 <= k < |kept| ==> kept[k] in DatesOf(rows)) &&
            (kept != [] ==> forall d {:trigger d in DatesOf(rows)} :: d in DatesOf(rows) && d !in kept ==> LexLess(d, kept[0]))
  {
    DateKeysMeaning(rows);
    SortAscending(DateKeys(rows));
    var sorted := Sort(DateKeys(rows));
    var kept := LastThirty(sorted);
    if kept != [] {
      SuffixAscending(sorted, kept, |sorted| - |kept|);
    }
  }

  /** The chart points of the kept dates, one per date, in order. */
  function TrendPoints(kept: seq<string>, groups: map<string, seq<real>>): (t: seq<TrendRow>)
    requires forall k :: 0 <= k < |kept| ==> kept[k] in groups && groups[kept[k]] != []
    ensures |t| == |kept| && forall k :: 0 <= k < |kept| ==> t[k] == TrendRowOf(kept[k], groups[kept[k]])
  {
    seq(|kept|, k requires 0 <= k < |kept| => TrendRowOf(kept[k], groups[kept[k]]))
  }

  /** What generateTrendDataFromReal returns for the rows. */
  function Trend(rows: seq<Row>): seq<TrendRow>
  {
    if rows == [] then []
    else
      GroupsMeaning(rows);
      KeptOrder(rows);
      TrendPoints(LastThirty(Sort(DateKeys(rows))), Groups(rows))
  }

  /** One point per date, up to the 30 latest. */
  lemma TrendLength(rows: seq<Row>)
    ensures |Trend(rows)| == if |DatesOf(rows)| < 30 then |DatesOf(rows)| else 30
  {
    KeptLength(rows);
  }

  /** The points are in ascending date order. */
  lemma TrendAscending(rows: seq<Row>)
    ensures var t := Trend(rows);
            forall i, j :: 0 <= i < j < |t| ==> LexLess(t[i].date, t[j].date)
  {
    if rows != [] {
      KeptOrder(rows);
      var kept := LastThirty(Sort(DateKeys(rows)));
      var t := Trend(rows);
      assert forall k :: 0 <= k < |t| ==> t[k].date == kept[k];
    }
  }

  /** Every date without a point is earlier than the first point. */
  lemma TrendOmitsEarlier(rows: seq<Row>)
    ensures var t := Trend(rows);
            t != [] ==> forall d {:trigger d in DatesOf(rows)} :: d in DatesOf(rows) && (forall k :: 0 <= k < |t| ==> t[k].date != d) ==>
               LexLess(d, t[0].date)
  {
    if rows != [] {
      KeptOrder(rows);
      var kept := LastThirty(Sort(DateKeys(rows)));
      var t := Trend(rows);
      forall d | d in DatesOf(rows) && (forall k :: 0 <= k < |t| ==> t[k].date != d)
        ensures d !in kept
      {
        forall k | 0 <= k < |kept|
          ensures kept[k] != d
        {
          assert t[k].date == kept[k];
        }
      }
    }
  }

  /** Each point is computed from exactly the values on its date. */
  lemma TrendPointsExact(rows: seq<Row>)
    ensures var t := Trend(rows);
            forall k :: 0 <= k < |t| ==>
              t[k].date in DatesOf(rows) && ValuesOn(rows, t[k].date) != [] &&
              t[k] == TrendRowOf(t[k].date, ValuesOn(rows, t[k].date))
  {
    if rows != [] {
      GroupsMeaning(rows);
      KeptOrder(rows);
    }
  }

  /** The trend of no rows is empty. */
  lemma TrendEmpty()
    ensures Trend([]) == []
  {
  }

  /** generateTrendDataFromReal. */
  method GenerateTrend(rows: seq<Row>) returns (trend: seq<TrendRow>)
    ensures trend == Trend(rows)
  {
    if |rows| == 0 {
      return [];
    }
    var groups, keys := BuildDateGroups(rows);
    GroupsMeaning(rows);
    KeptOrder(rows);
    trend := TrendPoints(LastThirty(Sort(keys)), groups);
  }

  // ---------------------------------------------------------------------
  // Strata
  // ---------------------------------------------------------------------

  /** `data.filter(p)`. */
  function Where(rows: seq<Row>, p: Row -> bool): (r: seq<Row>)
    ensures |r| <= |rows|
  {
    if rows == [] then []
    else Where(rows[..|rows| - 1], p) + (if p(rows[|rows| - 1]) then [rows[|rows| - 1]] else [])
  }

  /** The distinct patient IDs of the rows. */
  function Patients(rows: seq<Row>): set<string>
  {
    set i | 0 <= i < |rows| :: rows[i].patientId
  }

  predicate IsMale(r: Row) { r.gender == "male" || r.gender == "男" }
  predicate IsFemale(r: Row) { r.gender == "female" || r.gender == "女" }
  predicate UnknownGender(r: Row)
  {
    r.gender == "" || (r.gender != "male" && r.gender != "男" && r.gender != "female" && r.gender != "女")
  }

  /** `d.age && d.age < 60`, `d.age && d.age >= 60`, `!d.age`. */
  predicate IsYoung(r: Row) { r.age != 0.0 && r.age < 60.0 }
  predicate IsOld(r: Row) { r.age != 0.0 && r.age >= 60.0 }
  predicate UnknownAge(r: Row) { r.age == 0.0 }

  predicate IsType1(r: Row) { r.diabetesType == "type1" || r.diabetesType == "I型" }
  predicate IsType2(r: Row) { r.diabetesType == "type2" || r.diabetesType == "II型" }
  predicate UnknownType(r: Row)
  {
    r.diabetesType == "" ||
    (r.diabetesType != "type1" && r.diabetesType != "I型" && r.diabetesType != "type2" && r.diabetesType != "II型")
  }

  /** One group of a stratum with its number of distinct patients (the
      mean and control rate are not modelled). */
  datatype Group = Group(name: string, n: nat)

  datatype Stratum = Stratum(stratum: string, groups: seq<Group>)

  /** calculateGroupStats, reduced to `n`. */
  function GroupOf(name: string, data: seq<Row>): Group
  {
    Group(name, |Patients(data)|)
  }

  /** A stratum with two known groups and an unknown group: emitted when
      a known group is non-empty, each group listed only when non-empty. */
  function StratumOf(title: string, name1: string, a: seq<Row>, name2: string, b: seq<Row>,
                     name3: string, c: seq<Row>): seq<Stratum>
  {
    if |a| > 0 || |b| > 0 then
      [Stratum(title, (if |a| > 0 then [GroupOf(name1, a)] else []) + (if |b| > 0 then [GroupOf(name2, b)] else []) +
                      (if |c| > 0 then [GroupOf(name3, c)] else []))]
    else []
  }

  function GenderStrata(rows: seq<Row>): seq<Stratum>
  {
    StratumOf("性别", "男性", Where(rows, IsMale), "女性", Where(rows, IsFemale), "未知性别", Where(rows, UnknownGender))
  }

  function AgeStrata(rows: seq<Row>): seq<Stratum>
  {
    StratumOf("年龄组", "<60岁", Where(rows, IsYoung), "≥60岁", Where(rows, IsOld), "未知年龄", Where(rows, UnknownAge))
  }

  function TypeStrata(rows: seq<Row>): seq<Stratum>
  {
    StratumOf("糖尿病类型", "I型", Where(rows, IsType1), "II型", Where(rows, IsType2), "未知类型", Where(rows, UnknownType))
  }

  /** generateStratifiedDataFromReal. */
  function Stratified(rows: seq<Row>): seq<Stratum>
  {
    if |rows| == 0 then [Stratum(NoDataLabel, [Group("无数据", 0)])]
    else
      var strata := GenderStrata(rows) + AgeStrata(rows) + TypeStrata(rows);
      if |strata| > 0 then strata else [Stratum("整体数据", [GroupOf("所有患者", rows)])]
  }

  /** A row is kept by a filter exactly when it is a row that passes. */
  lemma {:induction false} WhereMembers(rows: seq<Row>, p: Row -> bool)
    ensures forall r :: r in Where(rows, p) <==> r in rows && p(r)
  {
    if rows != [] {
      var init := rows[..|rows| - 1];
      WhereMembers(init, p);
      assert rows == init + [rows[|rows| - 1]];
    }
  }

  /** Three filters that accept each row exactly once split the rows. */
  lemma {:induction false} WhereSplits(rows: seq<Row>, p: Row -> bool, q: Row -> bool, u: Row -> bool)
    requires forall r :: (p(r) && !q(r) && !u(r)) || (!p(r) && q(r) && !u(r)) || (!p(r) && !q(r) && u(r))
    ensures |Where(rows, p)| + |Where(rows, q)| + |Where(rows, u)| == |rows|
  {
    if rows != [] {
      WhereSplits(rows[..|rows| - 1], p, q, u);
    }
  }

  /** Each of the three partitions puts every row in exactly one group:
      the known groups are disjoint and the unknown group is the rest. */
  lemma PartitionsCover(rows: seq<Row>)
    ensures |Where(rows, IsMale)| + |Where(rows, IsFemale)| + |Where(rows, UnknownGender)| == |rows|
    ensures |Where(rows, IsYoung)| + |Where(rows, IsOld)| + |Where(rows, UnknownAge)| == |rows|
    ensures |Where(rows, IsType1)| + |Where(rows, IsType2)| + |Where(rows, UnknownType)| == |rows|
  {
    WhereSplits(rows, IsMale, IsFemale, UnknownGender);
    WhereSplits(rows, IsYoung, IsOld, UnknownAge);
    WhereSplits(rows, IsType1, IsType2, UnknownType);
  }

  /** The patients of a filtered part are patients of the whole, and a
      non-empty part has at least one. */
  lemma PatientsOfPart(rows: seq<Row>, p: Row -> bool)
    ensures Patients(Where(rows, p)) <= Patients(rows)
    ensures Where(rows, p) != [] ==> |Patients(Where(rows, p))| >= 1
  {
    var w := Where(rows, p);
    WhereMembers(rows, p);
    forall x | x in Patients(w)
      ensures x in Patients(rows)
    {
      var i :| 0 <= i < |w| && w[i].patientId == x;
      assert w[i] in w;
      var j :| 0 <= j < |rows| && rows[j] == w[i];
    }
    if w != [] {
      assert w[0].patientId in Patients(w);
    }
  }

  /** A part whose patients are among `total` has between 1 and
      `|total|` of them when it is non-empty. */
  lemma GroupBounds(name: string, part: seq<Row>, total: set<string>)
    requires Patients(part) <= total && part != []
    ensures 1 <= GroupOf(name, part).n <= |total|
  {
    assert part[0].patientId in Patients(part);
    assert total == Patients(part) + (total - Patients(part));
  }

  /** A stratum is listed exactly when one of its known groups is
      non-empty; then it is the only one, under its title, with the
      non-empty groups in order, each with between 1 and all of the
      patients; the unknown group appears only inside it. */
  lemma StratumOfRules(title: string, name1: string, a: seq<Row>, name2: string, b: seq<Row>,
                       name3: string, c: seq<Row>, total: set<string>)
    requires Patients(a) <= total && Patients(b) <= total && Patients(c) <= total
    ensures var s := StratumOf(title, name1, a, name2, b, name3, c);
            (s != [] <==> a != [] || b != []) &&
            (s != [] ==>
               |s| == 1 && s[0].stratum == title && 1 <= |s[0].groups| <= 3 &&
               (forall g :: g in s[0].groups ==> 1 <= g.n <= |total|) &&
               (c != [] ==> GroupOf(name3, c) in s[0].groups))
  {
    if a != [] { GroupBounds(name1, a, total); }
    if b != [] { GroupBounds(name2, b, total); }
    if c != [] { GroupBounds(name3, c, total); }
  }

  /** StratumOfRules for a partition of the rows by three filters, with
      all of the rows' patients as the bound. */
  lemma PartStratum(rows: seq<Row>, title: string, name1: string, p1: Row -> bool, name2: string, p2: Row -> bool,
                    name3: string, p3: Row -> bool)
    ensures var s := StratumOf(title, name1, Where(rows, p1), name2, Where(rows, p2), name3, Where(rows, p3));
            (s != [] <==> Where(rows, p1) != [] || Where(rows, p2) != []) &&
            (forall st, g :: st in s && g in st.groups ==> 1 <= g.n <= |Patients(rows)|) &&
            (forall st :: st in s ==> st.stratum == title)
  {
    PatientsOfPart(rows, p1);
    PatientsOfPart(rows, p2);
    PatientsOfPart(rows, p3);
    StratumOfRules(title, name1, Where(rows, p1), name2, Where(rows, p2), name3, Where(rows, p3), Patients(rows));
  }

  /** The three strata functions each obey StratumOfRules. */
  lemma PartitionStrata(rows: seq<Row>)
    ensures GenderStrata(rows) != [] <==> Where(rows, IsMale) != [] || Where(rows, IsFemale) != []
    ensures AgeStrata(rows) != [] <==> Where(rows, IsYoung) != [] || Where(rows, IsOld) != []
    ensures TypeStrata(rows) != [] <==> Where(rows, IsType1) != [] || Where(rows, IsType2) != []
    ensures forall s, g :: (s in GenderStrata(rows) || s in AgeStrata(rows) || s in TypeStrata(rows)) && g in s.groups ==>
              1 <= g.n <= |Patients(rows)|
    ensures forall s :: s in GenderStrata(rows) ==> s.stratum == "性别"
    ensures forall s :: s in AgeStrata(rows) ==> s.stratum == "年龄组"
    ensures forall s :: s in TypeStrata(rows) ==> s.stratum == "糖尿病类型"
  {
    PartStratum(rows, "性别", "男性", IsMale, "女性", IsFemale, "未知性别", UnknownGender);
    PartStratum(rows, "年龄组", "<60岁", IsYoung, "≥60岁", IsOld, "未知年龄", UnknownAge);
    PartStratum(rows, "糖尿病类型", "I型", IsType1, "II型", IsType2, "未知类型", UnknownType);
  }

  /** Empty rows give the single placeholder stratum. */
  lemma StratifiedEmpty()
    ensures Stratified([]) == [Stratum(NoDataLabel, [Group("无数据", 0)])]
  {
  }

  /** Non-empty rows fall back to the one stratum of all patients exactly
      when no partition has a non-empty known group. */
  lemma StratifiedFallback(rows: seq<Row>)
    requires rows != []
    ensures Stratified(rows) == [Stratum("整体数据", [Group("所有患者", |Patients(rows)|)])] <==>
            Where(rows, IsMale) == [] && Where(rows, IsFemale) == [] && Where(rows, IsYoung) == [] &&
            Where(rows, IsOld) == [] && Where(rows, IsType1) == [] && Where(rows, IsType2) == []
  {
    PartitionStrata(rows);
    var all := GenderStrata(rows) + AgeStrata(rows) + TypeStrata(rows);
    if all != [] {
      assert all[0] in GenderStrata(rows) || all[0] in AgeStrata(rows) || all[0] in TypeStrata(rows);
      assert |all[0].stratum| != |"整体数据"|;
    }
  }

  /** Every group of non-empty rows has between 1 and all of the
      patients. */
  lemma StratifiedGroupBounds(rows: seq<Row>)
    requires rows != []
    ensures forall s, g :: s in Stratified(rows) && g in s.groups ==> 1 <= g.n <= |Patients(rows)|
  {
    PartitionStrata(rows);
    var all := GenderStrata(rows) + AgeStrata(rows) + TypeStrata(rows);
    if all == [] {
      GroupBounds("所有患者", rows, Patients(rows));
    } else {
      assert forall s :: s in all ==> s in GenderStrata(rows) || s in AgeStrata(rows) || s in TypeStrata(rows);
    }
  }

  /** The strata listed for non-empty rows are those of the three
      partitions in order, or the fallback when there are none. */
  lemma StrataListed(rows: seq<Row>)
    requires rows != []
    ensures var all := GenderStrata(rows) + AgeStrata(rows) + TypeStrata(rows);
            Stratified(rows) == if all == [] then [Stratum("整体数据", [GroupOf("所有患者", rows)])] else all
  {
  }

  /** The gender stratum is listed exactly when a known gender occurs. */
  lemma GenderStratumListed(rows: seq<Row>)
    requires rows != []
    ensures (exists s :: s in Stratified(rows) && s.stratum == "性别") <==> Where(rows, IsMale) != [] || Where(rows, IsFemale) != []
  {
    PartitionStrata(rows);
    var all := GenderStrata(rows) + AgeStrata(rows) + TypeStrata(rows);
    assert forall s :: s in all <==> s in GenderStrata(rows) || s in AgeStrata(rows) || s in TypeStrata(rows);
    if GenderStrata(rows) != [] { assert GenderStrata(rows)[0] in all; }
  }

  /** The age stratum is listed exactly when a known age occurs. */
  lemma AgeStratumListed(rows: seq<Row>)
    requires rows != []
    ensures (exists s :: s in Stratified(rows) && s.stratum == "年龄组") <==> Where(rows, IsYoung) != [] || Where(rows, IsOld) != []
  {
    PartitionStrata(rows);
    var all := GenderStrata(rows) + AgeStrata(rows) + TypeStrata(rows);
    assert forall s :: s in all <==> s in GenderStrata(rows) || s in AgeStrata(rows) || s in TypeStrata(rows);
    if AgeStrata(rows) != [] { assert AgeStrata(rows)[0] in all; }
  }

  /** The diabetes-type stratum is listed exactly when a known type
      occurs. */
  lemma TypeStratumListed(rows: seq<Row>)
    requires rows != []
    ensures (exists s :: s in Stratified(rows) && s.stratum == "糖尿病类型") <==> Where(rows, IsType1) != [] || Where(rows, IsType2) != []
  {
    PartitionStrata(rows);
    var all := GenderStrata(rows) + AgeStrata(rows) + TypeStrata(rows);
    assert forall s :: s in all <==> s in GenderStrata(rows) || s in AgeStrata(rows) || s in TypeStrata(rows);
    if TypeStrata(rows) != [] { assert TypeStrata(rows)[0] in all; }
  }

  // ---------------------------------------------------------------------
  // Correlation table
  // ---------------------------------------------------------------------

  /** One row of the correlation table. The correlation coefficient is
      `numerator / sqrt(denominatorSquared)`, kept as the exact pair since
      the square root is irrational in general; a factor that is not
      computed has numerator 0 and denominatorSquared 1. */
  datatype CorrelationRow = CorrelationRow(factor: string, numerator: real, denominatorSquared: real,
                                           pValue: real, significance: string)

  const Factors: seq<string> := ["年龄", "BMI", "病程"]

  /** `d.age && d.value`. */
  predicate HasAgeAndValue(r: Row)
  {
    r.age != 0.0 && r.value != 0.0
  }

  function AgesOf(rows: seq<Row>): (r: seq<real>)
    ensures |r| == |rows| && forall k :: 0 <= k < |rows| ==> r[k] == rows[k].age
  {
    seq(|rows|, k requires 0 <= k < |rows| => rows[k].age)
  }

  function ValuesOf(rows: seq<Row>): (r: seq<real>)
    ensures |r| == |rows| && forall k :: 0 <= k < |rows| ==> r[k] == rows[k].value
  {
    seq(|rows|, k requires 0 <= k < |rows| => rows[k].value)
  }

  /** The product of two deviations, `ageDeviation * valueDeviation`. */
  function DeviationProduct(x: real, mx: real, y: real, my: real): real
  {
    (x - mx) * (y - my)
  }

  /** The sum of the products of the deviations from the two means. */
  function CrossSum(xs: seq<real>, ys: seq<real>, mx: real, my: real): real
    requires |xs| == |ys|
  {
    if xs == [] then 0.0
    else CrossSum(xs[..|xs| - 1], ys[..|ys| - 1], mx, my) + DeviationProduct(xs[|xs| - 1], mx, ys[|ys| - 1], my)
  }

  /** The sum of the squared deviations from the mean. */
  function SquareSum(xs: seq<real>, m: real): (r: real)
  {
    if xs == [] then 0.0 else SquareSum(xs[..|xs| - 1], m) + DeviationProduct(xs[|xs| - 1], m, xs[|xs| - 1], m)
  }

  /** One step of the accumulation loop, for each of the three sums. */
  lemma CrossSumStep(xs: seq<real>, ys: seq<real>, mx: real, my: real, i: nat)
    requires |xs| == |ys| && i < |xs|
    ensures CrossSum(xs[..i + 1], ys[..i + 1], mx, my) == CrossSum(xs[..i], ys[..i], mx, my) + DeviationProduct(xs[i], mx, ys[i], my)
  {
    assert xs[..i + 1][..i] == xs[..i] && ys[..i + 1][..i] == ys[..i];
  }

  lemma SquareSumStep(xs: seq<real>, m: real, i: nat)
    requires i < |xs|
    ensures SquareSum(xs[..i + 1], m) == SquareSum(xs[..i], m) + DeviationProduct(xs[i], m, xs[i], m)
  {
    assert xs[..i + 1][..i] == xs[..i];
  }

  /** The loop of generateCorrelationDataFromReal accumulating the three
      sums over the valid rows. */
  method Deviations(ages: seq<real>, values: seq<real>, meanAge: real, meanValue: real)
    returns (numerator: real, denomAge: real, denomValue: real)
    requires |ages| == |values|
    ensures numerator == CrossSum(ages, values, meanAge, meanValue)
    ensures denomAge == SquareSum(ages, meanAge) && denomValue == SquareSum(values, meanValue)
  {
    numerator, denomAge, denomValue := 0.0, 0.0, 0.0;
    for i := 0 to |ages|
      invariant numerator == CrossSum(ages[..i], values[..i], meanAge, meanValue)
      invariant denomAge == SquareSum(ages[..i], meanAge) && denomValue == SquareSum(values[..i], meanValue)
    {
      CrossSumStep(ages, values, meanAge, meanValue, i);
      SquareSumStep(ages, meanAge, i);
      SquareSumStep(values, meanValue, i);
      numerator := numerator + DeviationProduct(ages[i], meanAge, values[i], meanValue);
      denomAge := denomAge + DeviationProduct(ages[i], meanAge, ages[i], meanAge);
      denomValue := denomValue + DeviationProduct(values[i], meanValue, values[i], meanValue);
    }
    assert ages[..|ages|] == ages && values[..|values|] == values;
  }

  /** `|correlation| > 0.5` and `|correlation| > 0.3`, compared on squares. */
  function Strength(numerator: real, denominatorSquared: real): string
  {
    if numerator * numerator > 0.25 * denominatorSquared then "强相关"
    else if numerator * numerator > 0.09 * denominatorSquared then "中等相关"
    else "弱相关"
  }

  /** The label: the sign of the correlation and its strength, or
      '无相关' for a zero correlation. */
  function SignedLabel(numerator: real, strength: string): string
  {
    if numerator > 0.0 then "正" + strength else if numerator < 0.0 then "负" + strength else "无相关"
  }

  /** A factor left at its initial values. */
  function Uncorrelated(factor: string): CorrelationRow
  {
    CorrelationRow(factor, 0.0, 1.0, 1.0, "无相关")
  }

  /** The row of a factor whose sums have been computed (both sums of
      squares positive). */
  function Correlated(factor: string, numerator: real, denominatorSquared: real): CorrelationRow
  {
    CorrelationRow(factor, numerator, denominatorSquared,
                   if numerator * numerator > 0.09 * denominatorSquared then 0.01 else 0.5,
                   SignedLabel(numerator, Strength(numerator, denominatorSquared)))
  }

  /** The age row from more than one valid row: computed unless a sum of
      squares is zero. */
  function AgeFromValid(valid: seq<Row>): CorrelationRow
    requires |valid| > 1
  {
    var ages, values := AgesOf(valid), ValuesOf(valid);
    var meanAge, meanValue := Mean(ages), Mean(values);
    var numerator := CrossSum(ages, values, meanAge, meanValue);
    var denomAge, denomValue := SquareSum(ages, meanAge), SquareSum(values, meanValue);
    if denomAge > 0.0 && denomValue > 0.0 then Correlated("年龄", numerator, denomAge * denomValue)
    else Uncorrelated("年龄")
  }

  /** The age row: computed only when some row has an age and more than
      one row has both an age and a value. */
  function AgeCorrelation(rows: seq<Row>): CorrelationRow
  {
    var valid := Where(rows, HasAgeAndValue);
    if (exists r :: r in rows && r.age != 0.0) && |valid| > 1 then AgeFromValid(valid) else Uncorrelated("年龄")
  }

  /** What generateCorrelationDataFromReal returns: nothing for no rows,
      otherwise the three factors in order, of which only age is ever
      computed. */
  function CorrelationData(rows: seq<Row>): seq<CorrelationRow>
  {
    if rows == [] then [] else [AgeCorrelation(rows), Uncorrelated("BMI"), Uncorrelated("病程")]
  }

  /** The body of the `validData.length > 1` branch. */
  method AgeFromValidRows(valid: seq<Row>) returns (row: CorrelationRow)
    requires |valid| > 1
    ensures row == AgeFromValid(valid)
  {
    row := Uncorrelated("年龄");
    var ages, values := AgesOf(valid), ValuesOf(valid);
    var meanAge, meanValue := Mean(ages), Mean(values);
    var numerator, denomAge, denomValue := Deviations(ages, values, meanAge, meanValue);
    if denomAge > 0.0 && denomValue > 0.0 {
      row := Correlated("年龄", numerator, denomAge * denomValue);
    }
  }

  /** The callback of `factors.map` in generateCorrelationDataFromReal. */
  method FactorRow(factor: string, rows: seq<Row>) returns (row: CorrelationRow)
    ensures row == if factor == "年龄" then AgeCorrelation(rows) else Uncorrelated(factor)
  {
    row := Uncorrelated(factor);
    if factor == "年龄" && (exists r :: r in rows && r.age != 0.0) {
      var valid := Where(rows, HasAgeAndValue);
      if |valid| > 1 {
        row := AgeFromValidRows(valid);
      }
    }
  }

  /** generateCorrelationDataFromReal. */
  method GenerateCorrelation(rows: seq<Row>) returns (result: seq<CorrelationRow>)
    ensures result == CorrelationData(rows)
  {
    if |rows| == 0 {
      return [];
    }
    var age := FactorRow(Factors[0], rows);
    var bmi := FactorRow(Factors[1], rows);
    var duration := FactorRow(Factors[2], rows);
    result := [age, bmi, duration];
  }

  /** The table of non-empty rows lists the three factors in order, and
      BMI and duration are never computed. */
  lemma CorrelationShape(rows: seq<Row>)
    ensures rows == [] ==> CorrelationData(rows) == []
    ensures rows != [] ==>
              (|CorrelationData(rows)| == 3 &&
               (forall k :: 0 <= k < 3 ==> CorrelationData(rows)[k].factor == Factors[k]) &&
               CorrelationData(rows)[1] == Uncorrelated("BMI") && CorrelationData(rows)[2] == Uncorrelated("病程"))
  {
  }

  /** The age row is computed only when at least two rows carry both an
      age and a value; the denominator is then positive. */
  lemma AgeCorrelationComputed(rows: seq<Row>)
    ensures AgeCorrelation(rows) != Uncorrelated("年龄") ==>
              |Where(rows, HasAgeAndValue)| >= 2 && (exists r :: r in rows && r.age != 0.0) &&
              AgeCorrelation(rows).denominatorSquared > 0.0
    ensures AgeCorrelation(rows).factor == "年龄"
  {
  }

  /** A computed row is labelled '无相关' exactly when its correlation is
      zero, otherwise by its sign and strength; its p-value is 0.01
      exactly for a strong or moderate correlation and 0.5 otherwise. */
  lemma CorrelatedLabels(factor: string, numerator: real, denominatorSquared: real)
    requires denominatorSquared > 0.0
    ensures var row := Correlated(factor, numerator, denominatorSquared);
            (row.significance == "无相关" <==> numerator == 0.0) &&
            (numerator > 0.0 ==> row.significance == "正" + Strength(numerator, denominatorSquared)) &&
            (numerator < 0.0 ==> row.significance == "负" + Strength(numerator, denominatorSquared)) &&
            (row.pValue == 0.01 <==> Strength(numerator, denominatorSquared) != "弱相关") &&
            (row.pValue == 0.5 <==> Strength(numerator, denominatorSquared) == "弱相关")
  {
    var st := Strength(numerator, denominatorSquared);
    assert |"正" + st| != |"无相关"| && |"负" + st| != |"无相关"|;
  }

  /** The age row is labelled '无相关' exactly when its correlation is zero,
      and its p-value is 1 exactly when it is not computed. */
  lemma AgeCorrelationLabels(rows: seq<Row>)
    ensures AgeCorrelation(rows).significance == "无相关" <==> AgeCorrelation(rows).numerator == 0.0
    ensures AgeCorrelation(rows).pValue == 1.0 <==> AgeCorrelation(rows) == Uncorrelated("年龄")
  {
    var row := AgeCorrelation(rows);
    if row != Uncorrelated("年龄") {
      AgeCorrelationComputed(rows);
      CorrelatedLabels("年龄", row.numerator, row.denominatorSquared);
    }
  }
}
