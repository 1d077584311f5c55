/**
 * Assessment of reference coverage from the pileup (`assess_coverage`): the
 * sites of depth below one, the runs of consecutive such sites, and a verdict
 * against the 90 % coverage threshold.
 */
module Coverage {

  /** A pileup line, reduced to the two columns the assessment reads. */
  datatype PileupRow = PileupRow(site: int, depth: int)

  const MinDepth := 1

  /** The sites of the rows whose depth is below the minimum, in file order. */
  function Uncovered(rows: seq<PileupRow>): seq<int>
  {
    if rows == [] then []
    else
      var last := rows[|rows| - 1];
      Uncovered(rows[..|rows| - 1]) + (if last.depth < MinDepth then [last.site] else [])
  }

  /** A site is reported exactly when some row of depth below the minimum names it. */
  lemma {:induction false} UncoveredMembers(rows: seq<PileupRow>, s: int)
    ensures s in Uncovered(rows) <==> exists j :: 0 <= j < |rows| && rows[j].depth < MinDepth && rows[j].site == s
    ensures |Uncovered(rows)| <= |rows|
    decreases |rows|
  {
    if rows != [] {
      var init := rows[..|rows| - 1];
      UncoveredMembers(init, s);
      assert forall j :: 0 <= j < |init| ==> init[j] == rows[j];
    }
  }

  /** The variables of the run-measuring loop. */
  datatype Runs = Runs(region: int, regions: seq<int>, last: int, largest: int)

  const Start := Runs(0, [], 0, 0)

  /** One iteration of the run-measuring loop. */
  function Step(st: Runs, site: int): Runs {
    if site == st.last + 1 then
      var region := st.region + 1;
      Runs(region, st.regions, site, if region > st.largest then region else st.largest)
    else
      Runs(1, if st.region > 0 then st.regions + [st.region] else st.regions, site, st.largest)
  }

  /** The loop over a list of uncovered sites. */
  function Measure(sites: seq<int>): Runs {
    if sites == [] then Start else Step(Measure(sites[..|sites| - 1]), sites[|sites| - 1])
  }

  function Sum(xs: seq<int>): int {
    if xs == [] then 0 else Sum(xs[..|xs| - 1]) + xs[|xs| - 1]
  }

  /** Positions where a site does not continue the run before it. */
  function Breaks(sites: seq<int>): nat {
    if |sites| <= 1 then 0
    else Breaks(sites[..|sites| - 1]) + (if sites[|sites| - 1] == sites[|sites| - 2] + 1 then 0 else 1)
  }

  /**
   * Every uncovered site lies in exactly one run, the closed ones in `regions`
   * and the open one in `region`; runs are never empty, and the open run is
   * never added to `regions`.
   */
  lemma {:induction false} MeasureCounts(sites: seq<int>)
    ensures var st := Measure(sites);
      && Sum(st.regions) + st.region == |sites|
      && st.region >= 0
      && (forall r :: r in st.regions ==> r >= 1)
      && (sites == [] <==> st.region == 0)
      && (sites != [] ==> st.last == sites[|sites| - 1])
    decreases |sites|
  {
    if sites != [] {
      var init := sites[..|sites| - 1];
      MeasureCounts(init);
      var st := Measure(init);
      var site := sites[|sites| - 1];
      if site != st.last + 1 && st.region > 0 {
        assert (st.regions + [st.region])[..|st.regions|] == st.regions;
        assert Sum(st.regions + [st.region]) == Sum(st.regions) + st.region;
      }
    }
  }

  /** One run is closed at every break between consecutive sites. */
  lemma {:induction false} MeasureBreaks(sites: seq<int>)
    requires sites != []
    ensures |Measure(sites).regions| == Breaks(sites)
    decreases |sites|
  {
    var init := sites[..|sites| - 1];
    if init != [] {
      MeasureBreaks(init);
      MeasureCounts(init);
      assert sites[|sites| - 2] == init[|init| - 1];
    }
  }

  /**
   * `largest` is zero or the length of some run, and at least the length of
   * every run longer than one site.
   */
  lemma {:induction false} MeasureLargest(sites: seq<int>)
    ensures var st := Measure(sites);
      && (st.largest == 0 || st.largest in st.regions || st.largest == st.region)
      && (forall r :: r in st.regions && r >= 2 ==> r <= st.largest)
      && (st.region >= 2 ==> st.region <= st.largest)
    decreases |sites|
  {
    if sites != [] {
      MeasureLargest(sites[..|sites| - 1]);
      MeasureCounts(sites[..|sites| - 1]);
    }
  }

  /** Site `j` continues the run before it; before the first site the loop's `last` is 0. */
  predicate Continues(sites: seq<int>, j: int)
    requires 0 <= j < |sites|
  {
    sites[j] == (if j == 0 then 0 else sites[j - 1]) + 1
  }

  /**
   * `largest` moves only when a site continues a run, so it stays 0 exactly when
   * no site does; when at most the first site does (it is site 1), it is 0 or 1
   * although every run has length one.
   */
  lemma {:induction false} LargestOnContinuation(sites: seq<int>)
    ensures Measure(sites).largest >= 1 <==> exists j :: 0 <= j < |sites| && Continues(sites, j)
    ensures (forall j :: 0 < j < |sites| ==> !Continues(sites, j)) ==>
      Measure(sites).largest == if sites != [] && sites[0] == 1 then 1 else 0
    decreases |sites|
  {
    if sites != [] {
      var init := sites[..|sites| - 1];
      LargestOnContinuation(init);
      MeasureCounts(init);
      LargestBounded(init);
      var n := |sites| - 1;
      assert forall j :: 0 <= j < n ==> Continues(init, j) == Continues(sites, j);
      assert Measure(sites) == Step(Measure(init), sites[n]);
      assert Continues(sites, n) <==> sites[n] == Measure(init).last + 1 by {
        if n > 0 {
          assert sites[n - 1] == init[n - 1];
        }
      }
      if n > 0 && forall j :: 0 < j < |sites| ==> !Continues(sites, j) {
        assert !Continues(sites, n);
        assert init[0] == sites[0];
      }
    }
  }

  /** A total of non-negative numbers is at least each of them. */
  lemma {:induction false} SumBounds(xs: seq<int>)
    requires forall x :: x in xs ==> x >= 0
    ensures Sum(xs) >= 0 && forall x :: x in xs ==> x <= Sum(xs)
    decreases |xs|
  {
    if xs != [] {
      var init, last := xs[..|xs| - 1], xs[|xs| - 1];
      assert xs == init + [last];
      forall x | x in init ensures x in xs && x >= 0 {
        var k :| 0 <= k < |init| && init[k] == x;
        assert xs[k] == x;
      }
      SumBounds(init);
      assert last in xs;
      assert Sum(xs) == Sum(init) + last;
      forall x | x in xs ensures x <= Sum(xs) {
        if x != last {
          var k :| 0 <= k < |xs| && xs[k] == x;
          assert init[k] == x && x in init;
        }
      }
    }
  }

  /** No uncovered region is longer than the number of uncovered sites. */
  lemma LargestBounded(sites: seq<int>)
    ensures 0 <= Measure(sites).largest <= |sites|
  {
    MeasureLargest(sites);
    MeasureCounts(sites);
    SumBounds(Measure(sites).regions);
  }

  /** The largest uncovered region is the longest run, whenever some run is longer than one site. */
  lemma LargestIsLongest(sites: seq<int>, r: int)
    requires (r in Measure(sites).regions || r == Measure(sites).region) && r >= 2
    ensures r <= Measure(sites).largest
    ensures Measure(sites).largest in Measure(sites).regions + [Measure(sites).region]
  {
    MeasureLargest(sites);
  }

  /**
   * Two behaviours of the loop: the open run is never added to `regions`, and
   * a run entered through the `else` branch that never grows leaves `largest` alone.
   */
  lemma MeasureExamples()
    ensures Uncovered([PileupRow(1, 0), PileupRow(2, 0), PileupRow(3, 5), PileupRow(4, 0)]) == [1, 2, 4]
    ensures Measure([1, 2, 4]) == Runs(1, [2], 4, 2)
    ensures Measure([5]) == Runs(1, [], 5, 0)
    ensures Measure([1]) == Runs(1, [], 1, 1)
  {
    assert [1, 2, 4][..2] == [1, 2] && [1, 2][..1] == [1];
    var r1 := [PileupRow(1, 0)];
    var r2 := r1 + [PileupRow(2, 0)];
    var r3 := r2 + [PileupRow(3, 5)];
    var r4 := r3 + [PileupRow(4, 0)];
    assert r1[..0] == [] && r2[..1] == r1 && r3[..2] == r2 && r4[..3] == r3;
    assert Uncovered(r2) == [1, 2];
    assert r4 == [PileupRow(1, 0), PileupRow(2, 0), PileupRow(3, 5), PileupRow(4, 0)];
  }

  datatype Verdict = AllCovered | AboveThreshold | BelowThreshold

  /**
   * The closing test: nothing uncovered, fewer uncovered sites than the 10 % of
   * the reference that 1 - 0.9 allows, or not. The integer test equals the test
   * in exact arithmetic.
   */
  function Judge(uncovered: nat, referenceLength: int): (v: Verdict)
    ensures v == AllCovered <==> uncovered == 0
    ensures v == AboveThreshold <==> uncovered > 0 && (uncovered as real) < (1.0 - 0.9) * (referenceLength as real)
    ensures v == BelowThreshold <==> uncovered > 0 && (uncovered as real) >= (1.0 - 0.9) * (referenceLength as real)
  {
    if uncovered == 0 then AllCovered
    else if 10 * uncovered < referenceLength then AboveThreshold
    else BelowThreshold
  }

  /** Everything `assess_coverage` computes and reports. */
  datatype Assessment = Assessment(uncovered: seq<int>, regions: seq<int>, largest: int, verdict: Verdict)

  /** `assess_coverage` over the parsed pileup of the reference and its length. */
  method AssessCoverage(rows: seq<PileupRow>, referenceLength: int) returns (a: Assessment)
    ensures a.uncovered == Uncovered(rows)
    ensures var st := Measure(a.uncovered); a.regions == st.regions && a.largest == st.largest
    ensures a.verdict == Judge(|a.uncovered|, referenceLength)
  {
    var uncovered: seq<int> := [];
    var i := 0;
    while i < |rows|
      invariant 0 <= i <= |rows|
      invariant uncovered == Uncovered(rows[..i])
    {
      assert rows[..i + 1][..i] == rows[..i];
      if rows[i].depth < MinDepth {
        uncovered := uncovered + [rows[i].site];
      }
      i := i + 1;
    }
    assert rows[..i] == rows;
    var region, regions, last, largest := 0, [], 0, 0;
    var j := 0;
    while j < |uncovered|
      invariant 0 <= j <= |uncovered|
      invariant Runs(region, regions, last, largest) == Measure(uncovered[..j])
    {
      var site := uncovered[j];
      assert uncovered[..j + 1][..j] == uncovered[..j];
      if site == last + 1 {
        region := region + 1;
        if region > largest {
          largest := region;
        }
      } else {
        if region > 0 {
          regions := regions + [region];
        }
        region := 1;
      }
      last := site;
      j := j + 1;
    }
    assert uncovered[..j] == uncovered;
    a := Assessment(uncovered, regions, largest, Judge(|uncovered|, referenceLength));
  }
}
