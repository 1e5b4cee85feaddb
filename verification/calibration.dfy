/**
 What the reviewers' decisions say about the confidence threshold. Scores and thresholds count
 thousandths and need not be whole; the report rounds them before it compares.
 */
module Calibration {
  import opened Text
  import opened Vocabulary
  import opened Pipeline
  import opened Selections
  import Discovery

  const MIN_DECISIONS := 5

  datatype Scored = Scored(vendor: string, score: real, held: bool, decision: Option<Decision>, createdAt: int)

  datatype Verdict = SEPARATED | OVERLAPPING | ALL_REJECTED | INSUFFICIENT

  datatype Advice = Advice(verdict: Verdict, suggested: Option<int>)

  datatype Calibrated = Calibrated(
    vendor: string, events: nat, held: nat, approved: nat, rejected: nat,
    mean: Option<int>, meanApproved: Option<int>, meanRejected: Option<int>,
    lowestApproved: Option<int>, highestRejected: Option<int>, advice: Advice)
  {
    // Both rates in thousandths.
    function HoldRate(): int {
      if events == 0 then 0 else Round(1000.0 * held as real / events as real)
    }

    function ApprovalRate(): Option<int> {
      if approved + rejected == 0 then None else Some(Round(1000.0 * approved as real / (approved + rejected) as real))
    }
  }

  // To the nearest whole, and to the even one from half way.
  function Round(x: real): (n: int)
    ensures x - 0.5 <= n as real <= x + 0.5
  {
    var below := x.Floor;
    var rest := x - below as real;
    if rest < 0.5 || (rest == 0.5 && below % 2 == 0) then below else below + 1
  }

  function RoundEach(x: Option<real>): Option<int> {
    if x.Some? then Some(Round(x.value)) else None
  }

  function Assess(threshold: real, reviewed: nat, approved: nat, rejected: nat, lowest: Option<int>, highest: Option<int>)
    : Advice
  {
    if reviewed < MIN_DECISIONS then Advice(INSUFFICIENT, None)
    else if approved == 0 then Advice(ALL_REJECTED, None)
    else if rejected == 0 || (lowest.Some? && highest.Some? && lowest.value > highest.value) then
      Advice(SEPARATED, if lowest.Some? && lowest.value as real < threshold then lowest else None)
    else Advice(OVERLAPPING, None)
  }

  // -- the figures for one vendor -----------------------------------------------------------------------

  function ScoresOf(events: seq<Scored>, d: Decision): seq<real> {
    if events == [] then []
    else
      var last := events[|events| - 1];
      ScoresOf(events[..|events| - 1], d) + (if last.decision == Some(d) then [last.score] else [])
  }

  function Least(scores: seq<real>): Option<real> {
    if scores == [] then None
    else
      var rest := Least(scores[1..]);
      if rest.Some? && rest.value < scores[0] then rest else Some(scores[0])
  }

  function Greatest(scores: seq<real>): Option<real> {
    if scores == [] then None
    else
      var rest := Greatest(scores[1..]);
      if rest.Some? && rest.value > scores[0] then rest else Some(scores[0])
  }

  function AllScores(events: seq<Scored>): seq<real> {
    if events == [] then [] else [events[0].score] + AllScores(events[1..])
  }

  function Sum(scores: seq<real>): real {
    if scores == [] then 0.0 else scores[0] + Sum(scores[1..])
  }

  function Mean(scores: seq<real>): Option<real> {
    if scores == [] then None else Some(Sum(scores) / |scores| as real)
  }

  function HeldCount(events: seq<Scored>): nat {
    if events == [] then 0 else HeldCount(events[1..]) + (if events[0].held then 1 else 0)
  }

  function OfVendor(events: seq<Scored>, vendor: string): seq<Scored> {
    if events == [] then []
    else (if events[0].vendor == vendor then [events[0]] else []) + OfVendor(events[1..], vendor)
  }

  function AdviceFor(events: seq<Scored>, threshold: real): Advice {
    var approved, rejected := ScoresOf(events, APPROVE), ScoresOf(events, REJECT);
    Assess(threshold, |approved| + |rejected|, |approved|, |rejected|,
           RoundEach(Least(approved)), RoundEach(Greatest(rejected)))
  }

  function Calibrate(vendor: string, events: seq<Scored>, threshold: real): Calibrated {
    var approved, rejected := ScoresOf(events, APPROVE), ScoresOf(events, REJECT);
    Calibrated(vendor, |events|, HeldCount(events), |approved|, |rejected|,
               RoundEach(Mean(AllScores(events))), RoundEach(Mean(approved)), RoundEach(Mean(rejected)),
               RoundEach(Least(approved)), RoundEach(Greatest(rejected)), AdviceFor(events, threshold))
  }

  function VendorNames(events: seq<Scored>): seq<string> {
    if events == [] then [] else [events[0].vendor] + VendorNames(events[1..])
  }

  predicate Recent(e: Scored, since: Option<int>) {
    since.Some? ==> e.createdAt >= since.value
  }

  function Since(events: seq<Scored>, since: Option<int>): seq<Scored> {
    if events == [] then []
    else (if Recent(events[0], since) then [events[0]] else []) + Since(events[1..], since)
  }

  ghost predicate HasEvents(events: seq<Scored>, since: Option<int>, vendor: string) {
    exists e :: e in events && Recent(e, since) && e.vendor == vendor
  }

  ghost predicate Reported(report: seq<Calibrated>, vendor: string) {
    exists i :: 0 <= i < |report| && report[i].vendor == vendor
  }

  // One line per vendor that has events in the period, in the order of their names.
  method CalibrationReport(events: seq<Scored>, threshold: real, since: Option<int>) returns (report: seq<Calibrated>)
    ensures forall i :: 0 <= i < |report| ==>
      report[i] == Calibrate(report[i].vendor, OfVendor(Since(events, since), report[i].vendor), threshold)
    ensures forall i, j :: 0 <= i < j < |report| ==> StringLess(report[i].vendor, report[j].vendor)
    ensures forall v :: Reported(report, v) <==> HasEvents(events, since, v)
  {
    var recent := Since(events, since);
    var vendors := Discovery.SortedSet(VendorNames(recent));
    Discovery.SortedSetSorted(VendorNames(recent));
    forall v ensures v in vendors <==> HasEvents(events, since, v) {
      InVendorNames(events, since, v);
    }
    report := [];
    for n := 0 to |vendors|
      invariant |report| == n
      invariant forall i :: 0 <= i < n ==> report[i] == Calibrate(vendors[i], OfVendor(recent, vendors[i]), threshold)
    {
      report := report + [Calibrate(vendors[n], OfVendor(recent, vendors[n]), threshold)];
    }
  }

  lemma {:induction false} InVendorNames(events: seq<Scored>, since: Option<int>, vendor: string)
    ensures vendor in VendorNames(Since(events, since)) <==> HasEvents(events, since, vendor)
  {
    if events != [] {
      var e, rest := events[0], events[1..];
      InVendorNames(rest, since, vendor);
      if Recent(e, since) {
        assert ([e] + Since(rest, since))[1..] == Since(rest, since);
      } else {
        assert Since(events, since) == Since(rest, since);
      }
      assert forall x :: x in events <==> x == e || x in rest;
    }
  }

  // -- what the figures stand for --------------------------------------------------------------------------

  function Self(): Scored -> Scored {
    (e: Scored) => e
  }

  function Score(): Scored -> real {
    (e: Scored) => e.score
  }

  function Decided(d: Decision): Scored -> bool {
    (e: Scored) => e.decision == Some(d)
  }

  function Mine(since: Option<int>, vendor: string): Scored -> bool {
    (e: Scored) => (since.None? || since.value <= e.createdAt) && e.vendor == vendor
  }

  lemma {:induction false} LineEvents(events: seq<Scored>, since: Option<int>, vendor: string)
    ensures Selected(OfVendor(Since(events, since), vendor), events, Mine(since, vendor), Self())
  {
    var mine := Mine(since, vendor);
    if events == [] {
      SelectedNone(mine, Self());
    } else {
      var e, rest := events[0], events[1..];
      LineEvents(rest, since, vendor);
      assert [e] + rest == events;
      VendorOfFirst(events, since, vendor);
      SelectedCons(e, OfVendor(Since(rest, since), vendor), rest, mine, Self());
    }
  }

  lemma VendorOfFirst(events: seq<Scored>, since: Option<int>, vendor: string)
    requires events != []
    ensures OfVendor(Since(events, since), vendor) ==
      (if Mine(since, vendor)(events[0]) then [events[0]] else []) + OfVendor(Since(events[1..], since), vendor)
  {
    var e, rest := events[0], Since(events[1..], since);
    if Recent(e, since) {
      assert Since(events, since) == [e] + rest && ([e] + rest)[1..] == rest;
    } else {
      assert Since(events, since) == rest;
    }
  }

  lemma {:induction false} DecidedScores(events: seq<Scored>, d: Decision)
    ensures Selected(ScoresOf(events, d), events, Decided(d), Score())
  {
    if events == [] {
      SelectedNone(Decided(d), Score());
    } else {
      var n := |events| - 1;
      var e, front := events[n], events[..n];
      DecidedScores(front, d);
      assert front + [e] == events;
      SelectedSnoc(ScoresOf(front, d), front, e, Decided(d), Score());
    }
  }

  function Scores(events: seq<Scored>): seq<real> {
    seq(|events|, i requires 0 <= i < |events| => events[i].score)
  }

  lemma {:induction false} EveryScore(events: seq<Scored>)
    ensures AllScores(events) == Scores(events)
  {
    if events != [] {
      EveryScore(events[1..]);
    }
  }

  ghost function HeldAmong(events: seq<Scored>): nat {
    |set i: nat | i < |events| && events[i].held|
  }

  lemma {:induction false} HeldMeans(events: seq<Scored>)
    ensures HeldCount(events) == HeldAmong(events)
  {
    if events != [] {
      HeldMeans(events[..|events| - 1]);
      HeldSnoc(events);
      HeldAmongSnoc(events);
    }
  }

  lemma HeldAmongSnoc(events: seq<Scored>)
    requires events != []
    ensures var n := |events| - 1; HeldAmong(events) == HeldAmong(events[..n]) + (if events[n].held then 1 else 0)
  {
    var n := |events| - 1;
    var before := set i: nat | i < n && events[..n][i].held;
    var all := set i: nat | i < |events| && events[i].held;
    assert all == before + (if events[n].held then {n} else {});
    assert n !in before;
  }

  lemma {:induction false} HeldSnoc(events: seq<Scored>)
    requires events != []
    ensures var n := |events| - 1; HeldCount(events) == HeldCount(events[..n]) + (if events[n].held then 1 else 0)
  {
    if |events| > 1 {
      HeldSnoc(events[1..]);
      assert events[..|events| - 1][1..] == events[1..][..|events| - 2];
    }
  }

  // A sum adds up what its parts add up to.
  lemma {:induction false} SumMeans(a: seq<real>, b: seq<real>)
    ensures Sum(a + b) == Sum(a) + Sum(b)
    ensures |a| == 1 ==> Sum(a) == a[0]
  {
    if a == [] {
      assert a + b == b;
    } else {
      SumMeans(a[1..], b);
      assert (a + b)[1..] == a[1..] + b;
    }
  }

  // Nothing to average, or the number that makes up the sum when it stands in for every score, rounded.
  ghost predicate Averages(mean: Option<int>, scores: seq<real>) {
    if scores == [] then mean == None
    else exists x: real :: x * |scores| as real == Sum(scores) && mean == Some(Round(x))
  }

  lemma MeanAverages(scores: seq<real>)
    ensures Averages(RoundEach(Mean(scores)), scores)
  {
    if scores != [] {
      var x := Sum(scores) / |scores| as real;
      assert x * |scores| as real == Sum(scores);
      assert RoundEach(Mean(scores)) == Some(Round(x));
    }
  }

  // A line of the report: its events are the vendor's of the period, its counts are of the held, the approved
  // and the rejected among them, and its means are of all their scores, of the approved and of the rejected.
  lemma LineMeans(events: seq<Scored>, since: Option<int>, vendor: string, threshold: real)
    returns (mine: seq<Scored>, approved: seq<real>, rejected: seq<real>)
    ensures Selected(mine, events, Mine(since, vendor), Self())
    ensures Selected(approved, mine, Decided(APPROVE), Score()) && Selected(rejected, mine, Decided(REJECT), Score())
    ensures var line := Calibrate(vendor, OfVendor(Since(events, since), vendor), threshold);
      && line.vendor == vendor && line.held == HeldAmong(mine)
      && line.events == |mine| && line.approved == |approved| && line.rejected == |rejected|
      && Averages(line.mean, Scores(mine)) && Averages(line.meanApproved, approved) && Averages(line.meanRejected, rejected)
  {
    mine := OfVendor(Since(events, since), vendor);
    approved, rejected := ScoresOf(mine, APPROVE), ScoresOf(mine, REJECT);
    LineEvents(events, since, vendor);
    DecidedScores(mine, APPROVE);
    DecidedScores(mine, REJECT);
    HeldMeans(mine);
    EveryScore(mine);
    MeanAverages(Scores(mine));
    MeanAverages(approved);
    MeanAverages(rejected);
  }

  lemma {:induction false} HeldAreEvents(events: seq<Scored>)
    ensures HeldCount(events) <= |events|
    ensures HeldCount(events) == |events| <==> forall e :: e in events ==> e.held
  {
    if events != [] {
      HeldAreEvents(events[1..]);
      assert forall e :: e in events <==> e == events[0] || e in events[1..];
    }
  }

  // So many thousandths of the whole, rounded.
  ghost predicate ShareOf(rate: int, part: nat, whole: nat) {
    exists x: real :: x * whole as real == 1000.0 * part as real && rate == Round(x)
  }

  lemma Product(x: real, w: real)
    requires x > 0.0 && w > 0.0
    ensures x * w > 0.0
  {
  }

  lemma Scaled(x: real, w: real)
    requires w > 0.0 && 0.0 <= x * w <= 1000.0 * w
    ensures 0.0 <= x <= 1000.0
  {
    if x > 1000.0 {
      Product(x - 1000.0, w);
    } else if x < 0.0 {
      Product(-x, w);
    }
  }

  lemma Divided(a: real, w: real)
    requires w > 0.0
    ensures (a / w) * w == a
  {
  }

  lemma Share(part: nat, whole: nat)
    requires part <= whole && whole > 0
    ensures 0 <= Round(1000.0 * part as real / whole as real) <= 1000
    ensures ShareOf(Round(1000.0 * part as real / whole as real), part, whole)
  {
    var p, w := 1000.0 * part as real, whole as real;
    assert 0.0 <= p <= 1000.0 * w;
    Divided(p, w);
    Scaled(p / w, w);
  }

  lemma FullShare(whole: nat)
    requires whole > 0
    ensures Round(1000.0 * whole as real / whole as real) == 1000
  {
    var w := whole as real;
    assert (1000.0 * w) / w == 1000.0;
  }

  // Both rates are shares in thousandths, rounded, from none to all of them; a vendor all of whose events were held has the full rate, and an
  // approval rate is given exactly when something was decided.
  lemma RatesAreShares(vendor: string, events: seq<Scored>, threshold: real)
    ensures var line := Calibrate(vendor, events, threshold);
      && 0 <= line.HoldRate() <= 1000 && (events != [] ==> ShareOf(line.HoldRate(), line.held, line.events))
      && (events != [] && (forall e :: e in events ==> e.held) ==> line.HoldRate() == 1000)
      && (line.ApprovalRate().Some? <==> line.approved + line.rejected > 0)
      && (line.ApprovalRate().Some? ==>
            && 0 <= line.ApprovalRate().value <= 1000
            && ShareOf(line.ApprovalRate().value, line.approved, line.approved + line.rejected))
      && (line.ApprovalRate().Some? && line.rejected == 0 ==> line.ApprovalRate().value == 1000)
  {
    HeldAreEvents(events);
    var line := Calibrate(vendor, events, threshold);
    if line.events > 0 {
      Share(line.held, line.events);
      FullShare(line.events);
    }
    if line.approved + line.rejected > 0 {
      Share(line.approved, line.approved + line.rejected);
      FullShare(line.approved + line.rejected);
    }
  }

  // -- what the advice is worth ---------------------------------------------------------------------------

  predicate Releases(threshold: real, score: real) {
    score >= threshold
  }

  // Releases every approved event and holds every rejected one.
  ghost predicate Separates(threshold: real, approved: seq<real>, rejected: seq<real>) {
    && (forall a :: a in approved ==> Releases(threshold, a))
    && (forall r :: r in rejected ==> !Releases(threshold, r))
  }

  ghost predicate Separable(approved: seq<real>, rejected: seq<real>) {
    exists t: real :: Separates(t, approved, rejected)
  }

  lemma {:induction false} LeastMeans(scores: seq<real>)
    ensures Least(scores).None? <==> scores == []
    ensures Least(scores).Some? ==> Least(scores).value in scores
    ensures Least(scores).Some? ==> forall s :: s in scores ==> Least(scores).value <= s
  {
    if scores != [] {
      LeastMeans(scores[1..]);
      assert forall s :: s in scores <==> s == scores[0] || s in scores[1..];
    }
  }

  lemma {:induction false} GreatestMeans(scores: seq<real>)
    ensures Greatest(scores).None? <==> scores == []
    ensures Greatest(scores).Some? ==> Greatest(scores).value in scores
    ensures Greatest(scores).Some? ==> forall s :: s in scores ==> s <= Greatest(scores).value
  {
    if scores != [] {
      GreatestMeans(scores[1..]);
      assert forall s :: s in scores <==> s == scores[0] || s in scores[1..];
    }
  }

  lemma RoundMonotone(x: real, y: real)
    requires x <= y
    ensures Round(x) <= Round(y)
  {
  }

  // Two groups of scores can be told apart by some threshold exactly when the lowest approval is above
  // the highest rejection, or one group is empty.
  lemma SeparableExactly(approved: seq<real>, rejected: seq<real>)
    ensures Separable(approved, rejected) <==>
      approved == [] || rejected == [] || Least(approved).value > Greatest(rejected).value
  {
    LeastMeans(approved);
    GreatestMeans(rejected);
    if Separable(approved, rejected) && approved != [] && rejected != [] {
      var t: real :| Separates(t, approved, rejected);
      assert Releases(t, Least(approved).value) && !Releases(t, Greatest(rejected).value);
    } else if approved == [] && rejected != [] {
      assert Separates(Greatest(rejected).value + 1.0, approved, rejected);
    } else if approved != [] {
      assert rejected == [] || Least(approved).value > Greatest(rejected).value ==> Separates(Least(approved).value, approved, rejected);
    } else {
      assert Separates(0.0, approved, rejected);
    }
  }

  // The nearest whole lies above a score exactly when its fraction is more than a half, or is a half above
  // an odd whole.
  predicate RoundsUp(x: real) {
    x - x.Floor as real > 0.5 || (x - x.Floor as real == 0.5 && x.Floor % 2 == 1)
  }

  lemma RoundsUpExactly(x: real)
    ensures Round(x) as real > x <==> RoundsUp(x)
  {
  }

  // Decisions enough to go by, with an approval among them.
  predicate Judgeable(approved: seq<real>, rejected: seq<real>) {
    |approved| + |rejected| >= 5 && approved != []
  }

  // The report tells the two groups apart.
  predicate RoundedApart(approved: seq<real>, rejected: seq<real>)
    requires approved != []
  {
    rejected == [] || Round(Least(approved).value) > Round(Greatest(rejected).value)
  }

  lemma ExtremesPresent(approved: seq<real>, rejected: seq<real>)
    ensures Least(approved).Some? <==> approved != []
    ensures Greatest(rejected).Some? <==> rejected != []
  {
    LeastMeans(approved);
    GreatestMeans(rejected);
  }

  // The threshold suggested, and for which decisions one is.
  lemma SuggestedExactly(events: seq<Scored>, threshold: real)
    ensures var approved, rejected := ScoresOf(events, APPROVE), ScoresOf(events, REJECT);
      var suggested := AdviceFor(events, threshold).suggested;
      && (suggested.Some? <==> Judgeable(approved, rejected) && RoundedApart(approved, rejected)
                               && Round(Least(approved).value) as real < threshold)
      && (suggested.Some? ==> suggested.value == Round(Least(approved).value))
  {
    ExtremesPresent(ScoresOf(events, APPROVE), ScoresOf(events, REJECT));
  }

  // A threshold of the lowest approval, rounded, holds every rejection that the report tells apart from it,
  // and releases every approval exactly when the lowest of them does not round up.
  lemma RoundedLeastSeparates(approved: seq<real>, rejected: seq<real>)
    requires approved != [] && RoundedApart(approved, rejected)
    ensures var t := Round(Least(approved).value) as real;
      && (forall r :: r in rejected ==> !Releases(t, r))
      && (Separates(t, approved, rejected) <==> !RoundsUp(Least(approved).value))
  {
    LeastMeans(approved);
    GreatestMeans(rejected);
    var t := Round(Least(approved).value) as real;
    RoundsUpExactly(Least(approved).value);
    if rejected != [] {
      assert Round(Least(approved).value) >= Round(Greatest(rejected).value) + 1;
    }
    assert Separates(t, approved, rejected) ==> Releases(t, Least(approved).value);
  }

  // A suggested threshold is the lowest approval, rounded. It is lower than the present one and holds every
  // rejection, and it releases every approval exactly when the lowest does not round up.
  lemma SuggestionMeans(events: seq<Scored>, threshold: real)
    requires AdviceFor(events, threshold).suggested.Some?
    ensures var t := AdviceFor(events, threshold).suggested.value as real;
      var approved, rejected := ScoresOf(events, APPROVE), ScoresOf(events, REJECT);
      && t < threshold && approved != [] && t == Round(Least(approved).value) as real
      && (forall r :: r in rejected ==> !Releases(t, r))
      && (Separates(t, approved, rejected) <==> !RoundsUp(Least(approved).value))
  {
    SuggestedExactly(events, threshold);
    RoundedLeastSeparates(ScoresOf(events, APPROVE), ScoresOf(events, REJECT));
  }

  // The suggestion is wrong for exactly these decisions: enough of them, told apart by the report, with a
  // lowest approval that rounds up, to below the present threshold.
  lemma WrongSuggestionExactly(events: seq<Scored>, threshold: real)
    ensures var approved, rejected := ScoresOf(events, APPROVE), ScoresOf(events, REJECT);
      var suggested := AdviceFor(events, threshold).suggested;
      (suggested.Some? && !Separates(suggested.value as real, approved, rejected)) <==>
        && Judgeable(approved, rejected) && RoundedApart(approved, rejected)
        && Round(Least(approved).value) as real < threshold && RoundsUp(Least(approved).value)
  {
    SuggestedExactly(events, threshold);
    if AdviceFor(events, threshold).suggested.Some? {
      SuggestionMeans(events, threshold);
    }
  }

  // An overlap is reported for exactly the decisions, enough of them and of both kinds, that the rounded
  // extremes do not tell apart; no threshold separates them unless the lowest approval is above the highest
  // rejection after all.
  lemma OverlapMeans(events: seq<Scored>, threshold: real)
    ensures var approved, rejected := ScoresOf(events, APPROVE), ScoresOf(events, REJECT);
      AdviceFor(events, threshold).verdict == OVERLAPPING <==>
        && Judgeable(approved, rejected) && rejected != []
        && Round(Least(approved).value) <= Round(Greatest(rejected).value)
    ensures var approved, rejected := ScoresOf(events, APPROVE), ScoresOf(events, REJECT);
      AdviceFor(events, threshold).verdict == OVERLAPPING ==>
        (Separable(approved, rejected) <==> Least(approved).value > Greatest(rejected).value)
  {
    ExtremesPresent(ScoresOf(events, APPROVE), ScoresOf(events, REJECT));
    SeparableExactly(ScoresOf(events, APPROVE), ScoresOf(events, REJECT));
  }

  // An overlap is reported although some threshold separates for exactly these decisions: enough of them, of
  // both kinds, with the lowest approval above the highest rejection but rounding to the same thousandth.
  lemma FalseOverlapExactly(events: seq<Scored>, threshold: real)
    ensures var approved, rejected := ScoresOf(events, APPROVE), ScoresOf(events, REJECT);
      (AdviceFor(events, threshold).verdict == OVERLAPPING && Separable(approved, rejected)) <==>
        && Judgeable(approved, rejected) && rejected != []
        && Least(approved).value > Greatest(rejected).value
        && Round(Least(approved).value) == Round(Greatest(rejected).value)
  {
    var approved, rejected := ScoresOf(events, APPROVE), ScoresOf(events, REJECT);
    OverlapMeans(events, threshold);
    SeparableExactly(approved, rejected);
    ExtremesPresent(approved, rejected);
    if approved != [] && rejected != [] && Least(approved).value > Greatest(rejected).value {
      RoundMonotone(Greatest(rejected).value, Least(approved).value);
    }
  }

  predicate Whole(x: real) {
    x == x.Floor as real
  }

  lemma RoundWhole(x: real)
    requires Whole(x)
    ensures Round(x) as real == x
  {
  }

  // For scores that are whole thousandths, as every score of the rule-based reader is, and decisions
  // enough to go by: the verdict says whether any threshold separates, and a suggestion is made exactly
  // when the lowest approval is below the present threshold, and then it separates.
  lemma WholeScoresAreJudgedRightly(events: seq<Scored>, threshold: real)
    requires forall e :: e in events ==> Whole(e.score)
    requires |ScoresOf(events, APPROVE)| + |ScoresOf(events, REJECT)| >= MIN_DECISIONS && ScoresOf(events, APPROVE) != []
    ensures var approved, rejected := ScoresOf(events, APPROVE), ScoresOf(events, REJECT);
      var advice := AdviceFor(events, threshold);
      && (advice.verdict == SEPARATED <==> Separable(approved, rejected))
      && (advice.verdict == OVERLAPPING <==> !Separable(approved, rejected))
      && (advice.suggested.Some? <==> Separable(approved, rejected) && Least(approved).value < threshold)
      && (advice.suggested.Some? ==> Separates(advice.suggested.value as real, approved, rejected))
  {
    var approved, rejected := ScoresOf(events, APPROVE), ScoresOf(events, REJECT);
    ScoresWhole(events, APPROVE);
    ScoresWhole(events, REJECT);
    LeastMeans(approved);
    GreatestMeans(rejected);
    SeparableExactly(approved, rejected);
    RoundWhole(Least(approved).value);
    if rejected != [] {
      RoundWhole(Greatest(rejected).value);
    }
    RoundsUpExactly(Least(approved).value);
    SuggestedExactly(events, threshold);
    if AdviceFor(events, threshold).suggested.Some? {
      SuggestionMeans(events, threshold);
    }
  }

  lemma {:induction false} ScoresWhole(events: seq<Scored>, d: Decision)
    requires forall e :: e in events ==> Whole(e.score)
    ensures forall s :: s in ScoresOf(events, d) ==> Whole(s)
  {
    if events != [] {
      ScoresWhole(events[..|events| - 1], d);
    }
  }

  // -- where rounding misleads ------------------------------------------------------------------------------

  lemma ScoresSnoc(events: seq<Scored>, e: Scored, d: Decision)
    ensures ScoresOf(events + [e], d) == ScoresOf(events, d) + (if e.decision == Some(d) then [e.score] else [])
  {
    assert (events + [e])[..|events|] == events;
  }

  function Repeated(e: Scored, n: nat): seq<Scored> {
    if n == 0 then [] else Repeated(e, n - 1) + [e]
  }

  lemma {:induction false} RepeatedScores(e: Scored, n: nat, d: Decision)
    ensures |ScoresOf(Repeated(e, n), d)| == if e.decision == Some(d) then n else 0
    ensures forall s :: s in ScoresOf(Repeated(e, n), d) ==> s == e.score
  {
    if n > 0 {
      RepeatedScores(e, n - 1, d);
      ScoresSnoc(Repeated(e, n - 1), e, d);
    }
  }

  // Five approvals at 600.6: the suggestion, 601, would have held every one of them.
  lemma ASuggestionCanBeTooHigh() returns (events: seq<Scored>)
    ensures var t := AdviceFor(events, 700.0).suggested;
      t == Some(601) && forall a :: a in ScoresOf(events, APPROVE) ==> !Releases(t.value as real, a)
  {
    var e := Scored("", 600.6, true, Some(APPROVE), 0);
    events := Repeated(e, 5);
    RepeatedScores(e, 5, APPROVE);
    RepeatedScores(e, 5, REJECT);
    LeastMeans(ScoresOf(events, APPROVE));
    assert Least(ScoresOf(events, APPROVE)) == Some(600.6);
    assert Round(600.6) == 601;
  }

  lemma SameScores(scores: seq<real>, x: real)
    requires scores != [] && forall s :: s in scores ==> s == x
    ensures Least(scores) == Some(x) && Greatest(scores) == Some(x)
  {
    LeastMeans(scores);
    GreatestMeans(scores);
  }

  lemma SomeAndOne(a: Scored, n: nat, r: Scored) returns (events: seq<Scored>)
    requires a.decision == Some(APPROVE) && r.decision == Some(REJECT)
    ensures |ScoresOf(events, APPROVE)| == n && forall s :: s in ScoresOf(events, APPROVE) ==> s == a.score
    ensures ScoresOf(events, REJECT) == [r.score]
  {
    events := Repeated(a, n) + [r];
    RepeatedScores(a, n, APPROVE);
    RepeatedScores(a, n, REJECT);
    ScoresSnoc(Repeated(a, n), r, APPROVE);
    ScoresSnoc(Repeated(a, n), r, REJECT);
  }

  // Four approvals at 600.4 and a rejection at 600.2: 600.4 separates them, yet the report says nothing can.
  lemma AnOverlapCanBeFalse() returns (events: seq<Scored>)
    ensures AdviceFor(events, 700.0).verdict == OVERLAPPING
    ensures Separates(600.4, ScoresOf(events, APPROVE), ScoresOf(events, REJECT))
  {
    events := SomeAndOne(Scored("", 600.4, true, Some(APPROVE), 0), 4, Scored("", 600.2, true, Some(REJECT), 0));
    SameScores(ScoresOf(events, APPROVE), 600.4);
    SameScores(ScoresOf(events, REJECT), 600.2);
    assert Round(600.4) == 600 && Round(600.2) == 600;
    FalseOverlapExactly(events, 700.0);
  }
}
