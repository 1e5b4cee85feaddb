/**
 The bulkhead: a vendor's arrivals are counted in fixed windows, and what exceeds the burst in a window
 goes to the bulk lane. Time counts whole ticks of any resolution.
 */
module Routing {
  import opened Text

  datatype Lane = DefaultLane | BulkLane

  datatype Slot = Slot(vendor: string, bucket: nat)

  datatype Counter = Counter(count: nat, expires: nat)

  datatype Arrival = Arrival(vendor: string, at: nat)

  // A window of zero is read as unset.
  function WindowOf(setting: nat): (w: nat)
    ensures w > 0
  {
    if setting == 0 then 60 else setting
  }

  function VendorKey(vendor: string): string {
    Lower(Strip(if vendor == "" then "unknown" else vendor))
  }

  // What makes two senders one: their stripped names agree without regard to case, and a sender without a
  // name is called unknown.
  predicate SameVendor(a: string, b: string) {
    SameWithoutCase(Strip(Named(a)), Strip(Named(b)))
  }

  function Named(vendor: string): string {
    if vendor == "" then "unknown" else vendor
  }

  lemma VendorsShareAKeyExactly(a: string, b: string)
    ensures VendorKey(a) == VendorKey(b) <==> SameVendor(a, b)
  {
    CaseForgotten(Strip(Named(a)), Strip(Named(b)));
  }

  function SlotOf(a: Arrival, window: nat): Slot
    requires window > 0
  {
    Slot(a.vendor, a.at / window)
  }

  function Count(log: seq<Arrival>, slot: Slot, window: nat): nat
    requires window > 0
  {
    if log == [] then 0
    else Count(log[..|log| - 1], slot, window) + (if SlotOf(log[|log| - 1], window) == slot then 1 else 0)
  }

  // A burst that is not positive switches the bulkhead off.
  function QueueForVendor(burst: int, arrivals: nat): Lane {
    if burst <= 0 || arrivals <= burst then DefaultLane else BulkLane
  }

  // The lane of an arrival, given the counted arrivals before it.
  function LaneAfter(log: seq<Arrival>, a: Arrival, window: nat, burst: int): Lane
    requires window > 0
  {
    QueueForVendor(burst, Count(log + [a], SlotOf(a, window), window))
  }

  // -- what is counted, by the names as they were sent -------------------------------------------------

  ghost predicate Counts(a: Arrival, vendor: string, bucket: nat, window: nat)
    requires window > 0
  {
    SameVendor(a.vendor, vendor) && a.at / window == bucket
  }

  // How many of these arrivals are the same vendor's, in this window.
  ghost function SoFar(history: seq<Arrival>, vendor: string, bucket: nat, window: nat): nat
    requires window > 0
  {
    |set i: nat | i < |history| && Counts(history[i], vendor, bucket, window)|
  }

  lemma SoFarSnoc(history: seq<Arrival>, a: Arrival, vendor: string, bucket: nat, window: nat)
    requires window > 0
    ensures SoFar(history + [a], vendor, bucket, window) ==
            SoFar(history, vendor, bucket, window) + (if Counts(a, vendor, bucket, window) then 1 else 0)
  {
    var n, longer := |history|, history + [a];
    var before := set i: nat | i < n && Counts(history[i], vendor, bucket, window);
    var after := set i: nat | i < |longer| && Counts(longer[i], vendor, bucket, window);
    assert after == before + (if Counts(a, vendor, bucket, window) then {n} else {});
    assert n !in before;
  }

  // However noisy, a vendor of another name leaves this vendor's count as it is.
  lemma {:induction false} NoisyNeighbours(history: seq<Arrival>, others: seq<Arrival>, vendor: string, bucket: nat, window: nat)
    requires window > 0 && forall a :: a in others ==> !SameVendor(a.vendor, vendor)
    ensures SoFar(history + others, vendor, bucket, window) == SoFar(history, vendor, bucket, window)
  {
    if others == [] {
      assert history + others == history;
    } else {
      var n := |others| - 1;
      NoisyNeighbours(history, others[..n], vendor, bucket, window);
      SoFarSnoc(history + others[..n], others[n], vendor, bucket, window);
      assert history + others[..n] + [others[n]] == history + others;
    }
  }

  function Logged(history: seq<Arrival>): seq<Arrival> {
    seq(|history|, i requires 0 <= i < |history| => Arrival(VendorKey(history[i].vendor), history[i].at))
  }

  lemma LoggedSnoc(history: seq<Arrival>, a: Arrival)
    ensures Logged(history + [a]) == Logged(history) + [Arrival(VendorKey(a.vendor), a.at)]
  {
  }

  lemma {:induction false} CountIsSoFar(history: seq<Arrival>, vendor: string, bucket: nat, window: nat)
    requires window > 0
    ensures Count(Logged(history), Slot(VendorKey(vendor), bucket), window) == SoFar(history, vendor, bucket, window)
  {
    if history != [] {
      var front, a := history[..|history| - 1], history[|history| - 1];
      assert front + [a] == history;
      CountIsSoFar(front, vendor, bucket, window);
      SoFarSnoc(front, a, vendor, bucket, window);
      VendorsShareAKeyExactly(a.vendor, vendor);
      LoggedSnoc(front, a);
      CountSnoc(Logged(front), Arrival(VendorKey(a.vendor), a.at), Slot(VendorKey(vendor), bucket), window);
    }
  }

  // -- the counter ------------------------------------------------------------------------------------

  function Opens(bucket: nat, window: nat): nat {
    bucket * window
  }

  // Each counter was added within its own window and counts that window's arrivals so far.
  predicate CountedSlot(counter: Counter, log: seq<Arrival>, slot: Slot, window: nat)
    requires window > 0
  {
    && counter.count == Count(log, slot, window)
    && Timely(counter.expires, slot.bucket, window)
  }

  // Twice the window after some moment inside the window.
  predicate Timely(expires: nat, bucket: nat, window: nat) {
    Opens(bucket, window) + 2 * window <= expires < Opens(bucket, window) + 3 * window
  }

  ghost predicate Counted(counters: map<Slot, Counter>, log: seq<Arrival>, window: nat)
    requires window > 0
  {
    && (forall slot :: slot in counters ==> CountedSlot(counters[slot], log, slot, window))
    && (forall slot :: slot !in counters ==> Count(log, slot, window) == 0)
  }

  // A counter cannot run out inside the window it counts.
  lemma LiveInItsWindow(counters: map<Slot, Counter>, log: seq<Arrival>, slot: Slot, now: nat, window: nat)
    requires window > 0 && Counted(counters, log, window) && slot.bucket == now / window
    ensures slot in counters ==> now < counters[slot].expires && counters[slot].count == Count(log, slot, window)
    ensures slot !in counters ==> Count(log, slot, window) == 0
  {
    InsideItsWindow(now, window);
    if slot in counters {
      assert CountedSlot(counters[slot], log, slot, window);
    }
  }

  lemma CountedAfter(counters: map<Slot, Counter>, log: seq<Arrival>, counter: Counter, a: Arrival, window: nat)
    requires window > 0 && Counted(counters, log, window)
    requires counter.count == Count(log, SlotOf(a, window), window) + 1
    requires counter.expires == if SlotOf(a, window) in counters then counters[SlotOf(a, window)].expires else a.at + 2 * window
    ensures Counted(counters[SlotOf(a, window) := counter], log + [a], window)
    ensures counter.count == Count(log + [a], SlotOf(a, window), window)
  {
    forall s ensures Count(log + [a], s, window) == Count(log, s, window) + (if s == SlotOf(a, window) then 1 else 0) {
      CountSnoc(log, a, s, window);
    }
    var after := counters[SlotOf(a, window) := counter];
    forall s | s in after ensures CountedSlot(after[s], log + [a], s, window) {
      if s in counters {
        assert CountedSlot(counters[s], log, s, window);
        assert Timely(counters[s].expires, s.bucket, window);
      }
      if s == SlotOf(a, window) {
        AddedTimely(a.at, window);
        assert Timely(counter.expires, s.bucket, window);
      }
    }
  }

  lemma AddedTimely(now: nat, window: nat)
    requires window > 0
    ensures Timely(now + 2 * window, now / window, window)
  {
    InsideItsWindow(now, window);
  }

  class ArrivalCounter {
    const window: nat
    const burst: int
    var counters: map<Slot, Counter>
    // The counted arrivals, under the names they were sent with.
    ghost var history: seq<Arrival>

    ghost predicate Valid()
      reads this
    {
      window > 0 && Counted(counters, Logged(history), window)
    }

    constructor (windowSetting: nat, burst: int)
      ensures Valid() && window == (if windowSetting == 0 then 60 else windowSetting) && this.burst == burst
      ensures history == []
    {
      window, this.burst := WindowOf(windowSetting), burst;
      counters, history := map[], [];
    }

    // Add the counter unless a live one is there, then increment it. An unreachable cache counts as zero.
    method RecordArrival(vendor: string, now: nat, reachable: bool) returns (arrivals: nat)
      requires Valid()
      modifies this
      ensures Valid()
      ensures history == if reachable then old(history) + [Arrival(vendor, now)] else old(history)
      ensures arrivals == if reachable then SoFar(old(history), vendor, now / window, window) + 1 else 0
      ensures forall slot :: slot != Slot(VendorKey(vendor), now / window) ==>
        (slot in counters <==> slot in old(counters)) && (slot in counters ==> counters[slot] == old(counters)[slot])
    {
      if !reachable {
        return 0;
      }
      var slot := Slot(VendorKey(vendor), now / window);
      ghost var before, log := counters, Logged(history);
      LiveInItsWindow(counters, log, slot, now, window);
      if slot !in counters || now >= counters[slot].expires {
        counters := counters[slot := Counter(0, now + window * 2)];
      }
      var counter := counters[slot];
      counters := counters[slot := counter.(count := counter.count + 1)];
      CountedAfter(before, log, counters[slot], Arrival(slot.vendor, now), window);
      CountIsSoFar(history, vendor, now / window, window);
      LoggedSnoc(history, Arrival(vendor, now));
      history := history + [Arrival(vendor, now)];
      return counters[slot].count;
    }

    // The default lane takes an arrival unless this vendor alone has used up a burst in this window.
    method RouteFor(vendor: string, now: nat, reachable: bool) returns (lane: Lane)
      requires Valid()
      modifies this
      ensures Valid()
      ensures history == if reachable then old(history) + [Arrival(vendor, now)] else old(history)
      ensures lane == DefaultLane <==> !reachable || burst <= 0 || SoFar(old(history), vendor, now / window, window) < burst
      ensures reachable ==> lane == LaneAfter(Logged(old(history)), Arrival(VendorKey(vendor), now), window, burst)
    {
      CountIsSoFar(history, vendor, now / window, window);
      CountSnoc(Logged(history), Arrival(VendorKey(vendor), now), Slot(VendorKey(vendor), now / window), window);
      var arrivals := RecordArrival(vendor, now, reachable);
      lane := QueueForVendor(burst, arrivals);
    }
  }

  lemma InsideItsWindow(now: nat, window: nat)
    requires window > 0
    ensures Opens(now / window, window) <= now < Opens(now / window, window) + window
  {
  }

  lemma CountSnoc(log: seq<Arrival>, a: Arrival, slot: Slot, window: nat)
    requires window > 0
    ensures Count(log + [a], slot, window) == Count(log, slot, window) + (if SlotOf(a, window) == slot then 1 else 0)
  {
    assert (log + [a])[..|log|] == log;
  }

  // -- how much of a vendor's traffic reaches the default lane ------------------------------------------

  // Arrivals of the vendor sent to the default lane in the buckets from `first` on, `n` of them.
  function Admitted(log: seq<Arrival>, vendor: string, first: nat, n: nat, window: nat, burst: nat): nat
    requires window > 0
  {
    if log == [] then 0
    else
      var front, a := log[..|log| - 1], log[|log| - 1];
      Admitted(front, vendor, first, n, window, burst) +
      (if a.vendor == vendor && first <= a.at / window < first + n && LaneAfter(front, a, window, burst).DefaultLane?
       then 1 else 0)
  }

  // In one window the default lane gets the first `burst` arrivals and no more.
  lemma {:induction false} AdmittedInOneWindow(log: seq<Arrival>, vendor: string, bucket: nat, window: nat, burst: nat)
    requires window > 0 && burst > 0
    ensures var count := Count(log, Slot(vendor, bucket), window);
      Admitted(log, vendor, bucket, 1, window, burst) == if count <= burst then count else burst
  {
    if log != [] {
      var front, a := log[..|log| - 1], log[|log| - 1];
      AdmittedInOneWindow(front, vendor, bucket, window, burst);
      CountSnoc(front, a, Slot(vendor, bucket), window);
      assert front + [a] == log;
    }
  }

  lemma {:induction false} AdmittedSplits(log: seq<Arrival>, vendor: string, first: nat, n: nat, window: nat, burst: nat)
    requires window > 0
    ensures Admitted(log, vendor, first, n + 1, window, burst) ==
            Admitted(log, vendor, first, n, window, burst) + Admitted(log, vendor, first + n, 1, window, burst)
  {
    if log != [] {
      AdmittedSplits(log[..|log| - 1], vendor, first, n, window, burst);
    }
  }

  lemma {:induction false} AdmittedInWindows(log: seq<Arrival>, vendor: string, first: nat, n: nat, window: nat, burst: nat)
    requires window > 0 && burst > 0
    ensures Admitted(log, vendor, first, n, window, burst) <= n * burst
  {
    if n == 0 {
      NothingAdmitted(log, vendor, first, window, burst);
    } else {
      AdmittedInWindows(log, vendor, first, n - 1, window, burst);
      AdmittedSplits(log, vendor, first, n - 1, window, burst);
      AdmittedInOneWindow(log, vendor, first + n - 1, window, burst);
      assert n * burst == (n - 1) * burst + burst;
    }
  }

  lemma {:induction false} NothingAdmitted(log: seq<Arrival>, vendor: string, first: nat, window: nat, burst: nat)
    requires window > 0
    ensures Admitted(log, vendor, first, 0, window, burst) == 0
  {
    if log != [] {
      NothingAdmitted(log[..|log| - 1], vendor, first, window, burst);
    }
  }

  // Arrivals of the vendor sent to the default lane at times from `from` up to `until`.
  function AdmittedBetween(log: seq<Arrival>, vendor: string, from: nat, until: nat, window: nat, burst: nat): nat
    requires window > 0
  {
    if log == [] then 0
    else
      var front, a := log[..|log| - 1], log[|log| - 1];
      AdmittedBetween(front, vendor, from, until, window, burst) +
      (if a.vendor == vendor && from <= a.at < until && LaneAfter(front, a, window, burst).DefaultLane? then 1 else 0)
  }

  lemma {:induction false} IntervalMeetsFewWindows(log: seq<Arrival>, vendor: string, from: nat, m: nat, window: nat, burst: nat)
    requires window > 0
    ensures AdmittedBetween(log, vendor, from, from + m * window, window, burst)
         <= Admitted(log, vendor, from / window, m + 1, window, burst)
  {
    if log != [] {
      IntervalMeetsFewWindows(log[..|log| - 1], vendor, from, m, window, burst);
      var a := log[|log| - 1];
      if from <= a.at < from + m * window {
        BucketInRange(from, a.at, m, window);
      }
    }
  }

  lemma BucketInRange(from: nat, at: nat, m: nat, window: nat)
    requires window > 0 && from <= at < from + m * window
    ensures from / window <= at / window < from / window + m + 1
  {
    InsideItsWindow(from, window);
    InsideItsWindow(at, window);
    Between(from / window, at / window, from, at, m, window);
  }

  lemma Between(f: nat, t: nat, from: nat, at: nat, m: nat, w: nat)
    requires Opens(f, w) <= from <= at < from + m * w
    requires from < Opens(f, w) + w && Opens(t, w) <= at < Opens(t, w) + w
    ensures f <= t < f + m + 1
  {
    assert (f + m + 1) * w == f * w + w + m * w;
    assert (t + 1) * w == t * w + w;
    Unscale(f, t + 1, w);
    Unscale(t, f + m + 1, w);
  }

  lemma Unscale(a: nat, b: nat, w: nat)
    requires a * w < b * w
    ensures a < b
  {
  }

  // Wherever an interval of m windows starts, at most (m + 1) bursts of a vendor pass in it.
  lemma BurstBound(log: seq<Arrival>, vendor: string, from: nat, m: nat, window: nat, burst: nat)
    requires window > 0 && burst > 0
    ensures AdmittedBetween(log, vendor, from, from + m * window, window, burst) <= (m + 1) * burst
  {
    IntervalMeetsFewWindows(log, vendor, from, m, window, burst);
    AdmittedInWindows(log, vendor, from / window, m + 1, window, burst);
  }

  // The lane of an arrival depends on its own vendor's arrivals alone.
  lemma {:induction false} OtherVendorsDoNotMatter(log: seq<Arrival>, slot: Slot, window: nat)
    requires window > 0
    ensures Count(log, slot, window) == Count(OnlyOf(log, slot.vendor), slot, window)
  {
    if log != [] {
      var front, a := log[..|log| - 1], log[|log| - 1];
      OtherVendorsDoNotMatter(front, slot, window);
      if a.vendor == slot.vendor {
        CountSnoc(OnlyOf(front, slot.vendor), a, slot, window);
      } else {
        assert OnlyOf(log, slot.vendor) == OnlyOf(front, slot.vendor);
      }
    }
  }

  function OnlyOf(log: seq<Arrival>, vendor: string): seq<Arrival> {
    if log == [] then []
    else OnlyOf(log[..|log| - 1], vendor) + (if log[|log| - 1].vendor == vendor then [log[|log| - 1]] else [])
  }
}
