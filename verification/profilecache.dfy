/**
 Vendor profiles pinned in code, stored in a table, and cached for a minute. What the cache serves is
 compared with what an uncached lookup would answer at that moment.

 A read that misses fetches from the table and then stores what it fetched; others may move in between.
 */
module ProfileCache {
  import opened Text
  import opened Vocabulary

  const LIFETIME := 60

  // `asOf` and `stored` are when the value was fetched from the table and put into the cache.
  datatype Entry = Entry(value: Option<VendorProfile>, asOf: nat, stored: nat)

  datatype Pending = Pending(key: string, value: Option<VendorProfile>, asOf: nat)

  datatype State = State(
    pinned: map<string, VendorProfile>,
    rows: seq<VendorProfile>,
    cache: map<string, Entry>,
    pending: map<nat, Pending>,
    now: nat)

  datatype Step =
    | Register(profile: VendorProfile)
    | Save(profile: VendorProfile)
    | Delete(vendor: string)
    | Fetch(reader: nat, vendor: string)
    | Store(reader: nat)
    | Wait(seconds: nat)
    | Rewrite(rows: seq<VendorProfile>)

  function Init(rows: seq<VendorProfile>): State {
    State(map[], rows, map[], map[], 0)
  }

  function KeyOf(vendor: string): string {
    Lower(Strip(vendor))
  }

  // One key for the names that agree without regard to case and to white space around them.
  lemma KeysAgreeExactly(a: string, b: string)
    ensures KeyOf(a) == KeyOf(b) <==> SameWithoutCase(Strip(a), Strip(b))
  {
    CaseForgotten(Strip(a), Strip(b));
  }

  // The stored profile whose vendor reads as the key but for case; the least vendor name if several do.
  function Lookup(rows: seq<VendorProfile>, key: string): Option<VendorProfile> {
    if rows == [] then None
    else
      var rest := Lookup(rows[1..], key);
      if Lower(rows[0].vendor) != key then rest
      else if rest.None? || !StringLess(rest.value.vendor, rows[0].vendor) then Some(rows[0])
      else rest
  }

  // Replace the row of exactly this vendor, or add one.
  function Saved(rows: seq<VendorProfile>, p: VendorProfile): seq<VendorProfile> {
    if rows == [] then [p]
    else if rows[0].vendor == p.vendor then [p] + rows[1..]
    else [rows[0]] + Saved(rows[1..], p)
  }

  // Drop the rows of this vendor, in whatever case.
  function Deleted(rows: seq<VendorProfile>, vendor: string): seq<VendorProfile> {
    if rows == [] then []
    else if Lower(rows[0].vendor) == Lower(vendor) then Deleted(rows[1..], vendor)
    else [rows[0]] + Deleted(rows[1..], vendor)
  }

  function Invalidated(s: State, vendor: string): State {
    s.(cache := s.cache - {KeyOf(vendor)})
  }

  predicate Live(s: State, key: string) {
    key in s.cache && s.now < s.cache[key].stored + LIFETIME
  }

  // Whether a read has to go past the pins and the cache.
  predicate Misses(s: State, vendor: string) {
    KeyOf(vendor) != "" && KeyOf(vendor) !in s.pinned && !Live(s, KeyOf(vendor))
  }

  function Apply(s: State, step: Step): State {
    match step
    case Register(p) => s.(pinned := s.pinned[KeyOf(p.vendor) := p])
    case Save(p) => Invalidated(s.(rows := Saved(s.rows, p)), p.vendor)
    case Delete(v) => Invalidated(s.(rows := Deleted(s.rows, v)), v)
    case Fetch(r, v) =>
      if Misses(s, v) then s.(pending := s.pending[r := Pending(KeyOf(v), Lookup(s.rows, KeyOf(v)), s.now)]) else s
    case Store(r) =>
      if r !in s.pending then s
      else
        var p := s.pending[r];
        s.(cache := s.cache[p.key := Entry(p.value, p.asOf, s.now)], pending := s.pending - {r})
    case Wait(n) => s.(now := s.now + n)
    case Rewrite(rows) => s.(rows := rows)
  }

  function Run(s: State, steps: seq<Step>): State {
    if steps == [] then s else Apply(Run(s, steps[..|steps| - 1]), steps[|steps| - 1])
  }

  // What a read answers, and what it would answer without a cache.
  function Served(s: State, vendor: string): Option<VendorProfile> {
    if KeyOf(vendor) == "" then None
    else if KeyOf(vendor) in s.pinned then Some(s.pinned[KeyOf(vendor)])
    else if Live(s, KeyOf(vendor)) then s.cache[KeyOf(vendor)].value
    else Lookup(s.rows, KeyOf(vendor))
  }

  function Uncached(s: State, vendor: string): Option<VendorProfile> {
    if KeyOf(vendor) == "" then None
    else if KeyOf(vendor) in s.pinned then Some(s.pinned[KeyOf(vendor)])
    else Lookup(s.rows, KeyOf(vendor))
  }

  // -- what a write changes -------------------------------------------------------------------------

  predicate Trimmed(key: string) {
    key == "" || (!IsSpace(key[0]) && !IsSpace(key[|key| - 1]))
  }

  lemma KeyTrimmed(vendor: string)
    ensures Trimmed(KeyOf(vendor))
  {
    var bare := Strip(vendor);
    if bare != "" {
      assert Lower(bare)[0] == LowerChar(bare[0]);
      assert Lower(bare)[|bare| - 1] == LowerChar(bare[|bare| - 1]);
    }
  }

  // A trimmed key that a vendor name lowers to is that vendor's own key.
  lemma TrimmedIsOwnKey(key: string, vendor: string)
    requires Trimmed(key) && Lower(vendor) == key
    ensures KeyOf(vendor) == key
  {
    if vendor != "" {
      assert key[0] == LowerChar(vendor[0]);
      assert key[|key| - 1] == LowerChar(vendor[|vendor| - 1]);
    }
    StripFixed(vendor);
  }

  lemma {:induction false} SavedElsewhere(rows: seq<VendorProfile>, p: VendorProfile, key: string)
    requires Lower(p.vendor) != key
    ensures Lookup(Saved(rows, p), key) == Lookup(rows, key)
  {
    if rows != [] {
      if rows[0].vendor == p.vendor {
        assert ([p] + rows[1..])[1..] == rows[1..];
      } else {
        SavedElsewhere(rows[1..], p, key);
        assert ([rows[0]] + Saved(rows[1..], p))[1..] == Saved(rows[1..], p);
      }
    }
  }

  // No stored spelling of the vendor sorts below this one.
  predicate Governs(rows: seq<VendorProfile>, p: VendorProfile) {
    var stored := Lookup(rows, Lower(p.vendor));
    stored.None? || !StringLess(stored.value.vendor, p.vendor)
  }

  lemma GovernsMeans(rows: seq<VendorProfile>, p: VendorProfile)
    ensures Governs(rows, p) <==>
      forall q :: q in rows && Lower(q.vendor) == Lower(p.vendor) ==> !StringLess(q.vendor, p.vendor)
  {
    LookupMeans(rows, Lower(p.vendor));
    var stored := Lookup(rows, Lower(p.vendor));
    if stored.Some? && Governs(rows, p) {
      forall q | q in rows && Lower(q.vendor) == Lower(p.vendor) ensures !StringLess(q.vendor, p.vendor) {
        NotBelow(q.vendor, stored.value.vendor, p.vendor);
      }
    }
  }

  // What a save makes of its own vendor's lookup: the profile saved, unless another spelling goes before.
  lemma {:induction false} SavedHere(rows: seq<VendorProfile>, p: VendorProfile)
    ensures Lookup(Saved(rows, p), Lower(p.vendor)) ==
      if Governs(rows, p) then Some(p) else Lookup(rows, Lower(p.vendor))
  {
    var key := Lower(p.vendor);
    if rows == [] {
      assert [p][1..] == [];
    } else if rows[0].vendor == p.vendor {
      assert ([p] + rows[1..])[1..] == rows[1..];
      StringLessConnected(p.vendor, p.vendor);
    } else {
      SavedHere(rows[1..], p);
      assert ([rows[0]] + Saved(rows[1..], p))[1..] == Saved(rows[1..], p);
      if Lower(rows[0].vendor) == key {
        Trichotomy(rows[0].vendor, p.vendor);
        if Lookup(rows[1..], key).Some? {
          BelowBelow(Lookup(rows[1..], key).value.vendor, rows[0].vendor, p.vendor);
        }
      }
    }
  }

  lemma Trichotomy(a: string, b: string)
    requires a != b
    ensures StringLess(a, b) <==> !StringLess(b, a)
  {
    StringLessConnected(a, b);
    StringLessConnected(a, a);
    if StringLess(a, b) && StringLess(b, a) {
      StringLessTransitive(a, b, a);
    }
  }

  lemma BelowBelow(a: string, b: string, c: string)
    ensures StringLess(a, b) && StringLess(b, c) ==> StringLess(a, c)
    ensures StringLess(c, b) && !StringLess(a, b) ==> !StringLess(a, c)
    ensures StringLess(b, c) && !StringLess(a, c) ==> !StringLess(a, b)
  {
    if StringLess(a, b) && StringLess(b, c) {
      StringLessTransitive(a, b, c);
    }
    if StringLess(a, c) && StringLess(c, b) {
      StringLessTransitive(a, c, b);
    }
  }

  lemma {:induction false} DeletedMeans(rows: seq<VendorProfile>, vendor: string, key: string)
    ensures Lookup(Deleted(rows, vendor), key) == if key == Lower(vendor) then None else Lookup(rows, key)
  {
    if rows != [] {
      DeletedMeans(rows[1..], vendor, key);
      assert ([rows[0]] + Deleted(rows[1..], vendor))[1..] == Deleted(rows[1..], vendor);
    }
  }

  ghost predicate OneRowEach(rows: seq<VendorProfile>) {
    forall i, j :: 0 <= i < j < |rows| ==> rows[i].vendor != rows[j].vendor
  }

  // A save leaves one row for its vendor, the profile saved, and every other row as it is.
  lemma {:induction false} SavedRows(rows: seq<VendorProfile>, p: VendorProfile, q: VendorProfile)
    requires OneRowEach(rows)
    ensures OneRowEach(Saved(rows, p))
    ensures q in Saved(rows, p) <==> q == p || (q in rows && q.vendor != p.vendor)
  {
    if rows != [] {
      var rest := Saved(rows[1..], p);
      SavedRows(rows[1..], p, q);
      assert forall x :: x in rows <==> x == rows[0] || x in rows[1..];
      if rows[0].vendor != p.vendor {
        forall k | 0 <= k < |rest| ensures rest[k].vendor != rows[0].vendor {
          SavedRows(rows[1..], p, rest[k]);
        }
      }
    }
  }

  // A delete leaves exactly the rows of other vendors.
  lemma {:induction false} DeletedRows(rows: seq<VendorProfile>, vendor: string, q: VendorProfile)
    ensures q in Deleted(rows, vendor) <==> q in rows && Lower(q.vendor) != Lower(vendor)
  {
    if rows != [] {
      DeletedRows(rows[1..], vendor, q);
      assert forall x :: x in rows <==> x == rows[0] || x in rows[1..];
    }
  }

  ghost predicate Answers(rows: seq<VendorProfile>, key: string, p: VendorProfile) {
    && p in rows && Lower(p.vendor) == key
    && forall q :: q in rows && Lower(q.vendor) == key ==> !StringLess(q.vendor, p.vendor)
  }

  // A lookup answers the least vendor name that reads as the key, and nothing only if none does.
  lemma {:induction false} LookupMeans(rows: seq<VendorProfile>, key: string)
    ensures var r := Lookup(rows, key);
      && (r.None? <==> forall q :: q in rows ==> Lower(q.vendor) != key)
      && (r.Some? ==> Answers(rows, key, r.value))
  {
    if rows != [] {
      LookupMeans(rows[1..], key);
      assert forall q :: q in rows <==> q == rows[0] || q in rows[1..];
      var rest := Lookup(rows[1..], key);
      StringLessConnected(rows[0].vendor, rows[0].vendor);
      if rest.Some? && Lower(rows[0].vendor) == key {
        if StringLess(rest.value.vendor, rows[0].vendor) {
          StringLessConnected(rest.value.vendor, rest.value.vendor);
          if StringLess(rows[0].vendor, rest.value.vendor) {
            StringLessTransitive(rows[0].vendor, rest.value.vendor, rows[0].vendor);
          }
        } else {
          forall q | q in rows[1..] && Lower(q.vendor) == key ensures !StringLess(q.vendor, rows[0].vendor) {
            NotBelow(q.vendor, rest.value.vendor, rows[0].vendor);
          }
        }
      }
    }
  }

  lemma NotBelow(q: string, least: string, head: string)
    requires !StringLess(q, least) && !StringLess(least, head)
    ensures !StringLess(q, head)
  {
    StringLessConnected(q, least);
    if q != least && StringLess(q, head) {
      StringLessTransitive(least, q, head);
    }
  }

  // -- agreement -----------------------------------------------------------------------------------

  ghost predicate KeysTrimmed(s: State) {
    && (forall k :: k in s.cache ==> Trimmed(k))
    && (forall r :: r in s.pending ==> Trimmed(s.pending[r].key))
  }

  predicate AgreesOn(s: State, key: string) {
    Live(s, key) ==> s.cache[key].value == Lookup(s.rows, key)
  }

  ghost predicate Agrees(s: State) {
    KeysTrimmed(s) && forall k :: AgreesOn(s, k)
  }

  // Beside the cache, what readers have fetched and not yet stored is what the table says.
  ghost predicate Fresh(s: State) {
    Agrees(s) && forall r :: r in s.pending ==> s.pending[r].value == Lookup(s.rows, s.pending[r].key)
  }

  // The write changes what is looked up under the key.
  predicate Changes(rows: seq<VendorProfile>, step: Step, key: string) {
    match step
    case Save(p) => Lower(p.vendor) == key && Governs(rows, p) && Lookup(rows, key) != Some(p)
    case Delete(v) => Lower(v) == key && Lookup(rows, key).Some?
    case _ => false
  }

  lemma ChangesExactly(s: State, step: Step, key: string)
    requires !step.Rewrite?
    ensures Lookup(Apply(s, step).rows, key) != Lookup(s.rows, key) <==> Changes(s.rows, step, key)
  {
    match step
    case Save(p) =>
      if Lower(p.vendor) == key { SavedHere(s.rows, p); } else { SavedElsewhere(s.rows, p, key); }
    case Delete(v) => DeletedMeans(s.rows, v, key);
    case _ =>
  }

  // A save or delete that changes what some reader has fetched and not yet stored.
  predicate OvertakesReader(s: State, step: Step, r: nat) {
    r in s.pending && Changes(s.rows, step, s.pending[r].key)
  }

  ghost predicate Overtakes(s: State, step: Step) {
    exists r: nat :: OvertakesReader(s, step, r)
  }

  lemma WriteKeepsAgreement(s: State, step: Step, key: string)
    requires AgreesOn(s, key) && Trimmed(key) && (step.Save? || step.Delete?)
    ensures AgreesOn(Apply(s, step), key)
  {
    if step.Save? {
      if Lower(step.profile.vendor) == key {
        TrimmedIsOwnKey(key, step.profile.vendor);
      } else {
        SavedElsewhere(s.rows, step.profile, key);
      }
    } else {
      DeletedMeans(s.rows, step.vendor, key);
      if Lower(step.vendor) == key {
        TrimmedIsOwnKey(key, step.vendor);
      }
    }
  }

  lemma KeysTrimmedKept(s: State, step: Step)
    requires KeysTrimmed(s)
    ensures KeysTrimmed(Apply(s, step))
  {
    if step.Fetch? { KeyTrimmed(step.vendor); }
  }

  lemma AgreementKept(s: State, step: Step)
    requires Fresh(s) && !step.Rewrite?
    ensures Agrees(Apply(s, step))
  {
    var after := Apply(s, step);
    KeysTrimmedKept(s, step);
    forall k ensures AgreesOn(after, k) {
      assert AgreesOn(s, k);
      if k in after.cache && (step.Save? || step.Delete?) {
        WriteKeepsAgreement(s, step, k);
      }
    }
  }

  // Saves, deletes, pins, expiries, fetches and stores keep the cache and all readers in step with the
  // table, except exactly a write that overtakes a reader.
  lemma FreshnessKeptExactly(s: State, step: Step)
    requires Fresh(s) && !step.Rewrite?
    ensures Fresh(Apply(s, step)) <==> !Overtakes(s, step)
  {
    var after := Apply(s, step);
    if Overtakes(s, step) {
      var r: nat :| OvertakesReader(s, step, r);
      ChangesExactly(s, step, s.pending[r].key);
      assert after.pending[r] == s.pending[r];
    } else {
      AgreementKept(s, step);
      forall r | r in after.pending ensures after.pending[r].value == Lookup(after.rows, after.pending[r].key) {
        PendingAfter(s, step, r);
        ChangesExactly(s, step, after.pending[r].key);
        assert !OvertakesReader(s, step, r);
      }
    }
  }

  ghost predicate Undisturbed(rows: seq<VendorProfile>, steps: seq<Step>) {
    forall i :: 0 <= i < |steps| ==> !steps[i].Rewrite? && !Overtakes(Run(Init(rows), steps[..i]), steps[i])
  }

  lemma {:induction false} FreshOverRuns(rows: seq<VendorProfile>, steps: seq<Step>)
    requires Undisturbed(rows, steps)
    ensures Fresh(Run(Init(rows), steps))
  {
    if steps != [] {
      var n := |steps| - 1;
      forall i | 0 <= i < n
        ensures !steps[..n][i].Rewrite? && !Overtakes(Run(Init(rows), steps[..n][..i]), steps[..n][i])
      {
        assert steps[..n][..i] == steps[..i] && steps[..n][i] == steps[i];
      }
      FreshOverRuns(rows, steps[..n]);
      FreshnessKeptExactly(Run(Init(rows), steps[..n]), steps[n]);
    }
  }

  lemma AgreeingIsUncached(s: State, vendor: string)
    requires Agrees(s)
    ensures Served(s, vendor) == Uncached(s, vendor)
  {
    assert AgreesOn(s, KeyOf(vendor));
  }

  // After any run of saves, deletes, pins, expiries and reads, however the readers interleave, in which no
  // write overtakes a reader: whoever asks gets what an uncached lookup would answer.
  lemma ServedIsUncached(rows: seq<VendorProfile>, steps: seq<Step>, vendor: string)
    requires Undisturbed(rows, steps)
    ensures Served(Run(Init(rows), steps), vendor) == Uncached(Run(Init(rows), steps), vendor)
  {
    FreshOverRuns(rows, steps);
    AgreeingIsUncached(Run(Init(rows), steps), vendor);
  }

  // An overtaken reader does the harm as soon as it stores.
  lemma OvertakingMisleads(s: State, step: Step, r: nat, vendor: string)
    requires Fresh(s) && OvertakesReader(s, step, r)
    requires KeyOf(vendor) == s.pending[r].key && KeyOf(vendor) != "" && KeyOf(vendor) !in s.pinned
    ensures var after := Apply(Apply(s, step), Store(r)); Served(after, vendor) != Uncached(after, vendor)
  {
    ChangesExactly(s, step, s.pending[r].key);
    var written := Apply(s, step);
    assert written.pending == s.pending && written.pinned == s.pinned;
    var after := Apply(written, Store(r));
    assert Live(after, KeyOf(vendor)) && after.cache[KeyOf(vendor)].value == s.pending[r].value;
  }

  // The exception is real: a reader that fetched before the save stores after it.
  lemma AReaderCanUndoAnInvalidation(p: VendorProfile) returns (steps: seq<Step>)
    requires KeyOf(p.vendor) != "" && Lower(p.vendor) == KeyOf(p.vendor)
    ensures var s := Run(Init([]), steps); Served(s, p.vendor) == None && Uncached(s, p.vendor) == Some(p)
  {
    var k := KeyOf(p.vendor);
    steps := [Fetch(0, p.vendor), Save(p), Store(0)];
    var s1 := Apply(Init([]), steps[0]);
    assert steps[..1] == [steps[0]] && steps[..1][..0] == [];
    assert Run(Init([]), steps[..1]) == s1;
    var s2 := Apply(s1, steps[1]);
    assert steps[..2][..1] == steps[..1];
    assert Run(Init([]), steps[..2]) == s2;
    assert steps[..3][..2] == steps[..2];
    assert steps[..3] == steps;
    var s3 := Apply(s2, steps[2]);
    assert Run(Init([]), steps) == s3;
    assert s2.pending[0] == Pending(k, None, 0);
    assert s3.rows == [p];
    assert Lookup([p], k) == Some(p) by { assert [p][1..] == []; }
  }

  // -- how stale a served value can be, whoever writes the table ------------------------------------------

  predicate Answered(s: State, key: string, value: Option<VendorProfile>, t: nat) {
    s.now == t && Lookup(s.rows, key) == value
  }

  ghost predicate TrueAt(rows: seq<VendorProfile>, steps: seq<Step>, key: string, value: Option<VendorProfile>, t: nat) {
    exists i: nat :: i <= |steps| && Answered(Run(Init(rows), steps[..i]), key, value, t)
  }

  ghost predicate EntryTraced(rows: seq<VendorProfile>, steps: seq<Step>, key: string, e: Entry) {
    e.stored <= Run(Init(rows), steps).now && TrueAt(rows, steps, key, e.value, e.asOf)
  }

  ghost predicate PendingTraced(rows: seq<VendorProfile>, steps: seq<Step>, p: Pending) {
    TrueAt(rows, steps, p.key, p.value, p.asOf)
  }

  ghost predicate Traced(rows: seq<VendorProfile>, steps: seq<Step>) {
    var s := Run(Init(rows), steps);
    && (forall k :: k in s.cache ==> EntryTraced(rows, steps, k, s.cache[k]))
    && (forall r :: r in s.pending ==> PendingTraced(rows, steps, s.pending[r]))
  }

  lemma TrueStays(rows: seq<VendorProfile>, steps: seq<Step>, key: string, value: Option<VendorProfile>, t: nat)
    requires steps != [] && TrueAt(rows, steps[..|steps| - 1], key, value, t)
    ensures TrueAt(rows, steps, key, value, t)
  {
    var front := steps[..|steps| - 1];
    var i: nat :| i <= |front| && Answered(Run(Init(rows), front[..i]), key, value, t);
    assert front[..i] == steps[..i];
  }

  lemma TrueNow(rows: seq<VendorProfile>, steps: seq<Step>, key: string)
    ensures var s := Run(Init(rows), steps); TrueAt(rows, steps, key, Lookup(s.rows, key), s.now)
  {
    assert steps[..|steps|] == steps;
    assert Answered(Run(Init(rows), steps[..|steps|]), key, Lookup(Run(Init(rows), steps).rows, key), Run(Init(rows), steps).now);
  }

  // An entry was there before, or is what some reader had pending; a pending value was, or is the table's.
  lemma EntriesAfter(s: State, step: Step, k: string)
    requires k in Apply(s, step).cache
    ensures (k in s.cache && Apply(s, step).cache[k] == s.cache[k]) ||
      (step.Store? && step.reader in s.pending && s.pending[step.reader].key == k
       && Apply(s, step).cache[k] == Entry(s.pending[step.reader].value, s.pending[step.reader].asOf, s.now))
    ensures s.now <= Apply(s, step).now
  {
  }

  lemma PendingAfter(s: State, step: Step, r: nat)
    requires r in Apply(s, step).pending
    ensures (r in s.pending && Apply(s, step).pending[r] == s.pending[r]) ||
      (step.Fetch? && Apply(s, step).pending[r] == Pending(KeyOf(step.vendor), Lookup(s.rows, KeyOf(step.vendor)), s.now))
  {
  }

  lemma {:induction false} TracedOverRuns(rows: seq<VendorProfile>, steps: seq<Step>)
    ensures Traced(rows, steps)
  {
    if steps != [] {
      var n := |steps| - 1;
      var front := steps[..n];
      TracedOverRuns(rows, front);
      var before, s := Run(Init(rows), front), Run(Init(rows), steps);
      forall k | k in s.cache ensures EntryTraced(rows, steps, k, s.cache[k]) {
        EntriesAfter(before, steps[n], k);
        TrueStays(rows, steps, k, s.cache[k].value, s.cache[k].asOf);
      }
      forall r | r in s.pending ensures PendingTraced(rows, steps, s.pending[r]) {
        PendingAfter(before, steps[n], r);
        TrueNow(rows, front, s.pending[r].key);
        TrueStays(rows, steps, s.pending[r].key, s.pending[r].value, s.pending[r].asOf);
      }
    }
  }

  // Whatever writes skip the invalidation: a served answer was the table's at some moment `t`, less than
  // a minute before the present beyond the time its reader took between fetching and storing.
  lemma ServedWasTrueRecently(rows: seq<VendorProfile>, steps: seq<Step>, vendor: string) returns (t: nat)
    requires KeyOf(vendor) != "" && KeyOf(vendor) !in Run(Init(rows), steps).pinned
    ensures var s := Run(Init(rows), steps);
      && TrueAt(rows, steps, KeyOf(vendor), Served(s, vendor), t)
      && (Live(s, KeyOf(vendor)) ==> t == s.cache[KeyOf(vendor)].asOf && s.now - t < LIFETIME + (s.cache[KeyOf(vendor)].stored - t))
      && (!Live(s, KeyOf(vendor)) ==> t == s.now)
  {
    var s := Run(Init(rows), steps);
    TracedOverRuns(rows, steps);
    TrueNow(rows, steps, KeyOf(vendor));
    t := if Live(s, KeyOf(vendor)) then s.cache[KeyOf(vendor)].asOf else s.now;
  }

  // -- reads that nobody interrupts ------------------------------------------------------------------------

  datatype Operation =
    | Registering(profile: VendorProfile)
    | Saving(profile: VendorProfile)
    | Deleting(vendor: string)
    | Reading(vendor: string)
    | Waiting(seconds: nat)
    | Rewriting(rows: seq<VendorProfile>)

  function StepsOf(op: Operation): seq<Step> {
    match op
    case Registering(p) => [Register(p)]
    case Saving(p) => [Save(p)]
    case Deleting(v) => [Delete(v)]
    case Reading(v) => [Fetch(0, v), Store(0)]
    case Waiting(n) => [Wait(n)]
    case Rewriting(rows) => [Rewrite(rows)]
  }

  function StepsOfAll(ops: seq<Operation>): seq<Step> {
    if ops == [] then [] else StepsOfAll(ops[..|ops| - 1]) + StepsOf(ops[|ops| - 1])
  }

  lemma RunOne(s: State, steps: seq<Step>, step: Step)
    ensures Run(s, steps + [step]) == Apply(Run(s, steps), step)
  {
    assert (steps + [step])[..|steps|] == steps;
  }

  function Performed(s: State, op: Operation): State {
    match op
    case Registering(p) => Apply(s, Register(p))
    case Saving(p) => Apply(s, Save(p))
    case Deleting(v) => Apply(s, Delete(v))
    case Reading(v) => Apply(Apply(s, Fetch(0, v)), Store(0))
    case Waiting(n) => Apply(s, Wait(n))
    case Rewriting(rows) => Apply(s, Rewrite(rows))
  }

  lemma RunOperation(s: State, steps: seq<Step>, op: Operation)
    ensures Run(s, steps + StepsOf(op)) == Performed(Run(s, steps), op)
  {
    if op.Reading? {
      RunOne(s, steps, Fetch(0, op.vendor));
      RunOne(s, steps + [Fetch(0, op.vendor)], Store(0));
      assert steps + StepsOf(op) == steps + [Fetch(0, op.vendor)] + [Store(0)];
    } else {
      RunOne(s, steps, StepsOf(op)[0]);
      assert StepsOf(op) == [StepsOf(op)[0]];
    }
  }

  // No reader is left half-way, and every entry went into the cache when it was fetched.
  ghost predicate Settled(s: State) {
    s.pending == map[] && forall k :: k in s.cache ==> s.cache[k].asOf == s.cache[k].stored
  }

  lemma SettledKept(s: State, op: Operation)
    requires Settled(s)
    ensures Settled(Performed(s, op))
  {
    if op.Reading? {
      var fetched := Apply(s, Fetch(0, op.vendor));
      assert 0 in fetched.pending ==> fetched.pending[0].asOf == fetched.now;
      assert Performed(s, op).pending == map[];
    }
  }

  lemma SettledFreshKept(s: State, op: Operation)
    requires Settled(s) && Fresh(s) && !op.Rewriting?
    ensures Fresh(Performed(s, op))
  {
    if op.Reading? {
      FreshnessKeptExactly(s, Fetch(0, op.vendor));
      FreshnessKeptExactly(Apply(s, Fetch(0, op.vendor)), Store(0));
    } else {
      FreshnessKeptExactly(s, StepsOf(op)[0]);
    }
  }

  predicate Announced(ops: seq<Operation>) {
    forall i :: 0 <= i < |ops| ==> !ops[i].Rewriting?
  }

  lemma RunOperations(rows: seq<VendorProfile>, ops: seq<Operation>)
    requires ops != []
    ensures var n := |ops| - 1;
      Run(Init(rows), StepsOfAll(ops)) == Performed(Run(Init(rows), StepsOfAll(ops[..n])), ops[n])
  {
    RunOperation(Init(rows), StepsOfAll(ops[..|ops| - 1]), ops[|ops| - 1]);
  }

  lemma {:induction false} OperationsSettle(rows: seq<VendorProfile>, ops: seq<Operation>)
    ensures Settled(Run(Init(rows), StepsOfAll(ops)))
  {
    if ops != [] {
      var n := |ops| - 1;
      OperationsSettle(rows, ops[..n]);
      RunOperations(rows, ops);
      SettledKept(Run(Init(rows), StepsOfAll(ops[..n])), ops[n]);
    }
  }

  lemma {:induction false} OperationsKeepFresh(rows: seq<VendorProfile>, ops: seq<Operation>)
    requires Announced(ops)
    ensures Fresh(Run(Init(rows), StepsOfAll(ops)))
  {
    if ops != [] {
      var n := |ops| - 1;
      OperationsKeepFresh(rows, ops[..n]);
      OperationsSettle(rows, ops[..n]);
      RunOperations(rows, ops);
      SettledFreshKept(Run(Init(rows), StepsOfAll(ops[..n])), ops[n]);
    }
  }

  // With reads that nobody interrupts, no sequence of saves, deletes, pins, expiries and reads whatever can
  // make the cache show.
  lemma UninterruptedReadsAreUncached(rows: seq<VendorProfile>, ops: seq<Operation>, vendor: string)
    requires Announced(ops)
    ensures var s := Run(Init(rows), StepsOfAll(ops)); Served(s, vendor) == Uncached(s, vendor)
  {
    OperationsKeepFresh(rows, ops);
    AgreeingIsUncached(Run(Init(rows), StepsOfAll(ops)), vendor);
  }

  // And if the table is also written behind the cache's back, what is served was the table's answer at a
  // moment `t` less than a minute ago.
  lemma UninterruptedReadsAreRecent(rows: seq<VendorProfile>, ops: seq<Operation>, vendor: string) returns (t: nat)
    requires KeyOf(vendor) != "" && KeyOf(vendor) !in Run(Init(rows), StepsOfAll(ops)).pinned
    ensures var s := Run(Init(rows), StepsOfAll(ops));
      TrueAt(rows, StepsOfAll(ops), KeyOf(vendor), Served(s, vendor), t) && s.now < t + LIFETIME
  {
    OperationsSettle(rows, ops);
    t := ServedWasTrueRecently(rows, StepsOfAll(ops), vendor);
  }

  // -- what an operation makes the next read answer --------------------------------------------------------

  predicate Asked(s: State, vendor: string) {
    KeyOf(vendor) != "" && KeyOf(vendor) !in s.pinned
  }

  // After a save the vendor is answered the profile saved, if and only if the name has no outer white space
  // and no other stored spelling goes before it, unless the answer was this profile anyway.
  lemma SavedIsServedExactly(s: State, p: VendorProfile)
    requires Asked(s, p.vendor)
    ensures Served(Apply(s, Save(p)), p.vendor) ==
      if Lower(p.vendor) == KeyOf(p.vendor) && Governs(s.rows, p) then Some(p) else Lookup(s.rows, KeyOf(p.vendor))
  {
    if Lower(p.vendor) == KeyOf(p.vendor) {
      SavedHere(s.rows, p);
    } else {
      SavedElsewhere(s.rows, p, KeyOf(p.vendor));
    }
  }

  // A saved profile need not be the one served: with "ACME" stored, a save of "acme" changes no answer.
  lemma AnotherSpellingIsServed(q: VendorProfile, p: VendorProfile)
    requires Lower(q.vendor) == Lower(p.vendor) == KeyOf(p.vendor) != "" && StringLess(q.vendor, p.vendor)
    ensures Served(Apply(Init([q]), Save(p)), p.vendor) == Some(q)
  {
    assert [q][1..] == [];
    assert Lookup([q], KeyOf(p.vendor)) == Some(q);
    SavedIsServedExactly(Init([q]), p);
  }

  // After a delete the vendor is answered nothing, if the name has no outer white space.
  lemma DeletedIsGone(s: State, vendor: string)
    requires Asked(s, vendor)
    ensures Served(Apply(s, Delete(vendor)), vendor) ==
      if Lower(vendor) == KeyOf(vendor) then None else Lookup(s.rows, KeyOf(vendor))
  {
    DeletedMeans(s.rows, vendor, KeyOf(vendor));
  }

  // -- the store and its cache -------------------------------------------------------------------------

  class Profiles {
    var pinned: map<string, VendorProfile>
    var rows: seq<VendorProfile>
    var cache: map<string, Entry>
    ghost var now: nat

    ghost function View(): State
      reads this
    {
      State(pinned, rows, cache, map[], now)
    }

    constructor (rows: seq<VendorProfile>)
      ensures View() == Init(rows)
    {
      pinned, this.rows, cache, now := map[], rows, map[], 0;
    }

    method RegisterProfile(p: VendorProfile)
      modifies this`pinned
      ensures View() == Apply(old(View()), Register(p))
      ensures Agrees(old(View())) ==> Agrees(View())
      ensures forall v :: KeyOf(v) == KeyOf(p.vendor) && KeyOf(v) != "" ==> Served(View(), v) == Some(p)
    {
      ghost var before := View();
      pinned := pinned[KeyOf(p.vendor) := p];
      assert forall k :: AgreesOn(before, k) ==> AgreesOn(View(), k);
    }

    method Invalidate(vendor: string)
      modifies this`cache
      ensures View() == Invalidated(old(View()), vendor)
    {
      cache := cache - {KeyOf(vendor)};
    }

    method SaveProfile(p: VendorProfile)
      modifies this
      ensures View() == Apply(old(View()), Save(p))
      ensures Agrees(old(View())) ==> Agrees(View())
      ensures Asked(View(), p.vendor) && Lower(p.vendor) == KeyOf(p.vendor) && Governs(old(rows), p) ==>
        Served(View(), p.vendor) == Some(p)
    {
      ghost var before := View();
      rows := Saved(rows, p);
      Invalidate(p.vendor);
      WritesKeepAgreement(before, Save(p));
      if Asked(before, p.vendor) {
        SavedIsServedExactly(before, p);
      }
    }

    method DeleteProfile(vendor: string)
      modifies this
      ensures View() == Apply(old(View()), Delete(vendor))
      ensures Agrees(old(View())) ==> Agrees(View())
      ensures Asked(View(), vendor) && Lower(vendor) == KeyOf(vendor) ==> Served(View(), vendor) == None
    {
      ghost var before := View();
      rows := Deleted(rows, vendor);
      Invalidate(vendor);
      WritesKeepAgreement(before, Delete(vendor));
      if Asked(before, vendor) {
        DeletedIsGone(before, vendor);
      }
    }

    // Undisturbed, a read is a fetch and a store with nothing in between.
    method ProfileFor(vendor: string, at: nat) returns (r: Option<VendorProfile>)
      requires at == now
      modifies this`cache
      ensures r == Served(old(View()), vendor)
      ensures r ==
        if Strip(vendor) == "" then None
        else if KeyOf(vendor) in pinned then Some(pinned[KeyOf(vendor)])
        else if KeyOf(vendor) in old(cache) && at < old(cache)[KeyOf(vendor)].stored + 60 then old(cache)[KeyOf(vendor)].value
        else Lookup(rows, KeyOf(vendor))
      ensures View() == Apply(Apply(old(View()), Fetch(0, vendor)), Store(0))
      ensures Agrees(old(View())) ==> Agrees(View()) && r == Uncached(View(), vendor)
    {
      ghost var before := View();
      var key := KeyOf(vendor);
      if key == "" {
        return None;
      }
      if key in pinned {
        return Some(pinned[key]);
      }
      if key in cache && at < cache[key].stored + LIFETIME {
        assert AgreesOn(before, key) <==> cache[key].value == Lookup(rows, key);
        return cache[key].value;
      }
      r := Lookup(rows, key);
      cache := cache[key := Entry(r, at, at)];
      if Agrees(before) {
        ReadKeepsAgreement(before, vendor);
      }
    }
  }

  lemma ReadKeepsAgreement(s: State, vendor: string)
    requires Agrees(s) && s.pending == map[]
    ensures Agrees(Apply(Apply(s, Fetch(0, vendor)), Store(0)))
  {
    FreshnessKeptExactly(s, Fetch(0, vendor));
    FreshnessKeptExactly(Apply(s, Fetch(0, vendor)), Store(0));
  }

  lemma WritesKeepAgreement(s: State, step: Step)
    requires s.pending == map[] && (step.Save? || step.Delete?)
    ensures Agrees(s) ==> Agrees(Apply(s, step))
  {
    if Agrees(s) {
      AgreementKept(s, step);
    }
  }
}
