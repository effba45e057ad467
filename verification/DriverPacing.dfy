/** When the driver offers: the readings of its clock between two offers, and the instants at which
    the offers fall due. Stated on the log of a run alone. */
module DriverPacing {
  import opened DriverModel

  /** No reading by the event loop, and no offer, from a position on. */
  predicate Unread(es: seq<Event>, from: nat) {
    forall k :: from <= k < |es| ==> !es[k].ReadClock?
  }

  predicate Unoffered(es: seq<Event>, from: nat) {
    forall k :: from <= k < |es| ==> !es[k].OfferAt?
  }

  /** Of the loop's readings from position `from` on, the one at `q` is the last and the only one that
      has reached `due`. */
  predicate FirstPast(es: seq<Event>, from: nat, q: nat, due: int) {
    && from <= q < |es| && es[q].ReadClock? && es[q].now >= due
    && Unread(es, q + 1)
    && forall j :: from <= j < q && es[j].ReadClock? ==> es[j].now < due
  }

  /** The loop's readings from `from` on stopped at the first, `now`, that had reached `due`. */
  ghost predicate Stopped(es: seq<Event>, from: nat, due: int, now: int) {
    exists q: nat :: FirstPast(es, from, q, due) && es[q].now == now
  }

  /** From `es` to `fs`: a reading, then the loop until the first that is `span` later or past `limit`. */
  ghost predicate Waited(es: seq<Event>, fs: seq<Event>, limit: int, span: int) {
    && es <= fs && |es| < |fs| && fs[|es|].ReadClock?
    && StopsAt(fs, |es| + 1, Min(limit, fs[|es|].now + span))
  }

  ghost predicate StopsAt(es: seq<Event>, from: nat, due: int) { exists now :: Stopped(es, from, due, now) }

  lemma WaitedBy(es: seq<Event>, fs: seq<Event>, limit: int, span: int, now: int, seen: int)
    requires es + [ReadClock(now)] <= fs && Stopped(fs, |es| + 1, Min(limit, now + span), seen)
    ensures Waited(es, fs, limit, span)
  {
    assert (es + [ReadClock(now)])[|es|] == fs[|es|];
    assert es <= fs;
  }

  predicate NoneReached(es: seq<Event>, from: nat, due: int) {
    forall j :: from <= j < |es| && es[j].ReadClock? ==> es[j].now < due
  }

  /** One turn of the loop: its reading, and whatever the turn did after it. */
  predicate OneReading(es: seq<Event>, fs: seq<Event>, now: int) {
    es <= fs && |es| < |fs| && fs[|es|] == ReadClock(now) && Unread(fs, |es| + 1)
  }

  lemma TurnRead(es: seq<Event>, fs: seq<Event>, from: nat, due: int, now: int)
    requires from <= |es| && NoneReached(es, from, due) && OneReading(es, fs, now)
    ensures now < due ==> NoneReached(fs, from, due)
    ensures due <= now ==> Stopped(fs, from, due, now)
  {
    assert forall j :: 0 <= j < |es| ==> fs[j] == es[j];
    if due <= now { assert FirstPast(fs, from, |es|, due); }
  }

  /** Position `j` belongs to the wait that began after `lo` and ends at `p`: no offer lies between. */
  predicate Within(es: seq<Event>, lo: nat, j: nat, p: nat) {
    lo < j < p <= |es| && forall m :: j <= m < p ==> !es[m].OfferAt?
  }

  /** The offer at `p` was made as soon as the loop saw it was due, and not before: the last reading of
      its wait, at `q`, had reached `due`, none before it had, and the offer is no earlier. */
  predicate Prompt(es: seq<Event>, lo: nat, q: nat, p: nat, due: int)
    requires p < |es| && es[p].OfferAt?
  {
    && Within(es, lo, q, p) && es[q].ReadClock? && due <= es[q].now <= es[p].now
    && (forall j :: q < j < p ==> !es[j].ReadClock?)
    && forall j: nat :: j < q && es[j].ReadClock? && Within(es, lo, j, p) ==> es[j].now < due
  }

  ghost predicate Awaited(es: seq<Event>, lo: nat, p: nat, due: int)
    requires p < |es| && es[p].OfferAt?
  {
    exists q: nat :: Prompt(es, lo, q, p, due)
  }

  /** An admission: its first index, its pace, the readings of the clock and how many were taken when
      admission was stopped. */
  datatype Plan = Plan(first: int, pace: nat -> int, clockAt: nat -> int, stopAt: nat)

  /** The instant is that of a reading taken before the stop. */
  ghost predicate BeforeStop(clockAt: nat -> int, stopAt: nat, now: int) {
    exists t: nat :: t < stopAt && clockAt(t) == now
  }

  lemma ReadBeforeStop(clockAt: nat -> int, stopAt: nat, t: nat, now: int)
    requires t < stopAt && clockAt(t) == now
    ensures BeforeStop(clockAt, stopAt, now)
  {}

  /** Index `first + k` falls due `pace(k)` after the reading at `lo`, and nothing is offered once
      admission was stopped. */
  ghost predicate OnTime(es: seq<Event>, lo: nat, p: nat, plan: Plan)
    requires lo < |es| && p < |es| && es[p].OfferAt?
  {
    && es[lo].ReadClock? && es[p].index >= plan.first && BeforeStop(plan.clockAt, plan.stopAt, es[p].now)
    && Awaited(es, lo, p, es[lo].now + plan.pace(es[p].index - plan.first))
  }

  /** So it is with every offer between two positions. */
  ghost predicate Paced(es: seq<Event>, lo: nat, hi: nat, plan: Plan)
    requires hi <= |es|
  {
    forall p: nat {:trigger OnTime(es, lo, p, plan)} ::
      lo <= p < hi && es[p].OfferAt? ==> OnTime(es, lo, p, plan)
  }

  /** Counting starts at position `cut`, and with a reading taken before the stop the admission after it. */
  ghost predicate MeasuredFrom(es: seq<Event>, cut: nat, plan: Plan) {
    && cut + 1 < |es| && es[cut].StartCounting? && es[cut + 1].ReadClock?
    && BeforeStop(plan.clockAt, plan.stopAt, es[cut + 1].now) && Paced(es, cut + 1, |es|, plan)
  }

  /** A wait starts after the reading at `lo` or after an offer. */
  predicate AtWait(es: seq<Event>, lo: nat) {
    lo < |es| && es[lo].ReadClock? && (|es| == lo + 1 || es[|es| - 1].OfferAt?)
  }

  lemma OnTimeKept(es: seq<Event>, fs: seq<Event>, lo: nat, p: nat, plan: Plan)
    requires es <= fs && lo < |es| && p < |es| && es[p].OfferAt? && OnTime(es, lo, p, plan)
    ensures OnTime(fs, lo, p, plan)
  {
    var k: nat := es[p].index - plan.first;
    var due := es[lo].now + plan.pace(k);
    var q: nat :| Prompt(es, lo, q, p, due);
    assert forall j :: 0 <= j < |es| ==> fs[j] == es[j];
    assert fs[lo] == es[lo] && fs[p] == es[p];
    assert Within(fs, lo, q, p);
    forall j: nat | j < q && fs[j].ReadClock? && Within(fs, lo, j, p) ensures fs[j].now < due {
      assert Within(es, lo, j, p) by {
        assert forall m :: j <= m < p ==> es[m] == fs[m];
      }
    }
    assert Prompt(fs, lo, q, p, due);
  }

  /** What follows offers nothing, or comes after the stretch. */
  lemma PacedKept(es: seq<Event>, fs: seq<Event>, lo: nat, hi: nat, hi': nat, plan: Plan)
    requires es <= fs && hi <= |es| && hi <= hi' <= |fs| && Paced(es, lo, hi, plan)
    requires forall k :: hi <= k < hi' ==> !fs[k].OfferAt?
    ensures Paced(fs, lo, hi', plan)
  {
    forall p: nat | lo <= p < hi' && fs[p].OfferAt? ensures OnTime(fs, lo, p, plan) {
      OnTimeKept(es, fs, lo, p, plan);
    }
  }

  /** From `es` to `fs`: the loop until `due`, then the offer of `index`. */
  ghost predicate OfferedOnce(es: seq<Event>, fs: seq<Event>, due: int, index: int) {
    && |es| < |fs| && es <= fs && fs[|fs| - 1].OfferAt? && fs[|fs| - 1].index == index
    && var front := fs[..|fs| - 1];
       && Unoffered(front, |es|)
       && exists now :: Stopped(front, |es|, due, now) && now <= fs[|fs| - 1].now
  }

  /** The reading that ended the wait. */
  lemma WaitEnd(es: seq<Event>, fs: seq<Event>, due: int, index: int) returns (q: nat)
    requires OfferedOnce(es, fs, due, index)
    ensures |es| <= q < |fs| - 1 && FirstPast(fs[..|fs| - 1], |es|, q, due) && fs[q].now <= fs[|fs| - 1].now
    ensures forall k :: |es| <= k < |fs| - 1 ==> !fs[k].OfferAt?
  {
    var front := fs[..|fs| - 1];
    var now :| Stopped(front, |es|, due, now) && now <= fs[|fs| - 1].now;
    q :| FirstPast(front, |es|, q, due) && front[q].now == now;
    assert forall k :: 0 <= k < |front| ==> front[k] == fs[k];
  }

  lemma OfferedAfterWait(es: seq<Event>, front: seq<Event>, due: int, seen: int, index: int, now: int)
    requires es <= front && Unoffered(front, |es|) && Stopped(front, |es|, due, seen) && seen <= now
    ensures OfferedOnce(es, front + [OfferAt(index, now)], due, index)
  {
    assert (front + [OfferAt(index, now)])[..|front|] == front;
  }

  /** One more wait and the offer that ends it. */
  lemma PacedOffer(es: seq<Event>, fs: seq<Event>, lo: nat, n: nat, due: int, plan: Plan)
    requires AtWait(es, lo) && Paced(es, lo, |es|, plan)
    requires due == es[lo].now + plan.pace(n) && OfferedOnce(es, fs, due, plan.first + n)
    requires BeforeStop(plan.clockAt, plan.stopAt, fs[|fs| - 1].now)
    ensures AtWait(fs, lo) && Paced(fs, lo, |fs|, plan)
  {
    var p := |fs| - 1;
    var q := WaitEnd(es, fs, due, plan.first + n);
    PacedKept(es, fs, lo, |es|, p, plan);
    WaitEnds(es, fs, lo, q, p, due);
    OfferOnTime(fs, lo, q, p, n, due, plan);
    PacedLast(fs, lo, p, plan);
  }

  lemma OfferOnTime(
    fs: seq<Event>, lo: nat, q: nat, p: nat, n: nat, due: int, plan: Plan)
    requires lo < |fs| && fs[lo].ReadClock? && p < |fs| && fs[p].OfferAt? && fs[p].index == plan.first + n
    requires due == fs[lo].now + plan.pace(n) && Prompt(fs, lo, q, p, due) && BeforeStop(plan.clockAt, plan.stopAt, fs[p].now)
    ensures OnTime(fs, lo, p, plan)
  {}

  lemma PacedLast(fs: seq<Event>, lo: nat, p: nat, plan: Plan)
    requires lo < |fs| && p == |fs| - 1 && fs[p].OfferAt?
    requires Paced(fs, lo, p, plan) && OnTime(fs, lo, p, plan)
    ensures Paced(fs, lo, |fs|, plan)
  {}

  /** One more wait, whether an offer ended it or not. */
  lemma PacedWait(
    es: seq<Event>, fs: seq<Event>, lo: nat, n: nat, due: int, plan: Plan, offered: bool)
    requires AtWait(es, lo) && due == es[lo].now + plan.pace(n) && Paced(es, lo, |es|, plan) && es <= fs
    requires if offered then OfferedOnce(es, fs, due, plan.first + n) && BeforeStop(plan.clockAt, plan.stopAt, fs[|fs| - 1].now)
             else Unoffered(fs, |es|)
    ensures Paced(fs, lo, |fs|, plan) && (offered ==> AtWait(fs, lo))
  {
    if offered { PacedOffer(es, fs, lo, n, due, plan); } else { PacedKept(es, fs, lo, |es|, |fs|, plan); }
  }

  lemma WaitEnds(es: seq<Event>, fs: seq<Event>, lo: nat, q: nat, p: nat, due: int)
    requires AtWait(es, lo) && |es| <= p == |fs| - 1 && es <= fs && fs[p].OfferAt?
    requires Unoffered(fs[..p], |es|) && FirstPast(fs[..p], |es|, q, due) && fs[q].now <= fs[p].now
    ensures Prompt(fs, lo, q, p, due)
  {
    assert |es| > lo + 1 ==> fs[|es| - 1].OfferAt?;
    assert forall j :: 0 <= j < p ==> fs[..p][j] == fs[j];
    forall j: nat | j < q && fs[j].ReadClock? && Within(fs, lo, j, p) ensures fs[j].now < due {
      assert j >= |es|;
    }
  }
}
