/** The driver process: the object whose methods update the dialog table, the timer heap and the
    counters in place, and whose loops drive them by the clock and the socket. Each method is tied
    to the step machine of `DriverModel`. */
module DriverProcess {
  import opened FiniteSets
  import opened SipMessages
  import opened DriverModel
  import opened DriverAccounting
  import opened DriverTimers
  import opened DriverWatch
  import opened DriverTimeouts
  import opened DriverPacing
  import opened ResultContract
  import M = DriverModel

  /** From `d` to `d'` nothing was offered: every dialog of `d'` was live in `d`, offered at the same
      time, every newly finished call was live, and the expired ones stayed as many. */
  ghost predicate Winding(cfg: Config, d: State, d': State) {
    && (forall i :: i in d'.table.dialogs ==>
          i in d.table.dialogs && d'.table.dialogs[i].inviteAt == d.table.dialogs[i].inviteAt)
    && (forall i :: CallOf(cfg, i) in d'.table.done ==>
          CallOf(cfg, i) in d.table.done || i in d.table.dialogs)
    && (forall c :: c in d.table.done ==> c in d'.table.done)
    && d'.stats.errors.cleanupTimeout == d.stats.errors.cleanupTimeout
  }

  lemma WindingTrans(cfg: Config, a: State, b: State, c: State)
    requires Winding(cfg, a, b) && Winding(cfg, b, c)
    ensures Winding(cfg, a, c)
  {}

  lemma SendWinding(cfg: Config, d: State, r: Request, i: int)
    ensures Winding(cfg, d, M.Send(cfg, d, r, i))
  {}

  lemma EstablishWinding(cfg: Config, d: State, i: int, at: Readings)
    requires i in d.table.dialogs
    ensures Winding(cfg, d, Establish(cfg, d, i, at))
  {
    var d1 := MarkEstablished(d, i, at);
    var d2 := M.Send(cfg, d1, AckMsg(cfg, i), i);
    assert Winding(cfg, d, d1);
    SendWinding(cfg, d1, AckMsg(cfg, i), i);
    WindingTrans(cfg, d, d1, d2);
    if SendSucceeds(cfg, d1) {
      SendWinding(cfg, d2, ByeMsg(cfg, i), i);
      WindingTrans(cfg, d, d2, M.Send(cfg, d2, ByeMsg(cfg, i), i));
    }
  }

  lemma FinishWinding(cfg: Config, d: State, i: int, o: Outcome)
    requires o != CleanupTimeout
    ensures Winding(cfg, d, M.Finish(cfg, d, i, o))
  {}

  lemma RefusalWinding(cfg: Config, d: State, i: int, r: Response)
    requires i in d.table.dialogs
    ensures Winding(cfg, d, M.TakeRefusal(cfg, d, i, r))
  {
    var d1 := d.(stats := CountFinal(d.stats, d.table.dialogs[i].counted, r.code));
    var d2 := M.Transmit(cfg, d1, FailureAckFor(cfg.seed, cfg.runId, i, r.toTag));
    var o := if r.code == 503 then AdmissionRefused else Rejected;
    FinishWinding(cfg, d2, i, o);
    WindingTrans(cfg, d, d2, M.Finish(cfg, d2, i, o));
  }

  lemma CallingWinding(cfg: Config, d: State, i: int, r: Response, at: Readings)
    requires i in d.table.dialogs
    ensures Winding(cfg, d, M.HandleCalling(cfg, d, i, r, at))
  {
    if !MatchesInvite(cfg, i, r) {
      FinishWinding(cfg, d, i, InvalidMessage);
    } else if r.code < 200 {
      FinishWinding(cfg, d, i, InvalidMessage);
    } else if r.code == 200 {
      FinishWinding(cfg, d, i, InvalidMessage);
      EstablishWinding(cfg, d, i, at);
    } else {
      RefusalWinding(cfg, d, i, r);
    }
  }

  lemma ByeWinding(cfg: Config, d: State, i: int, r: Response, at: Readings)
    requires i in d.table.dialogs
    ensures Winding(cfg, d, M.HandleBye(cfg, d, i, r, at))
  {
    if r.cseq == INVITE_CSEQ {
      SendWinding(cfg, d.(stats := CountRetransmittedResponse(d.stats, d.table.dialogs[i].counted)),
                  AckMsg(cfg, i), i);
    } else if !MatchesBye(cfg, i, r) || r.code < 200 {
      FinishWinding(cfg, d, i, InvalidMessage);
    } else {
      ByeFinalWinding(cfg, d, i, r.code, at.first);
    }
  }

  lemma ByeFinalWinding(cfg: Config, d: State, i: int, code: int, now: int)
    requires i in d.table.dialogs
    ensures Winding(cfg, d, M.TakeByeFinal(cfg, d, i, code, now))
  {}

  lemma HandleWinding(cfg: Config, d: State, r: Response, at: Readings)
    requires Linked(d)
    ensures Winding(cfg, d, Handle(cfg, d, r, at))
  {
    if r.callId in d.table.byCallId {
      CallingWinding(cfg, d, d.table.byCallId[r.callId], r, at);
      ByeWinding(cfg, d, d.table.byCallId[r.callId], r, at);
    }
  }

  lemma ResendWinding(cfg: Config, d: State, t: Timer, r: Request, interval: int, now: int)
    requires t.index in d.table.dialogs
    ensures Winding(cfg, d, M.Resend(cfg, d, t, r, interval, now))
  {
    SendWinding(cfg, d, r, t.index);
  }

  lemma FireWinding(cfg: Config, d: State, now: int)
    requires d.timers != []
    ensures Winding(cfg, d, Fire(cfg, d, now))
  {
    var t, d1 := d.timers[0], d.(timers := d.timers[1..]);
    if t.index in d.table.dialogs {
      var g := d.table.dialogs[t.index];
      if t.kind == Timeout { FinishWinding(cfg, d1, t.index, TransactionTimeout); }
      else if t.kind == RetransmitInvite { ResendWinding(cfg, d1, t, InviteMsg(cfg, t.index), g.retransmitMs * 2, now); }
      else { ResendWinding(cfg, d1, t, ByeMsg(cfg, t.index), Min(g.retransmitMs * 2, T2_MS), now); }
    }
  }

  lemma RunLinked(cfg: Config, start: State, es: seq<Event>, d: State)
    requires IsInitial(start) && Leads(cfg, false, start, es, d)
    ensures Linked(d)
  {
    RunAccounted(cfg, false, start, es, d);
  }

  /** Neither an offer nor an expiry from position `from` on. */
  predicate Quiet(es: seq<Event>, from: nat) {
    forall k :: from <= k < |es| ==> es[k].Arrival? || es[k].FireAt? || es[k].ReadClock?
  }

  lemma NextWinding(cfg: Config, d: State, e: Event)
    requires Linked(d) && Enabled(d, e) && (e.Arrival? || e.FireAt? || e.ReadClock?)
    ensures Winding(cfg, d, Next(cfg, d, e))
  {
    match e
    case Arrival(r, at) => HandleWinding(cfg, d, r, at);
    case FireAt(now) => FireWinding(cfg, d, now);
    case ReadClock(_) =>
  }

  lemma SameEndWinds(cfg: Config, start: State, es: seq<Event>, a: State, b: State)
    requires Leads(cfg, false, start, es, a) && Leads(cfg, false, start, es, b)
    ensures Winding(cfg, a, b)
  {
    LeadsUnique(cfg, start, es, a, b);
  }

  lemma LastWinds(cfg: Config, start: State, from: nat, fs: seq<Event>, b: State) returns (m: State)
    requires Leads(cfg, false, start, fs, b) && from < |fs| && Quiet(fs, from)
    ensures Leads(cfg, false, start, fs[..|fs| - 1], m) && Winding(cfg, m, b)
    ensures Quiet(fs[..|fs| - 1], from)
  {
    var last := |fs| - 1;
    m := LeadsLast(cfg, false, start, fs, b);
    NextWinding(cfg, m, fs[last]);
  }

  /** One due timer: the run goes on, and one timer less is due. */
  lemma FireLeads(cfg: Config, start: State, es: seq<Event>, d: State, now: int)
    requires IsInitial(start) && Leads(cfg, false, start, es, d)
    requires d.clock == now && d.timers != [] && d.timers[0].deadline <= now
    ensures Leads(cfg, false, start, es + [FireAt(now)], Fire(cfg, d, now))
    ensures Fire(cfg, d, now).clock == now && Due(Fire(cfg, d, now).timers, now) < Due(d.timers, now)
  {
    RunLinked(cfg, start, es, d);
    RunWatched(cfg, false, start, es, d);
    FireCountsDown(cfg, d, now);
    FireKeepsClock(cfg, d, now);
    LeadsMore(cfg, false, start, es, d, FireAt(now));
  }

  /** A stretch of a run without offers only winds down what it found. */
  lemma {:induction false} QuietWinds(
    cfg: Config, start: State, es: seq<Event>, a: State, fs: seq<Event>, b: State)
    requires Leads(cfg, false, start, es, a) && Leads(cfg, false, start, fs, b)
    requires es <= fs && Quiet(fs, |es|)
    ensures Winding(cfg, a, b)
    decreases |fs|
  {
    if |es| == |fs| {
      assert es == fs;
      SameEndWinds(cfg, start, es, a, b);
    } else {
      var m := LastWinds(cfg, start, |es|, fs, b);
      QuietWinds(cfg, start, es, a, fs[..|fs| - 1], m);
      WindingTrans(cfg, a, m, b);
    }
  }

  /** The responses a run has taken in, oldest first. */
  function Responses(es: seq<Event>): seq<Response> {
    if es == [] then []
    else Responses(es[..|es| - 1]) + (if es[|es| - 1].Arrival? then [es[|es| - 1].response] else [])
  }

  lemma ResponsesMore(es: seq<Event>, e: Event)
    ensures Responses(es + [e]) == Responses(es) + (if e.Arrival? then [e.response] else [])
  {
    assert (es + [e])[..|es|] == es;
  }

  /** With nothing due left, every live dialog is younger than Timer B. */
  ghost predicate Young(d: State, now: int) {
    forall i :: i in d.table.dialogs ==> now < d.table.dialogs[i].inviteAt + TIMER_B_MS
  }

  lemma RunActive(cfg: Config, start: State, es: seq<Event>, d: State)
    requires IsInitial(start) && Leads(cfg, false, start, es, d)
    ensures d.table.active >= 0 && (d.table.active > 0 <==> d.table.dialogs.Keys != {})
  {
    RunAccounted(cfg, false, start, es, d);
    assert |d.table.dialogs| == |d.table.dialogs.Keys|;
  }

  lemma RunOffered(cfg: Config, start: State, es: seq<Event>, d: State)
    requires IsInitial(start) && Leads(cfg, false, start, es, d)
    ensures forall i :: i in d.table.dialogs ==> d.table.dialogs[i].inviteAt <= d.clock
  {
    RunWatched(cfg, false, start, es, d);
    assert forall i :: i in d.table.dialogs ==> Guarded(d.table.dialogs[i], d.timers, d.clock, i);
  }

  /** An offer uses up its own index only. */
  lemma OfferKeepsFresh(cfg: Config, d: State, i: int, now: int)
    ensures forall k :: k != i && Fresh(cfg, d, k) ==> Fresh(cfg, M.Offer(cfg, d, i, now), k)
    ensures M.Offer(cfg, d, i, now).table.dialogs.Keys <= d.table.dialogs.Keys + {i}
  {}

  /** The indices a run offered, and those it offered once counting had started. */
  function Offers(es: seq<Event>): seq<int> {
    if es == [] then []
    else Offers(es[..|es| - 1]) + (if es[|es| - 1].OfferAt? then [es[|es| - 1].index] else [])
  }

  function Measured(es: seq<Event>): seq<int> {
    if es == [] then []
    else
      var front, last := es[..|es| - 1], es[|es| - 1];
      Measured(front) + (if last.OfferAt? && StartCounting in front then [last.index] else [])
  }

  /** `[first, first + 1, ...]`, `n` long. */
  function Range(first: int, n: nat): (r: seq<int>)
    ensures |r| == n
  {
    if n == 0 then [] else Range(first, n - 1) + [first + n - 1]
  }

  lemma OffersMore(es: seq<Event>, e: Event)
    ensures Offers(es + [e]) == Offers(es) + (if e.OfferAt? then [e.index] else [])
    ensures Measured(es + [e])
         == Measured(es) + (if e.OfferAt? && StartCounting in es then [e.index] else [])
  {
    assert (es + [e])[..|es|] == es;
  }

  lemma MeasuredLast(es: seq<Event>)
    requires es != []
    ensures var front, last := es[..|es| - 1], es[|es| - 1];
            && (StartCounting in es <==> StartCounting in front || last.StartCounting?)
            && |Measured(es)| == |Measured(front)| + (if last.OfferAt? && StartCounting in front then 1 else 0)
  {
    assert es == es[..|es| - 1] + [es[|es| - 1]];
  }

  /** A quiet stretch offers nothing. */
  lemma {:induction false} QuietOffers(es: seq<Event>, fs: seq<Event>)
    requires es <= fs && Quiet(fs, |es|)
    ensures Offers(fs) == Offers(es) && Measured(fs) == Measured(es)
    ensures StartCounting in fs <==> StartCounting in es
    decreases |fs|
  {
    if |es| < |fs| {
      var front, last := fs[..|fs| - 1], fs[|fs| - 1];
      QuietOffers(es, front);
      OffersMore(front, last);
      assert fs == front + [last];
    } else {
      assert es == fs;
    }
  }

  /** `offered` counts exactly the offers made while counting. */
  lemma {:induction false} RunOfferCount(cfg: Config, start: State, es: seq<Event>, d: State)
    requires IsInitial(start) && Leads(cfg, false, start, es, d)
    ensures d.counting <==> StartCounting in es
    ensures d.stats.counts.offered == |Measured(es)|
    decreases |es|
  {
    if es != [] {
      var m := LastOfferCount(cfg, start, es, d);
      RunOfferCount(cfg, start, es[..|es| - 1], m);
      MeasuredLast(es);
    }
  }

  lemma LastOfferCount(cfg: Config, start: State, es: seq<Event>, d: State) returns (m: State)
    requires Leads(cfg, false, start, es, d) && es != []
    ensures Leads(cfg, false, start, es[..|es| - 1], m)
    ensures d.counting == (m.counting || es[|es| - 1].StartCounting?)
    ensures d.stats.counts.offered
         == m.stats.counts.offered + (if es[|es| - 1].OfferAt? && m.counting then 1 else 0)
  {
    var last := |es| - 1;
    m := LeadsLast(cfg, false, start, es, d);
    NextOfferCount(cfg, m, es[last]);
  }

  lemma NextOfferCount(cfg: Config, d: State, e: Event)
    requires Linked(d) && Enabled(d, e)
    ensures Next(cfg, d, e).counting == (d.counting || e.StartCounting?)
    ensures Next(cfg, d, e).stats.counts.offered
         == d.stats.counts.offered + (if e.OfferAt? && d.counting then 1 else 0)
  {
    match e
    case OfferAt(i, now) => SendKeepsOffered(cfg, Admit(cfg, d, i, now), InviteMsg(cfg, i), i);
    case Arrival(r, at) => HandleKeepsOffered(cfg, d, r, at);
    case FireAt(now) =>
      var d1 := d.(timers := d.timers[1..]);
      SendKeepsOffered(cfg, d1, InviteMsg(cfg, d.timers[0].index), d.timers[0].index);
      SendKeepsOffered(cfg, d1, ByeMsg(cfg, d.timers[0].index), d.timers[0].index);
    case ExpireOne(_) =>
    case StartCounting =>
    case ReadClock(_) =>
  }

  lemma SendKeepsOffered(cfg: Config, d: State, r: Request, i: int)
    ensures var d' := M.Send(cfg, d, r, i);
            d'.stats.counts.offered == d.stats.counts.offered && d'.counting == d.counting
  {}

  lemma HandleKeepsOffered(cfg: Config, d: State, r: Response, at: Readings)
    requires Linked(d)
    ensures var d' := Handle(cfg, d, r, at);
            d'.stats.counts.offered == d.stats.counts.offered && d'.counting == d.counting
  {
    if r.callId in d.table.byCallId {
      var i := d.table.byCallId[r.callId];
      var g := d.table.dialogs[i];
      if g.phase == Calling {
        if r.code == 200 {
          var d1 := MarkEstablished(d, i, at);
          SendKeepsOffered(cfg, d1, AckMsg(cfg, i), i);
          SendKeepsOffered(cfg, M.Send(cfg, d1, AckMsg(cfg, i), i), ByeMsg(cfg, i), i);
        }
      } else {
        SendKeepsOffered(cfg, d.(stats := CountRetransmittedResponse(d.stats, g.counted)), AckMsg(cfg, i), i);
      }
    }
  }

  /** Between two points of a run exactly the indices `first .. first + n - 1` were offered, in that
      order; nothing was expired, counting did not start, and no other dialog became live. */
  ghost predicate Admitted(
    l0: seq<Event>, v0: State, l: seq<Event>, v: State, first: int, n: nat)
  {
    && l0 <= l && (forall k :: |l0| <= k < |l| ==> !l[k].ExpireOne?)
    && Offers(l) == Offers(l0) + Range(first, n)
    && Measured(l) == Measured(l0) + (if StartCounting in l0 then Range(first, n) else [])
    && (StartCounting in l <==> StartCounting in l0)
    && (forall k :: !(first <= k < first + n) && k !in v0.table.dialogs ==> k !in v.table.dialogs)
  }

  lemma AdmittedMore(
    l0: seq<Event>, v0: State, l1: seq<Event>, v1: State, l2: seq<Event>, v2: State,
    first: int, n: nat, more: nat)
    requires Admitted(l0, v0, l1, v1, first, n) && Admitted(l1, v1, l2, v2, first + n, more)
    ensures Admitted(l0, v0, l2, v2, first, n + more)
  {
    RangeJoin(first, n, more);
    assert forall k :: |l0| <= k < |l1| ==> l1[k] == l2[k];
  }

  lemma NextUnused(l0: seq<Event>, v0: State, l: seq<Event>, v: State, first: int, n: nat)
    requires Admitted(l0, v0, l, v, first, n) && first + n !in v0.table.dialogs
    ensures first + n !in v.table.dialogs
  {}

  lemma QuietAdmits(cfg: Config, l0: seq<Event>, v0: State, l: seq<Event>, v: State, first: int)
    requires l0 <= l && Quiet(l, |l0|) && Winding(cfg, v0, v)
    ensures Admitted(l0, v0, l, v, first, 0)
  {
    QuietOffers(l0, l);
  }

  predicate Unexpired(es: seq<Event>) {
    forall k :: 0 <= k < |es| ==> !es[k].ExpireOne?
  }

  predicate OnlyExpiries(es: seq<Event>, from: nat) {
    forall k :: from <= k < |es| ==> es[k].ExpireOne?
  }

  lemma UnexpiredMore(es: seq<Event>, fs: seq<Event>)
    requires Unexpired(es) && es <= fs && forall k :: |es| <= k < |fs| ==> !fs[k].ExpireOne?
    ensures Unexpired(fs)
  {
    assert forall k :: 0 <= k < |es| ==> es[k] == fs[k];
  }

  // ---- runs that offer each index once ---------------------------------------------------------

  predicate NoRepeats(s: seq<int>) { forall j, k :: 0 <= j < k < |s| ==> s[j] != s[k] }

  /** Every index used so far was offered. */
  ghost predicate Offered(cfg: Config, d: State, offers: seq<int>) {
    forall k :: !Fresh(cfg, d, k) ==> k in offers
  }

  lemma NextFresh(cfg: Config, d: State, e: Event, k: int)
    requires Linked(d) && Enabled(d, e) && Fresh(cfg, d, k) && !(e.OfferAt? && e.index == k)
    ensures Fresh(cfg, Next(cfg, d, e), k)
  {
    if e.OfferAt? { OfferKeepsFresh(cfg, d, e.index, e.now); }
    if e.Arrival? || e.FireAt? || e.ReadClock? { NextWinding(cfg, d, e); }
  }

  lemma {:induction false} RunOfferedOnly(cfg: Config, start: State, es: seq<Event>, d: State)
    requires IsInitial(start) && Leads(cfg, false, start, es, d)
    ensures Offered(cfg, d, Offers(es))
    decreases |es|
  {
    if es != [] {
      var last := |es| - 1;
      var m := LeadsLast(cfg, false, start, es, d);
      RunOfferedOnly(cfg, start, es[..last], m);
      forall k | !Fresh(cfg, d, k) ensures k in Offers(es) {
        if Fresh(cfg, m, k) && !(es[last].OfferAt? && es[last].index == k) { NextFresh(cfg, m, es[last], k); }
      }
    }
  }

  /** A run that offers no index twice is one to which the results on distinct indices apply. */
  lemma {:induction false} RunDistinct(cfg: Config, start: State, es: seq<Event>, d: State)
    requires IsInitial(start) && Leads(cfg, false, start, es, d) && NoRepeats(Offers(es))
    ensures Leads(cfg, true, start, es, d)
    decreases |es|
  {
    if es == [] {
      LeadsNowhere(cfg, true, start);
    } else {
      var last := |es| - 1;
      var m := LeadsLast(cfg, false, start, es, d);
      OffersFront(es);
      RunDistinct(cfg, start, es[..last], m);
      RunOfferedOnly(cfg, start, es[..last], m);
      LeadsMore(cfg, true, start, es[..last], m, es[last]);
      assert es == es[..last] + [es[last]];
    }
  }

  lemma OffersFront(es: seq<Event>)
    requires es != [] && NoRepeats(Offers(es))
    ensures NoRepeats(Offers(es[..|es| - 1]))
    ensures es[|es| - 1].OfferAt? ==> es[|es| - 1].index !in Offers(es[..|es| - 1])
  {
    var front := Offers(es[..|es| - 1]);
    assert forall k :: 0 <= k < |front| ==> front[k] == Offers(es)[k];
  }

  lemma {:induction false} RangeAt(first: int, n: nat)
    ensures forall k :: 0 <= k < n ==> Range(first, n)[k] == first + k
  {
    if n > 0 { RangeAt(first, n - 1); }
  }

  const MEASURED_BASE := 1_000_000

  /** The warm-up and the measured phase together repeat an index exactly when the warm-up ran past
      the offset between their ranges and something was measured. */
  lemma RangesRepeat(base: int, warmed: nat, counted: nat)
    ensures NoRepeats(Range(base, warmed) + Range(base + MEASURED_BASE, counted))
       <==> warmed <= MEASURED_BASE || counted == 0
  {
    var all := Range(base, warmed) + Range(base + MEASURED_BASE, counted);
    RangeAt(base, warmed);
    RangeAt(base + MEASURED_BASE, counted);
    if warmed > MEASURED_BASE && counted > 0 { assert all[MEASURED_BASE] == all[warmed]; }
  }

  /** `cleanup_timeout` is only ever counted by an expiry. */
  lemma {:induction false} RunNoCleanup(cfg: Config, start: State, es: seq<Event>, d: State)
    requires IsInitial(start) && Leads(cfg, false, start, es, d)
    requires Unexpired(es)
    ensures d.stats.errors.cleanupTimeout == 0
    decreases |es|
  {
    if es != [] {
      var m := LastNoCleanup(cfg, start, es, d);
      RunNoCleanup(cfg, start, es[..|es| - 1], m);
    }
  }

  lemma OfferNoCleanup(cfg: Config, d: State, i: int, now: int)
    ensures M.Offer(cfg, d, i, now).stats.errors.cleanupTimeout == d.stats.errors.cleanupTimeout
  {
    var d1 := M.Admit(cfg, d, i, now);
    assert d1.stats.errors == d.stats.errors;
    SendWinding(cfg, d1, InviteMsg(cfg, i), i);
  }

  lemma LastNoCleanup(cfg: Config, start: State, es: seq<Event>, d: State) returns (m: State)
    requires Leads(cfg, false, start, es, d) && es != [] && !es[|es| - 1].ExpireOne?
    ensures Leads(cfg, false, start, es[..|es| - 1], m)
    ensures d.stats.errors.cleanupTimeout == m.stats.errors.cleanupTimeout
  {
    var last := |es| - 1;
    m := LeadsLast(cfg, false, start, es, d);
    NextNoCleanup(cfg, m, es[last]);
  }

  lemma NextNoCleanup(cfg: Config, d: State, e: Event)
    requires Linked(d) && Enabled(d, e) && !e.ExpireOne?
    ensures Next(cfg, d, e).stats.errors.cleanupTimeout == d.stats.errors.cleanupTimeout
  {
    if e.OfferAt? { OfferNoCleanup(cfg, d, e.index, e.now); }
    if e.Arrival? || e.FireAt? || e.ReadClock? { NextWinding(cfg, d, e); }
  }

  /** The counters of a whole run. */
  lemma RunTotals(cfg: Config, start: State, es: seq<Event>, d: State)
    requires IsInitial(start) && Leads(cfg, false, start, es, d)
    ensures d.stats.counts.offered == |Measured(es)|
    ensures Unexpired(es) ==> d.stats.errors.cleanupTimeout == 0
  {
    RunOfferCount(cfg, start, es, d);
    if Unexpired(es) { RunNoCleanup(cfg, start, es, d); }
  }

  lemma {:induction false} RangeJoin(first: int, n: nat, more: nat)
    ensures Range(first, n) + Range(first + n, more) == Range(first, n + more)
  {
    if more > 0 { RangeJoin(first, n, more - 1); }
  }

  lemma SendIgnoresClock(cfg: Config, d: State, r: Request, i: int, clock: int)
    ensures M.Send(cfg, d.(clock := clock), r, i) == M.Send(cfg, d, r, i).(clock := clock)
  {}

  lemma LaunchByeIgnoresClock(cfg: Config, d: State, i: int, now: int, clock: int)
    ensures LaunchBye(cfg, d.(clock := clock), i, now) == LaunchBye(cfg, d, i, now).(clock := clock)
  {
    SendIgnoresClock(cfg, d, ByeMsg(cfg, i), i, clock);
  }

  /** An admission, step by step, with the clock read first. */
  lemma OfferSteps(cfg: Config, d: State, i: int, now: int)
    requires d.table.active < cfg.maxActive
    ensures var entered := Admit(cfg, d.(clock := now), i, now);
            var sent := M.Send(cfg, entered, InviteMsg(cfg, i), i);
            M.Offer(cfg, d, i, now).(clock := now)
            == if SendSucceeds(cfg, entered) then
                 M.Arm(M.Arm(sent, now + T1_MS, RetransmitInvite, i), now + TIMER_B_MS, Timeout, i)
               else sent
  {
    SendIgnoresClock(cfg, Admit(cfg, d, i, now), InviteMsg(cfg, i), i, now);
  }

  /** An establishment, step by step, with the clock read on the way. */
  lemma EstablishSteps(cfg: Config, d: State, i: int, at0: Readings, at: Readings)
    requires i in d.table.dialogs && at.first == at0.first && at.second == at0.second
    ensures var marked := MarkEstablished(d, i, at0).(clock := at0.third);
            var acked := M.Send(cfg, marked, AckMsg(cfg, i), i);
            Establish(cfg, d, i, at).(clock := at.third)
            == if SendSucceeds(cfg, marked) then LaunchBye(cfg, acked, i, at.third).(clock := at.third)
               else acked.(clock := at.third)
  {
    var m := MarkEstablished(d, i, at);
    assert m == MarkEstablished(d, i, at0);
    SendIgnoresClock(cfg, m, AckMsg(cfg, i), i, at0.third);
    LaunchByeIgnoresClock(cfg, M.Send(cfg, m, AckMsg(cfg, i), i), i, at.third, at0.third);
  }

  class Driver {
    const cfg: Config
    const clockAt: nat -> int           // the k-th reading of the monotonic clock
    const inbox: nat -> seq<Response>   // the datagrams read at the k-th wake-up
    const stopAt: nat                   // admission is stopped once this many readings were taken

    var ticks: nat
    var wakes: nat
    var dialogs: map<int, Dialog>
    var byCallId: map<CallId, int>
    var done: map<CallId, int>
    var active: int
    var timers: seq<Timer>
    var counting: bool
    var stats: Stats                    // every counter the summary reports
    var attempts: nat
    ghost var wire: seq<Request>
    ghost var ended: map<int, Outcome>
    ghost var clock: int
    ghost var start: State
    ghost var log: seq<Event>

    constructor (cfg: Config, clockAt: nat -> int, inbox: nat -> seq<Response>, stopAt: nat)
      ensures this.cfg == cfg && this.clockAt == clockAt && this.inbox == inbox && this.stopAt == stopAt
      ensures ticks == 0 && wakes == 0 && clock == clockAt(0) && IsInitial(View())
      ensures start == View() && log == [] && Leads(cfg, false, start, log, View())
    {
      this.cfg, this.clockAt, this.inbox, this.stopAt := cfg, clockAt, inbox, stopAt;
      ticks, wakes := 0, 0;
      dialogs, byCallId, done, active := map[], map[], map[], 0;
      timers, counting := [], false;
      stats := Stats(Counts(0, 0, 0, 0, 0, 0), Errors(0, 0, 0, 0, 0, 0, 0), map[], map[], [], [], 0, 0);
      attempts := 0;
      wire, ended, clock := [], map[], clockAt(0);
      log := [];
      new;
      start := View();
      LeadsNowhere(cfg, false, start);
    }

    ghost function View(): State
      reads this
    {
      State(Table(dialogs, byCallId, done, active, ended), timers, counting, stats,
            Socket(attempts, wire), clock)
    }

    ghost function Planned(first: int, pace: nat -> int): Plan { Plan(first, pace, clockAt, stopAt) }

    /** The clock never runs backwards, and the last reading is behind the next. */
    ghost predicate Clocked()
      reads this
    {
      && (forall j: nat, k: nat :: j <= k ==> clockAt(j) <= clockAt(k))
      && clock <= clockAt(ticks)
    }

    /** Only the clock moved. */
    method Now() returns (t: int)
      requires Clocked()
      modifies this`ticks, this`clock
      ensures Clocked() && t == clockAt(old(ticks)) && ticks == old(ticks) + 1
      ensures old(clock) <= t && View() == old(View()).(clock := t)
    {
      t := clockAt(ticks);
      ticks := ticks + 1;
      clock := t;
    }

    method Arm(deadline: int, kind: TimerKind, index: int)
      modifies this`timers
      ensures View() == M.Arm(old(View()), deadline, kind, index)
    {
      timers := Armed(timers, Timer(deadline, kind, index));
    }

    /** Counts a finished dialog in its class. */
    method CountOutcome(counted: bool, outcome: Outcome)
      modifies this`stats
      ensures stats == Conclude(old(stats), counted, outcome)
    {
      if counted {
        if outcome == Completed {
          stats := stats.(counts := stats.counts.(completed := stats.counts.completed + 1));
        } else {
          stats := stats.(errors := WithError(stats.errors, outcome));
        }
      } else if outcome == Completed {
        stats := stats.(warmupCompleted := stats.warmupCompleted + 1);
      }
    }

    method Finish(index: int, outcome: Outcome)
      modifies this`dialogs, this`byCallId, this`done, this`active, this`stats, this`ended
      ensures View() == M.Finish(cfg, old(View()), index, outcome)
    {
      if index !in dialogs { return; }
      var g := dialogs[index];
      var call := CallOf(cfg, index);
      dialogs, byCallId, done := dialogs - {index}, byCallId - {call}, done[call := index];
      active := active - 1;
      ended := ended[index := outcome];
      CountOutcome(g.counted, outcome);
    }

    /** One `sendto` whose failure is ignored. */
    method Transmit(r: Request) returns (ok: bool)
      modifies this`attempts, this`wire
      ensures View() == M.Transmit(cfg, old(View()), r) && ok == old(SendSucceeds(cfg, View()))
    {
      ok := attempts !in cfg.sendFails;
      attempts := attempts + 1;
      if ok { wire := wire + [r]; }
    }

    method Send(r: Request, index: int) returns (ok: bool)
      modifies this`dialogs, this`byCallId, this`done, this`active, this`stats, this`ended,
               this`attempts, this`wire
      ensures View() == M.Send(cfg, old(View()), r, index) && ok == old(SendSucceeds(cfg, View()))
    {
      ok := Transmit(r);
      if !ok { Finish(index, TransportError); }
    }

    /** The offer an exhausted driver cannot create: counted, and its own failure. */
    method RefuseOffer()
      modifies this`stats
      ensures stats == (var s := CountOffer(old(stats), counting);
                        if counting then s.(errors := WithError(s.errors, InternalError)) else s)
    {
      if counting {
        stats := stats.(counts := stats.counts.(offered := stats.counts.offered + 1));
        stats := stats.(errors := WithError(stats.errors, InternalError));
      } else {
        stats := stats.(warmupOffered := stats.warmupOffered + 1);
      }
    }

    /** Enters a new dialog in the table and counts it. */
    method Enter(index: int, now: int)
      modifies this`dialogs, this`byCallId, this`active, this`stats
      ensures View() == M.Admit(cfg, old(View()), index, now)
    {
      dialogs := dialogs[index := Dialog(Calling, counting, now, T1_MS, false, now)];
      byCallId := byCallId[CallOf(cfg, index) := index];
      active := active + 1;
      if counting {
        stats := stats.(counts := stats.counts.(offered := stats.counts.offered + 1));
        stats := stats.(counts := stats.counts.(highWater := Max(stats.counts.highWater, active)));
      } else {
        stats := stats.(warmupOffered := stats.warmupOffered + 1);
      }
    }

    method Offer(index: int) returns (ghost now: int)
      requires Clocked()
      modifies this`dialogs, this`byCallId, this`done, this`active, this`stats, this`ended,
               this`attempts, this`wire, this`timers, this`ticks, this`clock
      ensures Clocked() && old(clock) <= now
      ensures View() == M.Offer(cfg, old(View()), index, now).(clock := now)
      ensures ticks >= old(ticks) && now == if old(active) < cfg.maxActive then clockAt(old(ticks)) else old(clock)
    {
      if active >= cfg.maxActive {
        RefuseOffer();
        now := clock;
      } else {
        now := OfferAdmitted(index);
      }
    }

    /** An offer that the driver has room for. */
    method OfferAdmitted(index: int) returns (ghost now: int)
      requires Clocked() && active < cfg.maxActive
      modifies this`dialogs, this`byCallId, this`done, this`active, this`stats, this`ended,
               this`attempts, this`wire, this`timers, this`ticks, this`clock
      ensures Clocked() && old(clock) <= now == clockAt(old(ticks)) && ticks >= old(ticks)
      ensures View() == M.Offer(cfg, old(View()), index, now).(clock := now)
    {
      OfferSteps(cfg, View(), index, clockAt(ticks));
      var t := Now();
      now := t;
      Enter(index, t);
      var ok := Send(InviteMsg(cfg, index), index);
      if ok {
        Arm(t + T1_MS, RetransmitInvite, index);
        Arm(t + TIMER_B_MS, Timeout, index);
      }
    }

    /** Counts the establishment and moves the dialog to its BYE phase. */
    method MarkAnswered(index: int) returns (ghost at: Readings)
      requires Clocked() && index in dialogs
      modifies this`ticks, this`clock, this`stats, this`dialogs
      ensures Clocked() && old(clock) <= at.first <= at.second == at.third == clock
      ensures View() == MarkEstablished(old(View()), index, at).(clock := clock)
      ensures ticks >= old(ticks)
      ensures old(dialogs[index].counted) ==> at.first == clockAt(old(ticks))
      ensures at.second == clockAt(old(ticks) + if old(dialogs[index].counted) then 1 else 0)
    {
      var g := dialogs[index];
      ghost var t1 := clock;
      if g.counted {
        stats := stats.(final := Tick(stats.final, 200));
        var t := Now();
        t1 := t;
        stats := stats.(counts := stats.counts.(established := stats.counts.established + 1),
                        setupMs := stats.setupMs + [t - g.inviteAt]);
      }
      var t2 := Now();
      dialogs := dialogs[index := g.(phase := ByeSent, retransmitMs := T1_MS, byeAt := t2)];
      at := Readings(t1, t2, t2);
    }

    /** A validated 200 to the INVITE. */
    method Established(index: int) returns (ghost at: Readings)
      requires Clocked() && index in dialogs
      modifies this`dialogs, this`byCallId, this`done, this`active, this`stats, this`ended,
               this`attempts, this`wire, this`timers, this`ticks, this`clock
      ensures Clocked() && old(clock) <= at.first <= at.second <= at.third
      ensures View() == M.Establish(cfg, old(View()), index, at).(clock := at.third)
      ensures ticks >= old(ticks)
      ensures old(dialogs[index].counted) ==> at.first == clockAt(old(ticks))
      ensures at.second == clockAt(old(ticks) + if old(dialogs[index].counted) then 1 else 0)
    {
      ghost var before := View();
      at := MarkAnswered(index);
      ghost var at0 := at;
      var acked := Send(AckMsg(cfg, index), index);
      if acked { at := TearDown(index, at0); }
      EstablishSteps(cfg, before, index, at0, at);
    }

    method TearDown(index: int, ghost at0: Readings) returns (ghost at: Readings)
      requires Clocked() && at0.first <= at0.second == at0.third == clock
      modifies this`dialogs, this`byCallId, this`done, this`active, this`stats, this`ended,
               this`attempts, this`wire, this`timers, this`ticks, this`clock
      ensures Clocked() && at.first == at0.first && at.second == at0.second && at.second <= at.third
      ensures View() == LaunchBye(cfg, old(View()), index, at.third).(clock := at.third)
      ensures ticks >= old(ticks)
    {
      at := at0;
      var sent := Send(ByeMsg(cfg, index), index);
      if sent {
        var now := Now();
        at := at0.(third := now);
        Arm(now + T1_MS, RetransmitBye, index);
        Arm(now + TIMER_B_MS, Timeout, index);
      }
    }

    method TakeRefusal(index: int, r: Response)
      requires index in dialogs
      modifies this`dialogs, this`byCallId, this`done, this`active, this`stats, this`ended,
               this`attempts, this`wire
      ensures View() == M.TakeRefusal(cfg, old(View()), index, r)
    {
      if dialogs[index].counted { stats := stats.(final := Tick(stats.final, r.code)); }
      var _ := Transmit(FailureAckFor(cfg.seed, cfg.runId, index, r.toTag));
      Finish(index, if r.code == 503 then AdmissionRefused else Rejected);
    }

    method HandleCalling(index: int, r: Response) returns (ghost at: Readings)
      requires Clocked() && index in dialogs && dialogs[index].phase == Calling
      modifies this`dialogs, this`byCallId, this`done, this`active, this`stats, this`ended,
               this`attempts, this`wire, this`timers, this`ticks, this`clock
      ensures Clocked() && old(clock) <= at.first <= at.second <= at.third
      ensures View() == M.HandleCalling(cfg, old(View()), index, r, at).(clock := at.third)
      ensures ticks >= old(ticks)
    {
      at := Readings(clock, clock, clock);
      var g := dialogs[index];
      if !MatchesInvite(cfg, index, r) {
        Finish(index, InvalidMessage);
        return;
      }
      if r.code < 200 {
        if r.code != 100 || cfg.provisional == NoProvisional {
          Finish(index, InvalidMessage);
        } else if g.provisionalSeen {
          stats := CountRetransmittedResponse(stats, g.counted);
        } else {
          dialogs := dialogs[index := g.(provisionalSeen := true)];
          if g.counted { stats := stats.(provisional := Tick(stats.provisional, 100)); }
        }
        return;
      }
      if r.code == 200 {
        if !MatchesTarget(cfg, index, r) || (cfg.provisional == Trying100 && !g.provisionalSeen) {
          Finish(index, InvalidMessage);
        } else {
          at := Established(index);
        }
        return;
      }
      TakeRefusal(index, r);
    }

    method TakeByeFinal(index: int, code: int) returns (ghost t: int)
      requires Clocked() && index in dialogs
      modifies this`dialogs, this`byCallId, this`done, this`active, this`stats, this`ended,
               this`attempts, this`wire, this`timers, this`ticks, this`clock
      ensures Clocked() && old(clock) <= t
      ensures View() == M.TakeByeFinal(cfg, old(View()), index, code, t).(clock := t)
      ensures ticks >= old(ticks) && (code == 200 && old(dialogs[index].counted) ==> t == clockAt(old(ticks)))
    {
      var g := dialogs[index];
      t := clock;
      if g.counted { stats := stats.(final := Tick(stats.final, code)); }
      if code == 200 {
        if g.counted {
          var now := Now();
          t := now;
          stats := stats.(teardownMs := stats.teardownMs + [now - g.byeAt]);
        }
        Finish(index, Completed);
      } else {
        Finish(index, Rejected);
      }
    }

    method HandleBye(index: int, r: Response) returns (ghost at: Readings)
      requires Clocked() && index in dialogs && dialogs[index].phase == ByeSent
      modifies this`dialogs, this`byCallId, this`done, this`active, this`stats, this`ended,
               this`attempts, this`wire, this`timers, this`ticks, this`clock
      ensures Clocked() && old(clock) <= at.first <= at.second <= at.third
      ensures View() == M.HandleBye(cfg, old(View()), index, r, at).(clock := at.third)
      ensures ticks >= old(ticks)
    {
      at := Readings(clock, clock, clock);
      if r.cseq == INVITE_CSEQ {
        stats := CountRetransmittedResponse(stats, dialogs[index].counted);
        if r.code == 200 { var _ := Send(AckMsg(cfg, index), index); }
      } else if !MatchesBye(cfg, index, r) || r.code < 200 {
        Finish(index, InvalidMessage);
      } else {
        ghost var t := TakeByeFinal(index, r.code);
        at := Readings(t, t, t);
      }
    }

    /** A response to a call that is not live. */
    method HandleStray(r: Response)
      modifies this`stats, this`attempts, this`wire
      ensures View() == M.HandleStray(cfg, old(View()), r)
    {
      if r.callId in done {
        stats := CountRetransmittedResponse(stats, counting);
        if r.code == 200 && EndsWithInvite(r.cseq) {
          var _ := Transmit(AckMsg(cfg, done[r.callId]));
        }
      }
    }

    /** The state is the one the logged events lead to. */
    ghost predicate Valid()
      reads this
    {
      Clocked() && IsInitial(start) && Leads(cfg, false, start, log, View())
    }

    method Dispatch(r: Response) returns (ghost at: Readings)
      requires Clocked() && Linked(View())
      modifies this`dialogs, this`byCallId, this`done, this`active, this`stats, this`ended,
               this`attempts, this`wire, this`timers, this`ticks, this`clock
      ensures Clocked() && ticks >= old(ticks)
      ensures old(Enabled(View(), Arrival(r, at))) && View() == Next(cfg, old(View()), Arrival(r, at))
    {
      at := Readings(clock, clock, clock);
      if r.callId in byCallId {
        var index := byCallId[r.callId];
        if dialogs[index].phase == Calling { at := HandleCalling(index, r); }
        else { at := HandleBye(index, r); }
      } else {
        HandleStray(r);
      }
    }

    method HandleDatagram(r: Response)
      requires Valid()
      modifies this
      ensures Valid() && start == old(start) && wakes == old(wakes) && ticks >= old(ticks)
      ensures exists at :: log == old(log) + [Arrival(r, at)]
      ensures Responses(log) == Responses(old(log)) + [r]
    {
      ghost var before := View();
      RunLinked(cfg, start, log, before);
      ghost var at := Dispatch(r);
      LeadsMore(cfg, false, start, log, before, Arrival(r, at));
      ResponsesMore(log, Arrival(r, at));
      log := log + [Arrival(r, at)];
    }

    method Resend(t: Timer, r: Request, interval: int, now: int)
      requires t.index in dialogs
      modifies this`dialogs, this`byCallId, this`done, this`active, this`stats, this`ended,
               this`attempts, this`wire, this`timers
      ensures View() == M.Resend(cfg, old(View()), t, r, interval, now)
    {
      var g := dialogs[t.index];
      var ok := Send(r, t.index);
      if ok {
        stats := CountRetransmittedRequest(stats, g.counted);
        dialogs := dialogs[t.index := g.(retransmitMs := interval)];
        Arm(now + interval, t.kind, t.index);
      }
    }

    /** Pops the heap once. */
    method FireOne(now: int)
      requires timers != []
      modifies this`dialogs, this`byCallId, this`done, this`active, this`stats, this`ended,
               this`attempts, this`wire, this`timers
      ensures View() == M.Fire(cfg, old(View()), now)
    {
      var t := timers[0];
      timers := timers[1..];
      if t.index in dialogs {
        var g := dialogs[t.index];
        if t.kind == Timeout {
          Finish(t.index, TransactionTimeout);
        } else if t.kind == RetransmitInvite && g.phase == Calling {
          Resend(t, InviteMsg(cfg, t.index), g.retransmitMs * 2, now);
        } else if t.kind == RetransmitBye && g.phase == ByeSent {
          Resend(t, ByeMsg(cfg, t.index), Min(g.retransmitMs * 2, T2_MS), now);
        }
      }
    }

    ghost method Log(e: Event)
      requires Clocked() && IsInitial(start) && Leads(cfg, false, start, log + [e], View())
      modifies this`log
      ensures Valid() && log == old(log) + [e]
      ensures Responses(log) == Responses(old(log)) + (if e.Arrival? then [e.response] else [])
    {
      ResponsesMore(log, e);
      log := log + [e];
    }

    /** Everything read in the first `n` wake-ups. */
    ghost function Received(n: nat): seq<Response> {
      if n == 0 then [] else Received(n - 1) + inbox(n - 1)
    }

    /** Every datagram read so far, and nothing else, has been handled, in order. */
    ghost predicate CaughtUp()
      reads this
    {
      Responses(log) == Received(wakes)
    }

    /** The log grew by events of which none offers or expires a dialog. */
    twostate predicate Wound()
      reads this
    {
      start == old(start) && old(log) <= log && Quiet(log, |old(log)|)
    }

    method FireDue(now: int)
      requires Valid() && clock == now && timers != [] && timers[0].deadline <= now
      modifies this
      ensures Valid() && clock == now && ticks == old(ticks) && wakes == old(wakes) && start == old(start)
      ensures log == old(log) + [FireAt(now)] && Responses(log) == Responses(old(log))
      ensures Due(timers, now) < old(Due(timers, now))
    {
      FireLeads(cfg, start, log, View(), now);
      FireOne(now);
      Log(FireAt(now));
    }

    /** The inner timer loop: it ends because every re-armed deadline lies after `now`. */
    method RunDue(now: int)
      requires Valid() && clock == now
      modifies this
      ensures Valid() && Wound() && clock == now && ticks == old(ticks) && wakes == old(wakes)
      ensures timers == [] || timers[0].deadline > now
      ensures Responses(log) == Responses(old(log)) && Unread(log, |old(log)|)
    {
      while timers != [] && timers[0].deadline <= now
        invariant Valid() && Wound() && clock == now && ticks == old(ticks) && wakes == old(wakes)
        invariant Responses(log) == Responses(old(log)) && Unread(log, |old(log)|)
        decreases Due(timers, now)
      {
        FireDue(now);
      }
    }

    /** The datagrams of one wake-up. */
    method ReadBatch(batch: seq<Response>)
      requires Valid()
      modifies this
      ensures Valid() && Wound() && ticks >= old(ticks) && wakes == old(wakes)
      ensures Responses(log) == Responses(old(log)) + batch && Unread(log, |old(log)|)
    {
      for k := 0 to |batch|
        invariant Valid() && Wound() && ticks >= old(ticks) && wakes == old(wakes)
        invariant Responses(log) == Responses(old(log)) + batch[..k] && Unread(log, |old(log)|)
      {
        HandleDatagram(batch[k]);
      }
    }

    /** The monotonic clock passes every instant. */
    ghost predicate Ticking() {
      forall t :: Passes(t)
    }

    ghost predicate Passes(t: int) {
      exists k: nat :: clockAt(k) >= t
    }

    method ReadNow() returns (now: int)
      requires Valid()
      modifies this`ticks, this`clock, this`log
      ensures Valid() && Wound() && clock == now && now == clockAt(old(ticks)) && ticks == old(ticks) + 1
      ensures Responses(log) == Responses(old(log)) && log == old(log) + [ReadClock(now)]
    {
      ghost var before := View();
      RunLinked(cfg, start, log, before);
      now := Now();
      LeadsMore(cfg, false, start, log, before, ReadClock(now));
      Log(ReadClock(now));
    }

    /** One wait on the socket and the batch it brought. */
    method Poll()
      requires Valid() && CaughtUp()
      modifies this
      ensures Valid() && CaughtUp() && Wound() && ticks >= old(ticks) && wakes == old(wakes) + 1
      ensures Unread(log, |old(log)|)
    {
      var batch := inbox(wakes);
      ReadBatch(batch);
      wakes := wakes + 1;
      assert Received(wakes) == Received(wakes - 1) + batch;
    }

    /** One turn of the event loop: the clock, the due timers and, unless time is up, the socket. */
    method Turn(until: int) returns (now: int)
      requires Valid() && CaughtUp()
      modifies this
      ensures Valid() && CaughtUp() && Wound() && now == clockAt(old(ticks)) && ticks > old(ticks)
      ensures wakes == old(wakes) + (if now < until then 1 else 0)
      ensures until <= now ==> ticks == old(ticks) + 1 && clock == now && (timers == [] || timers[0].deadline > now)
      ensures OneReading(old(log), log, now)
    {
      now := ReadNow();
      RunDue(now);
      if now < until { Poll(); }
    }

    /** The event loop proper; `horizon` is a reading that reaches `until`. */
    method Loop(until: int, ghost horizon: nat) returns (now: int)
      requires Valid() && CaughtUp() && clockAt(horizon) >= until
      modifies this
      ensures Valid() && CaughtUp() && Wound() && ticks > old(ticks)
      ensures until <= now == clockAt(ticks - 1) == clock && (timers == [] || timers[0].deadline > now)
      ensures Stopped(log, |old(log)|, until, now)
    {
      now := Turn(until);
      TurnRead(old(log), log, |old(log)|, until, now);
      while now < until
        invariant Valid() && CaughtUp() && Wound() && ticks > old(ticks)
        invariant until <= now ==> now == clockAt(ticks - 1) == clock && (timers == [] || timers[0].deadline > now)
        invariant if now < until then NoneReached(log, |old(log)|, until) else Stopped(log, |old(log)|, until, now)
        decreases now < until, if ticks <= horizon then horizon - ticks + 1 else 0
      {
        ghost var before := log;
        now := Turn(until);
        TurnRead(before, log, |old(log)|, until, now);
      }
    }

    /** Timers and socket until the clock reaches `until`: `now` is the last of the loop's readings and
        the first past `until`. On return every live dialog is younger than Timer B at it. */
    method Pump(until: int) returns (now: int)
      requires Valid() && CaughtUp() && Ticking()
      modifies this
      ensures Valid() && CaughtUp() && Wound() && ticks > old(ticks)
      ensures until <= now == clockAt(ticks - 1) == clock && Young(View(), now)
      ensures Stopped(log, |old(log)|, until, now)
    {
      assert Passes(until);
      ghost var horizon: nat :| clockAt(horizon) >= until;
      now := Loop(until, horizon);
      NoneOutlivesTimerB(cfg, false, start, log, View(), now);
    }

    /** Consecutive readings of the clock lie at most `gap` apart. */
    ghost predicate SmallGaps(gap: int) {
      forall k: nat :: clockAt(k + 1) - clockAt(k) <= gap
    }

    /** What the drain loop knows: nothing live was offered after `t0`, and what is live is younger
        than Timer B at the last reading, if the loop has turned at all. */
    ghost predicate Draining(t0: int, first: nat)
      reads this
    {
      && (forall i :: i in dialogs ==> dialogs[i].inviteAt <= t0)
      && ticks > first
      && (ticks > first + 1 ==> Young(View(), clockAt(ticks - 1)))
    }

    lemma DrainLate(t0: int, first: nat, bound: int)
      requires Clocked() && Draining(t0, first) && t0 == clockAt(first) && dialogs.Keys != {}
      requires clockAt(ticks) >= t0 + bound && TIMER_B_MS <= bound
      ensures !SmallGaps(bound - TIMER_B_MS)
    {
      var i := Pick(dialogs.Keys);
      var k: nat := ticks - 1;
      assert clockAt(k + 1) - clockAt(k) > bound - TIMER_B_MS;
    }

    /** The event loop for another 50 ms, or until the deadline if that is sooner. */
    method DrainWait(t0: int, deadline: int, ghost first: nat)
      requires Valid() && CaughtUp() && Ticking() && ticks > first
      requires forall i :: i in dialogs ==> dialogs[i].inviteAt <= t0
      modifies this
      ensures Valid() && CaughtUp() && Wound() && ticks > old(ticks) && Draining(t0, first)
      ensures Waited(old(log), log, deadline, 50)
    {
      ghost var s0, l0, v0 := start, log, View();
      var now := ReadNow();
      ghost var seen := Pump(Min(deadline, now + 50));
      QuietWinds(cfg, s0, l0, v0, log, View());
      WaitedBy(l0, log, deadline, 50, now, seen);
    }

    /** The first reading of a drain turn. */
    method DrainReading(t0: int, bound: int, ghost first: nat) returns (late: bool)
      requires Valid() && CaughtUp() && Draining(t0, first) && t0 == clockAt(first) && dialogs.Keys != {}
      modifies this`ticks, this`clock, this`log
      ensures Valid() && CaughtUp() && Wound() && ticks == old(ticks) + 1
      ensures log == old(log) + [ReadClock(clockAt(old(ticks)))]
      ensures late <==> clockAt(old(ticks)) >= t0 + bound
      ensures late && TIMER_B_MS <= bound ==> !SmallGaps(bound - TIMER_B_MS)
    {
      if TIMER_B_MS <= bound && clockAt(ticks) >= t0 + bound { DrainLate(t0, first, bound); }
      var now := ReadNow();
      late := now >= t0 + bound;
    }

    /** One turn of the drain loop: it ends the drain if its first reading is past the deadline, and
        otherwise waits from the next until the first that is 50 ms later, or past the deadline. */
    method DrainTurn(t0: int, bound: int, ghost first: nat) returns (late: bool)
      requires Valid() && CaughtUp() && Ticking() && Draining(t0, first) && t0 == clockAt(first)
      requires dialogs.Keys != {}
      modifies this
      ensures Valid() && CaughtUp() && Wound() && ticks > old(ticks)
      ensures late <==> clockAt(old(ticks)) >= t0 + bound
      ensures late ==> ticks == old(ticks) + 1
      ensures late && TIMER_B_MS <= bound ==> !SmallGaps(bound - TIMER_B_MS)
      ensures !late ==> Draining(t0, first)
      ensures !late ==> Waited(old(log) + [ReadClock(clockAt(old(ticks)))], log, t0 + bound, 50)
    {
      late := DrainReading(t0, bound, first);
      if !late { DrainWait(t0, t0 + bound, first); }
    }

    method StartDrain() returns (t0: int)
      requires Valid() && CaughtUp()
      modifies this`ticks, this`clock, this`log
      ensures Valid() && CaughtUp() && Wound() && ticks == old(ticks) + 1
      ensures t0 == clockAt(old(ticks)) && Draining(t0, old(ticks))
    {
      t0 := ReadNow();
      RunOffered(cfg, start, log, View());
    }

    /** Observe zero active dialogs, bounded: the drain gives up only at a reading past the bound. If the
        clock is read often enough that never happens: the drain always ends with nothing active. */
    method Drain(bound: int) returns (drained: bool)
      requires Valid() && CaughtUp() && Ticking()
      modifies this
      ensures Valid() && CaughtUp() && Wound() && ticks > old(ticks)
      ensures drained <==> dialogs.Keys == {}
      ensures !drained ==> clockAt(ticks - 1) >= clockAt(old(ticks)) + bound
      ensures TIMER_B_MS <= bound && SmallGaps(bound - TIMER_B_MS) ==> drained
    {
      var t0 := StartDrain();
      assert Passes(t0 + bound);
      ghost var horizon: nat :| clockAt(horizon) >= t0 + bound;
      var late := false;
      RunActive(cfg, start, log, View());
      while active > 0 && !late
        invariant Valid() && CaughtUp() && Wound() && ticks > old(ticks)
        invariant active > 0 <==> dialogs.Keys != {}
        invariant !late ==> Draining(t0, old(ticks))
        invariant late ==> clockAt(ticks - 1) >= t0 + bound
        invariant late && TIMER_B_MS <= bound ==> !SmallGaps(bound - TIMER_B_MS)
        decreases !late, if ticks <= horizon then horizon - ticks + 1 else 0
      {
        late := DrainTurn(t0, bound, old(ticks));
        RunActive(cfg, start, log, View());
      }
      drained := active == 0;
      RunActive(cfg, start, log, View());
    }

    method ExpireLeftover(index: int)
      requires Valid() && index in dialogs
      modifies this
      ensures Valid() && dialogs == old(dialogs) - {index} && log == old(log) + [ExpireOne(index)]
      ensures ticks == old(ticks) && wakes == old(wakes) && start == old(start)
      ensures Responses(log) == Responses(old(log))
      ensures Offers(log) == Offers(old(log)) && Measured(log) == Measured(old(log))
    {
      ghost var before := View();
      RunLinked(cfg, start, log, before);
      OffersMore(log, ExpireOne(index));
      Finish(index, CleanupTimeout);
      LeadsMore(cfg, false, start, log, before, ExpireOne(index));
      Log(ExpireOne(index));
    }

    /** Whatever the drain left is expired. */
    method ExpireLeftovers() returns (count: nat)
      requires Valid() && CaughtUp()
      modifies this
      ensures Valid() && CaughtUp() && dialogs.Keys == {} && count == |old(dialogs.Keys)|
      ensures ticks == old(ticks) && wakes == old(wakes) && start == old(start)
      ensures old(log) <= log && OnlyExpiries(log, |old(log)|) && |log| == |old(log)| + count
      ensures Offers(log) == Offers(old(log)) && Measured(log) == Measured(old(log))
    {
      count := 0;
      var leftovers := dialogs.Keys;
      while leftovers != {}
        invariant Valid() && CaughtUp() && leftovers == dialogs.Keys
        invariant count + |leftovers| == |old(dialogs.Keys)|
        invariant ticks == old(ticks) && wakes == old(wakes) && start == old(start)
        invariant old(log) <= log && OnlyExpiries(log, |old(log)|) && |log| == |old(log)| + count
        invariant Offers(log) == Offers(old(log)) && Measured(log) == Measured(old(log))
        decreases leftovers
      {
        ghost var some := Pick(leftovers);
        var index :| index in leftovers;
        leftovers := leftovers - {index};
        ExpireLeftover(index);
        count := count + 1;
      }
    }

    method OfferNext(index: int) returns (ghost now: int)
      requires Valid() && index !in dialogs
      modifies this
      ensures Valid() && ticks >= old(ticks) && wakes == old(wakes) && start == old(start)
      ensures log == old(log) + [OfferAt(index, now)] && now >= old(clock)
      ensures now == old(clock) || now == clockAt(old(ticks))
      ensures Responses(log) == Responses(old(log))
      ensures dialogs.Keys <= old(dialogs.Keys) + {index}
    {
      ghost var before := View();
      RunLinked(cfg, start, log, before);
      now := Offer(index);
      OfferKeepsFresh(cfg, before, index, now);
      LeadsMore(cfg, false, start, log, before, OfferAt(index, now));
      Log(OfferAt(index, now));
    }

    /** The offer at the end of a wait. */
    method OfferAfter(due: int, seen: int, index: int, ghost l0: seq<Event>, ghost v0: State)
      requires Valid() && CaughtUp() && index !in dialogs && clock == seen
      requires l0 <= log && Quiet(log, |l0|) && Winding(cfg, v0, View()) && Stopped(log, |l0|, due, seen)
      requires 0 < ticks < stopAt && seen == clockAt(ticks - 1)
      modifies this
      ensures Valid() && CaughtUp() && start == old(start) && ticks >= old(ticks)
      ensures Admitted(l0, v0, log, View(), index, 1) && OfferedOnce(l0, log, due, index)
      ensures BeforeStop(clockAt, stopAt, log[|log| - 1].now)
    {
      ghost var l1 := log;
      QuietOffers(l0, l1);
      ghost var now := OfferNext(index);
      ReadBeforeStop(clockAt, stopAt, if now == seen then old(ticks) - 1 else old(ticks), now);
      OffersMore(l1, OfferAt(index, now));
      OfferedAfterWait(l0, l1, due, seen, index, now);
      assert Range(index, 1) == [index];
    }

    /** One paced offer: the event loop until it is due, then the offer unless admission stopped. */
    method AdmitOne(due: int, index: int) returns (offered: bool)
      requires Valid() && CaughtUp() && Ticking() && index !in dialogs
      modifies this
      ensures Valid() && CaughtUp() && start == old(start) && ticks > old(ticks)
      ensures offered || ticks >= stopAt
      ensures old(log) <= log
      ensures Admitted(old(log), old(View()), log, View(), index, if offered then 1 else 0)
      ensures if offered then OfferedOnce(old(log), log, due, index) && BeforeStop(clockAt, stopAt, log[|log| - 1].now)
              else Unoffered(log, |old(log)|)
    {
      ghost var l0, v0 := log, View();
      var seen := Pump(due);
      QuietWinds(cfg, start, l0, v0, log, View());
      offered := ticks < stopAt;
      if offered { OfferAfter(due, seen, index, l0, v0); }
      else { QuietAdmits(cfg, l0, v0, log, View(), index); }
    }

    /** The next offer of an admission that began with the reading at `lo`. */
    method AdmitAnother(begin: int, pace: nat -> int, first: int, admitted: nat, ghost lo: nat)
      returns (offered: bool)
      requires Valid() && CaughtUp() && Ticking() && first + admitted !in dialogs
      requires AtWait(log, lo) && log[lo] == ReadClock(begin) && Paced(log, lo, |log|, Planned(first, pace))
      modifies this
      ensures Valid() && CaughtUp() && start == old(start) && ticks > old(ticks)
      ensures offered || ticks >= stopAt
      ensures Admitted(old(log), old(View()), log, View(), first + admitted, if offered then 1 else 0)
      ensures lo < |log| && log[lo] == ReadClock(begin) && Paced(log, lo, |log|, Planned(first, pace))
      ensures offered ==> AtWait(log, lo)
    {
      ghost var l1 := log;
      var due := begin + pace(admitted);
      offered := AdmitOne(due, first + admitted);
      PacedWait(l1, log, lo, admitted, due, Planned(first, pace), offered);
      assert l1[lo] == log[lo];
    }

    method AdmitNext(
      begin: int, pace: nat -> int, first: int, admitted: nat, ghost l0: seq<Event>, ghost v0: State)
      returns (offered: bool)
      requires Valid() && CaughtUp() && Ticking() && first + admitted !in v0.table.dialogs
      requires Admitted(l0, v0, log, View(), first, admitted)
      requires AtWait(log, |l0|) && log[|l0|] == ReadClock(begin) && Paced(log, |l0|, |log|, Planned(first, pace))
      modifies this
      ensures Valid() && CaughtUp() && start == old(start) && ticks > old(ticks)
      ensures offered || ticks >= stopAt
      ensures Admitted(l0, v0, log, View(), first, admitted + if offered then 1 else 0)
      ensures |l0| < |log| && log[|l0|] == ReadClock(begin)
      ensures Paced(log, |l0|, |log|, Planned(first, pace)) && (offered ==> AtWait(log, |l0|))
    {
      ghost var l1, v1 := log, View();
      NextUnused(l0, v0, l1, v1, first, admitted);
      offered := AdmitAnother(begin, pace, first, admitted, |l0|);
      AdmittedMore(l0, v0, l1, v1, log, View(), first, admitted, if offered then 1 else 0);
    }

    method BeginAdmission(ghost first: int) returns (begin: int)
      requires Valid() && CaughtUp()
      modifies this`ticks, this`clock, this`log
      ensures Valid() && CaughtUp() && start == old(start) && log == old(log) + [ReadClock(begin)]
      ensures begin == clockAt(old(ticks))
      ensures Admitted(old(log), old(View()), log, View(), first, 0)
    {
      ghost var l0, v0 := log, View();
      begin := ReadNow();
      QuietWinds(cfg, start, l0, v0, log, View());
      QuietAdmits(cfg, l0, v0, log, View(), first);
    }

    /** Open-loop admission: up to `count` consecutive indices, the k-th offered as soon as the event
        loop sees that `pace(k)` has passed since the reading on entry, and not before, whatever the
        target does. */
    method Admit(count: nat, first: int, pace: nat -> int) returns (admitted: nat)
      requires Valid() && CaughtUp() && Ticking()
      requires forall k :: first <= k < first + count ==> k !in dialogs
      modifies this
      ensures Valid() && CaughtUp() && start == old(start)
      ensures admitted <= count && (admitted == count || ticks >= stopAt)
      ensures Admitted(old(log), old(View()), log, View(), first, admitted)
      ensures |old(log)| < |log| && log[|old(log)|] == ReadClock(clockAt(old(ticks)))
      ensures Paced(log, |old(log)|, |log|, Planned(first, pace))
    {
      ghost var l0, v0 := log, View();
      var begin := BeginAdmission(first);
      admitted := 0;
      var stopped := ticks >= stopAt;
      while admitted < count && !stopped
        invariant Valid() && CaughtUp() && start == old(start)
        invariant admitted <= count && (stopped ==> ticks >= stopAt)
        invariant Admitted(l0, v0, log, View(), first, admitted)
        invariant |l0| < |log| && log[|l0|] == ReadClock(begin) && Paced(log, |l0|, |log|, Planned(first, pace))
        invariant stopped || AtWait(log, |l0|)
        decreases count - admitted, !stopped
      {
        var offered := AdmitNext(begin, pace, first, admitted, l0, v0);
        if offered { admitted := admitted + 1; }
        stopped := ticks >= stopAt;
      }
    }

    /** Admission and drain of one phase. */
    method Phase(count: nat, first: int, pace: nat -> int, bound: int) returns (admitted: nat, drained: bool)
      requires Valid() && CaughtUp() && Ticking()
      requires forall k :: first <= k < first + count ==> k !in dialogs
      modifies this
      ensures Valid() && CaughtUp() && start == old(start)
      ensures admitted <= count && (admitted == count || ticks >= stopAt)
      ensures Admitted(old(log), old(View()), log, View(), first, admitted)
      ensures |old(log)| < |log| && log[|old(log)|] == ReadClock(clockAt(old(ticks)))
      ensures Paced(log, |old(log)|, |log|, Planned(first, pace))
      ensures drained <==> dialogs.Keys == {}
      ensures TIMER_B_MS <= bound && SmallGaps(bound - TIMER_B_MS) ==> drained
    {
      ghost var l0, v0 := log, View();
      admitted := Admit(count, first, pace);
      ghost var l1, v1 := log, View();
      drained := Drain(bound);
      QuietWinds(cfg, start, l1, v1, log, View());
      QuietAdmits(cfg, l1, v1, log, View(), first + admitted);
      AdmittedMore(l0, v0, l1, v1, log, View(), first, admitted, 0);
      PacedKept(l1, log, |l0|, |l1|, |log|, Planned(first, pace));
    }

    method StartMeasuring()
      requires Valid() && CaughtUp()
      modifies this`counting, this`log
      ensures Valid() && CaughtUp() && log == old(log) + [StartCounting]
      ensures View() == old(View()).(counting := true)
      ensures Offers(log) == Offers(old(log)) && Measured(log) == Measured(old(log))
      ensures old(Unexpired(log)) ==> Unexpired(log)
    {
      ghost var before := View();
      RunLinked(cfg, start, log, before);
      OffersMore(log, StartCounting);
      counting := true;
      LeadsMore(cfg, false, start, log, before, StartCounting);
      Log(StartCounting);
    }

    /** The warm-up phase and its barrier; leftovers are expired. */
    method WarmUp(count: nat, base: int, pace: nat -> int, bound: int) returns (warmed: nat, barrier: bool)
      requires Valid() && CaughtUp() && Ticking() && log == [] && dialogs.Keys == {}
      modifies this
      ensures Valid() && CaughtUp() && dialogs.Keys == {} && start == old(start)
      ensures warmed <= count && (warmed == count || ticks >= stopAt)
      ensures Offers(log) == Range(base, warmed) && Measured(log) == []
      ensures StartCounting !in log && (barrier <==> Unexpired(log)) && Paced(log, 0, |log|, Planned(base, pace))
      ensures TIMER_B_MS <= bound && SmallGaps(bound - TIMER_B_MS) ==> barrier
    {
      warmed, barrier := Phase(count, base, pace, bound);
      ghost var before := log;
      if !barrier {
        var count := ExpireLeftovers();
        assert log[|log| - 1].ExpireOne?;
      }
      PacedKept(before, log, 0, |before|, |log|, Planned(base, pace));
    }

    /** The measured phase, once counting has started; leftovers are expired. */
    method Measure(count: nat, first: int, pace: nat -> int, bound: int) returns (counted: nat)
      requires Valid() && CaughtUp() && Ticking() && Unexpired(log) && StartCounting in log
      requires forall k :: first <= k < first + count ==> k !in dialogs
      modifies this
      ensures Valid() && CaughtUp() && dialogs.Keys == {} && start == old(start)
      ensures counted <= count && (counted == count || ticks >= stopAt)
      ensures Offers(log) == Offers(old(log)) + Range(first, counted)
      ensures Measured(log) == Measured(old(log)) + Range(first, counted)
      ensures old(log) <= log && Paced(log, |old(log)|, |log|, Planned(first, pace))
      ensures |old(log)| < |log| && log[|old(log)|] == ReadClock(clockAt(old(ticks)))
      ensures TIMER_B_MS <= bound && SmallGaps(bound - TIMER_B_MS) ==> Unexpired(log)
    {
      ghost var l0 := log;
      var drained;
      counted, drained := Phase(count, first, pace, bound);
      UnexpiredMore(l0, log);
      ghost var before := log;
      if !drained { var _ := ExpireLeftovers(); }
      PacedKept(before, log, |l0|, |before|, |log|, Planned(first, pace));
    }

    /** Counting starts, and the measured phase with it. */
    method MeasureFrom(count: nat, first: int, pace: nat -> int, bound: int) returns (counted: nat)
      requires Valid() && CaughtUp() && Ticking() && Unexpired(log)
      requires forall k :: first <= k < first + count ==> k !in dialogs
      modifies this
      ensures Valid() && CaughtUp() && dialogs.Keys == {} && start == old(start)
      ensures counted <= count && (counted == count || ticks >= stopAt)
      ensures Offers(log) == Offers(old(log)) + Range(first, counted)
      ensures Measured(log) == Measured(old(log)) + Range(first, counted)
      ensures |old(log)| + 1 < |log| && old(log) <= log && log[|old(log)|].StartCounting?
      ensures log[|old(log)| + 1] == ReadClock(clockAt(old(ticks)))
      ensures Paced(log, |old(log)| + 1, |log|, Planned(first, pace))
      ensures TIMER_B_MS <= bound && SmallGaps(bound - TIMER_B_MS) ==> Unexpired(log)
    {
      StartMeasuring();
      ghost var l1 := log;
      counted := Measure(count, first, pace, bound);
      assert log[|old(log)|] == l1[|old(log)|];
    }

    /** Both phases; counting starts at position `cut` of the log. */
    method Phases(warmup: nat, measured: nat, base: int, bound: int, pace: nat -> int)
      returns (warmed: nat, counted: nat, barrier: bool, ghost cut: nat)
      requires Valid() && CaughtUp() && Ticking() && log == [] && dialogs.Keys == {}
      modifies this
      ensures Valid() && CaughtUp() && dialogs.Keys == {}
      ensures warmed <= warmup && counted <= measured
      ensures warmed == warmup || ticks >= stopAt
      ensures barrier ==> counted == measured || ticks >= stopAt
      ensures Offers(log) == Range(base, warmed) + Range(base + MEASURED_BASE, counted)
      ensures Measured(log) == Range(base + MEASURED_BASE, counted)
      ensures cut <= |log| && StartCounting !in log[..cut] && Paced(log, 0, cut, Planned(base, pace))
      ensures barrier <==> Unexpired(log[..cut])
      ensures if cut == |log| then counted == 0
              else barrier && MeasuredFrom(log, cut, Planned(base + MEASURED_BASE, pace))
      ensures TIMER_B_MS <= bound && SmallGaps(bound - TIMER_B_MS) ==> barrier && Unexpired(log)
    {
      warmed, counted, barrier := 0, 0, true;
      if warmup > 0 { warmed, barrier := WarmUp(warmup, base, pace, bound); }
      ghost var before := log;
      cut := |before|;
      if barrier && ticks < stopAt {
        ghost var first := ticks;
        counted := MeasureFrom(measured, base + MEASURED_BASE, pace, bound);
        ReadBeforeStop(clockAt, stopAt, first, log[cut + 1].now);
        PacedKept(before, log, 0, cut, cut, Planned(base, pace));
      }
      assert log[..cut] == before;
    }

    /** The whole execution: an optional warm-up drained behind a barrier, then the measured phase on
        its own index range, counting from log position `cut` on, every offer of either as soon as the
        loop saw it due. Whatever the target answers and whichever sends fail, nothing is left
        live; the offers are exactly the two index ranges, distinct exactly when the warm-up stayed
        below the second, and then no dialog was timed out before its time; `offered` is what was
        admitted while counting; the summary meets the accounting clauses exactly when the codes and
        the 100s were the profile's; and a clock read often enough never lets a drain expire anything. */
    method Run(warmup: nat, measured: nat, base: int, bound: int, pace: nat -> int)
      returns (warmed: nat, counted: nat, barrier: bool, ghost cut: nat)
      requires Valid() && CaughtUp() && Ticking() && log == []
      modifies this
      ensures Valid() && CaughtUp() && dialogs.Keys == {}
      ensures warmed <= warmup && counted <= measured
      ensures warmed == warmup || ticks >= stopAt
      ensures barrier ==> counted == measured || ticks >= stopAt
      ensures Offers(log) == Range(base, warmed) + Range(base + MEASURED_BASE, counted)
      ensures cut <= |log| && StartCounting !in log[..cut] && Paced(log, 0, cut, Planned(base, pace))
      ensures barrier <==> Unexpired(log[..cut])
      ensures if cut == |log| then counted == 0
              else barrier && MeasuredFrom(log, cut, Planned(base + MEASURED_BASE, pace))
      ensures NoRepeats(Offers(log)) <==> warmed <= MEASURED_BASE || counted == 0
      ensures NoRepeats(Offers(log)) ==> Leads(cfg, true, start, log, View()) && NoneEarly(cfg, start, log)
      ensures stats.counts.offered == counted
      ensures forall status :: AccountingClauses(cfg.provisional, cfg.maxActive, status, stats)
                          <==> ProfileCodes(stats) && TryingComplete(cfg.provisional, status, stats)
      ensures TIMER_B_MS <= bound && SmallGaps(bound - TIMER_B_MS) ==>
                barrier && stats.errors.cleanupTimeout == 0
    {
      StartEmpty(cfg, start, View());
      warmed, counted, barrier, cut := Phases(warmup, measured, base, bound, pace);
      RunTotals(cfg, start, log, View());
      RangesRepeat(base, warmed, counted);
      Concluded(cfg, start, log, View());
    }
  }

  lemma StartEmpty(cfg: Config, start: State, d: State)
    requires IsInitial(start) && Leads(cfg, false, start, [], d)
    ensures d.table.dialogs.Keys == {}
  {}

  /** What a run that ended with nothing live comes to. */
  lemma Concluded(cfg: Config, start: State, es: seq<Event>, d: State)
    requires IsInitial(start) && Leads(cfg, false, start, es, d) && d.table.dialogs.Keys == {}
    ensures NoRepeats(Offers(es)) ==> Leads(cfg, true, start, es, d) && NoneEarly(cfg, start, es)
    ensures forall status :: AccountingClauses(cfg.provisional, cfg.maxActive, status, d.stats)
                        <==> ProfileCodes(d.stats) && TryingComplete(cfg.provisional, status, d.stats)
  {
    if NoRepeats(Offers(es)) {
      RunDistinct(cfg, start, es, d);
      TimeoutsComeDue(cfg, start, es, d);
    }
    assert |d.table.dialogs| == |d.table.dialogs.Keys| == 0;
    forall status ensures AccountingClauses(cfg.provisional, cfg.maxActive, status, d.stats)
                     <==> ProfileCodes(d.stats) && TryingComplete(cfg.provisional, status, d.stats)
    {
      SummaryMeetsContract(cfg, false, start, es, d, status);
    }
  }
}
