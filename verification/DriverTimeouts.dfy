/** When a dialog can be ended as `transaction_timeout` before its time: exactly when a timeout of an
    earlier use of its index was still pending as it was offered, so never in a run that offers each
    index once. */
module DriverTimeouts {
  import opened SipMessages
  import opened DriverModel
  import opened DriverAccounting
  import opened DriverTimers
  import opened DriverWatch

  /** A timeout of dialog `i` is pending that comes due before `due`. */
  ghost predicate Early(ts: seq<Timer>, i: int, due: int) {
    exists t :: t in ts && t.kind == Timeout && t.index == i && t.deadline < due
  }

  /** If dialog `i` is live, none of its pending timeouts comes due before its age is 64*T1. */
  ghost predicate Patient(d: State, i: int) {
    i in d.table.dialogs ==> !Early(d.timers, i, d.table.dialogs[i].inviteAt + TIMER_B_MS)
  }

  /** From `d` to `d'` nothing was offered, and the timeouts armed lie at least 64*T1 after `from`. */
  ghost predicate Steady(d: State, d': State, from: int) {
    && (forall t :: t in d'.timers && t.kind == Timeout ==> t in d.timers || t.deadline >= from + TIMER_B_MS)
    && forall i :: i in d'.table.dialogs ==>
         i in d.table.dialogs && d'.table.dialogs[i].inviteAt == d.table.dialogs[i].inviteAt
  }

  lemma SteadyTrans(a: State, b: State, c: State, from: int)
    requires Steady(a, b, from) && Steady(b, c, from)
    ensures Steady(a, c, from)
  {}

  lemma SendSteady(cfg: Config, d: State, r: Request, i: int, from: int)
    ensures Steady(d, Send(cfg, d, r, i), from)
  {}

  lemma ArmSteady(d: State, deadline: int, kind: TimerKind, i: int, from: int)
    requires kind == Timeout ==> deadline >= from + TIMER_B_MS
    ensures Steady(d, Arm(d, deadline, kind, i), from)
  {
    ArmedMembers(d.timers, Timer(deadline, kind, i));
  }

  lemma PairSteady(d: State, kind: TimerKind, now: int, i: int, from: int)
    requires kind != Timeout && from <= now
    ensures Steady(d, Arm(Arm(d, now + T1_MS, kind, i), now + TIMER_B_MS, Timeout, i), from)
  {
    var d1 := Arm(d, now + T1_MS, kind, i);
    ArmSteady(d, now + T1_MS, kind, i, from);
    ArmSteady(d1, now + TIMER_B_MS, Timeout, i, from);
    SteadyTrans(d, d1, Arm(d1, now + TIMER_B_MS, Timeout, i), from);
  }

  lemma LaunchByeSteady(cfg: Config, d: State, i: int, now: int, from: int)
    requires from <= now
    ensures Steady(d, LaunchBye(cfg, d, i, now), from)
  {
    var d1 := Send(cfg, d, ByeMsg(cfg, i), i);
    SendSteady(cfg, d, ByeMsg(cfg, i), i, from);
    PairSteady(d1, RetransmitBye, now, i, from);
    SteadyTrans(d, d1, LaunchBye(cfg, d, i, now), from);
  }

  lemma EstablishSteady(cfg: Config, d: State, i: int, at: Readings, from: int)
    requires i in d.table.dialogs && from <= at.third
    ensures Steady(d, Establish(cfg, d, i, at), from)
  {
    var d1 := MarkEstablished(d, i, at);
    var d2 := Send(cfg, d1, AckMsg(cfg, i), i);
    SendSteady(cfg, d1, AckMsg(cfg, i), i, from);
    SteadyTrans(d, d1, d2, from);
    if SendSucceeds(cfg, d1) {
      LaunchByeSteady(cfg, d2, i, at.third, from);
      SteadyTrans(d, d2, LaunchBye(cfg, d2, i, at.third), from);
    }
  }

  lemma ByeSteady(cfg: Config, d: State, i: int, r: Response, at: Readings, from: int)
    requires i in d.table.dialogs
    ensures Steady(d, HandleBye(cfg, d, i, r, at), from)
  {
    if r.cseq == INVITE_CSEQ {
      SendSteady(cfg, d.(stats := CountRetransmittedResponse(d.stats, d.table.dialogs[i].counted)), AckMsg(cfg, i), i, from);
    }
  }

  lemma HandleSteady(cfg: Config, d: State, r: Response, at: Readings, from: int)
    requires Linked(d) && from <= at.third
    ensures Steady(d, Handle(cfg, d, r, at), from)
  {
    if r.callId in d.table.byCallId {
      var i := d.table.byCallId[r.callId];
      if d.table.dialogs[i].phase == ByeSent { ByeSteady(cfg, d, i, r, at, from); }
      else if r.code == 200 { EstablishSteady(cfg, d, i, at, from); }
    }
  }

  lemma ResendSteady(cfg: Config, d: State, t: Timer, r: Request, interval: int, now: int, from: int)
    requires t.index in d.table.dialogs && t.kind != Timeout
    ensures Steady(d, Resend(cfg, d, t, r, interval, now), from)
  {
    var d1 := Send(cfg, d, r, t.index);
    SendSteady(cfg, d, r, t.index, from);
    if SendSucceeds(cfg, d) {
      var g := d.table.dialogs[t.index];
      var d2 := d1.(table := Replace(d1.table, t.index, g.(retransmitMs := interval)),
                    stats := CountRetransmittedRequest(d1.stats, g.counted));
      ArmSteady(d2, now + interval, t.kind, t.index, from);
      SteadyTrans(d, d2, Resend(cfg, d, t, r, interval, now), from);
    }
  }

  lemma FireSteady(cfg: Config, d: State, now: int, from: int)
    requires d.timers != []
    ensures Steady(d, Fire(cfg, d, now), from)
  {
    var t, d1 := d.timers[0], d.(timers := d.timers[1..]);
    assert d.timers == [t] + d1.timers;
    assert Steady(d, d1, from);
    if t.index in d.table.dialogs && t.kind != Timeout {
      var g := d.table.dialogs[t.index];
      ResendSteady(cfg, d1, t, InviteMsg(cfg, t.index), g.retransmitMs * 2, now, from);
      ResendSteady(cfg, d1, t, ByeMsg(cfg, t.index), Min(g.retransmitMs * 2, T2_MS), now, from);
      SteadyTrans(d, d1, Fire(cfg, d, now), from);
    }
  }

  lemma NextSteady(cfg: Config, d: State, e: Event)
    requires Linked(d) && Enabled(d, e) && !e.OfferAt?
    ensures Steady(d, Next(cfg, d, e), d.clock)
  {
    match e
    case Arrival(r, at) => HandleSteady(cfg, d, r, at, d.clock);
    case FireAt(now) => FireSteady(cfg, d, now, d.clock);
    case ExpireOne(_) =>
    case StartCounting =>
    case ReadClock(_) =>
  }

  lemma SteadyPatient(d: State, d': State, i: int)
    requires Watched(d) && Steady(d, d', d.clock) && Patient(d, i)
    ensures Patient(d', i)
  {
    if i in d'.table.dialogs {
      assert Guarded(d.table.dialogs[i], d.timers, d.clock, i);
    }
  }

  /** What an offer arms: nothing, or its own two timers. */
  lemma OfferArms(cfg: Config, d: State, i: int, now: int)
    ensures forall t :: t in Offer(cfg, d, i, now).timers && t.kind == Timeout ==>
              t in d.timers || t == Timer(now + TIMER_B_MS, Timeout, i)
    ensures forall t :: t in d.timers ==> t in Offer(cfg, d, i, now).timers
  {
    var t1, t2 := Timer(now + T1_MS, RetransmitInvite, i), Timer(now + TIMER_B_MS, Timeout, i);
    ArmedMembers(d.timers, t1);
    ArmedMembers(Armed(d.timers, t1), t2);
  }

  lemma OfferAdmits(cfg: Config, d: State, i: int, now: int)
    requires i !in d.table.dialogs
    ensures var m := Offer(cfg, d, i, now).table.dialogs;
            && (forall j :: j in m && j != i ==> j in d.table.dialogs && m[j] == d.table.dialogs[j])
            && (i in m ==> m[i].inviteAt == now)
  {}

  /** One event: the deadline of a live dialog never moves forward, and a dialog is offered without
      an early timeout exactly when none of its index is pending. */
  lemma NextPatient(cfg: Config, d: State, e: Event, i: int)
    requires Watched(d) && Linked(d) && Enabled(d, e)
    requires if e.OfferAt? && e.index == i then !Early(d.timers, i, e.now + TIMER_B_MS) else Patient(d, i)
    ensures Patient(Next(cfg, d, e), i)
  {
    if e.OfferAt? {
      OfferArms(cfg, d, e.index, e.now);
      OfferAdmits(cfg, d, e.index, e.now);
    } else {
      NextSteady(cfg, d, e);
      SteadyPatient(d, Next(cfg, d, e), i);
    }
  }

  /** The event is a due timer that ends live dialog `i` as `transaction_timeout`. */
  ghost predicate TimesOut(cfg: Config, d: State, e: Event, i: int) {
    && e.FireAt? && Linked(d) && Enabled(d, e) && i in d.table.dialogs
    && var t := Next(cfg, d, e).table;
       i !in t.dialogs && i in t.ended && t.ended[i] == TransactionTimeout
  }

  /** What ends a dialog so is one of its own timeouts, at the head of the heap. */
  lemma TimesOutByHead(cfg: Config, d: State, e: Event, i: int)
    requires Linked(d) && e.FireAt? && Enabled(d, e) && i in d.table.dialogs
    ensures TimesOut(cfg, d, e, i) <==> d.timers[0].kind == Timeout && d.timers[0].index == i
  {}

  lemma PatientTimesOut(cfg: Config, d: State, e: Event, i: int)
    requires TimesOut(cfg, d, e, i) && Patient(d, i)
    ensures e.now >= d.table.dialogs[i].inviteAt + 64 * T1_MS
  {
    TimesOutByHead(cfg, d, e, i);
    assert d.timers[0] in d.timers;
  }

  // ---- runs that offer each index once -----------------------------------------------------------

  /** No live dialog has an early timeout pending. */
  lemma {:induction false} RunPatient(cfg: Config, start: State, es: seq<Event>, d: State, i: int)
    requires IsInitial(start) && Leads(cfg, true, start, es, d)
    ensures Patient(d, i)
    decreases |es|
  {
    if es != [] {
      var last := |es| - 1;
      var m := LeadsLast(cfg, true, start, es, d);
      RunPatient(cfg, start, es[..last], m, i);
      RunWatched(cfg, true, start, es[..last], m);
      RunTimed(cfg, start, es[..last], m);
      assert WithinBudget(cfg, m, i);
      NextPatient(cfg, m, es[last], i);
    }
  }

  /** Whenever the run `es` ended a dialog as `transaction_timeout`, it was at least 64*T1 old. */
  ghost predicate NoneEarly(cfg: Config, start: State, es: seq<Event>) {
    forall k: nat, m, i :: k < |es| && Leads(cfg, false, start, es[..k], m) && TimesOut(cfg, m, es[k], i) ==>
      es[k].now >= m.table.dialogs[i].inviteAt + 64 * T1_MS
  }

  /** In a run that offers each index once no dialog is timed out before its time, however late the
      timers fire and whatever arrives. */
  lemma TimeoutsComeDue(cfg: Config, start: State, es: seq<Event>, d: State)
    requires IsInitial(start) && Leads(cfg, true, start, es, d)
    ensures NoneEarly(cfg, start, es)
  {
    forall k: nat, m, i | k < |es| && Leads(cfg, false, start, es[..k], m) && TimesOut(cfg, m, es[k], i)
      ensures es[k].now >= m.table.dialogs[i].inviteAt + 64 * T1_MS
    {
      var n := LeadsPrefix(cfg, true, start, es, d, k);
      LeadsAnyway(cfg, start, es[..k], n);
      LeadsUnique(cfg, start, es[..k], m, n);
      RunPatient(cfg, start, es[..k], m, i);
      PatientTimesOut(cfg, m, es[k], i);
    }
  }

  // ---- any run -----------------------------------------------------------------------------------

  /** The events offer `i`. */
  predicate Reoffers(es: seq<Event>, i: int) { exists k :: 0 <= k < |es| && es[k].OfferAt? && es[k].index == i }

  /** Some continuation of the run `es` that offers `i` at `now`, and not again, ends that dialog as
      `transaction_timeout` before its age is 64*T1. */
  ghost predicate CanEndEarly(cfg: Config, start: State, es: seq<Event>, i: int, now: int) {
    exists fs, b, e :: !Reoffers(fs, i) && Leads(cfg, false, start, es + [OfferAt(i, now)] + fs, b)
                       && TimesOut(cfg, b, e, i) && e.now < now + 64 * T1_MS
  }

  lemma {:induction false} StaysPatient(
    cfg: Config, start: State, es: seq<Event>, i: int, now: int, d: State, fs: seq<Event>, b: State)
    requires IsInitial(start) && Leads(cfg, false, start, es, d) && i !in d.table.dialogs
    requires !Early(d.timers, i, now + TIMER_B_MS) && !Reoffers(fs, i)
    requires Leads(cfg, false, start, es + [OfferAt(i, now)] + fs, b)
    ensures Patient(b, i) && (i in b.table.dialogs ==> b.table.dialogs[i].inviteAt == now)
    decreases |fs|
  {
    var gs := es + [OfferAt(i, now)] + fs;
    var last := |gs| - 1;
    var m := LeadsLast(cfg, false, start, gs, b);
    RunWatched(cfg, false, start, gs[..last], m);
    if fs == [] {
      assert gs[..last] == es;
      LeadsUnique(cfg, start, es, d, m);
      OfferAdmits(cfg, d, i, now);
    } else {
      var front := fs[..|fs| - 1];
      assert gs[..last] == es + [OfferAt(i, now)] + front && gs[last] == fs[|fs| - 1];
      assert !Reoffers(front, i);
      StaysPatient(cfg, start, es, i, now, d, front, m);
      StaysInvited(cfg, m, gs[last], i);
    }
    NextPatient(cfg, m, gs[last], i);
  }

  lemma StaysInvited(cfg: Config, d: State, e: Event, i: int)
    requires Linked(d) && Enabled(d, e) && !(e.OfferAt? && e.index == i)
    ensures var m := Next(cfg, d, e).table.dialogs;
            i in m ==> i in d.table.dialogs && m[i].inviteAt == d.table.dialogs[i].inviteAt
  {
    if e.OfferAt? { OfferAdmits(cfg, d, e.index, e.now); } else { NextSteady(cfg, d, e); }
  }

  /** Every send to come succeeds. */
  predicate SendsWork(cfg: Config, d: State) { forall k :: k in cfg.sendFails ==> k < d.sock.attempts }

  lemma ResendSpares(cfg: Config, d: State, u: Timer, r: Request, interval: int, now: int, t: Timer)
    requires SendsWork(cfg, d) && u.index in d.table.dialogs && t.index in d.table.dialogs && t in d.timers
    ensures var d' := Resend(cfg, d, u, r, interval, now);
            SendsWork(cfg, d') && t.index in d'.table.dialogs && t in d'.timers
  {
    ArmedMembers(d.timers, Timer(now + interval, u.kind, u.index));
  }

  /** A due timer other than a dialog's own timeout leaves that dialog and its timeouts there. */
  lemma FireSpares(cfg: Config, d: State, now: int, t: Timer)
    requires d.timers != [] && SendsWork(cfg, d) && t.index in d.table.dialogs
    requires t in d.timers && t.kind == Timeout && !(d.timers[0].kind == Timeout && d.timers[0].index == t.index)
    ensures var d' := Fire(cfg, d, now);
            SendsWork(cfg, d') && t.index in d'.table.dialogs && t in d'.timers
  {
    var u, d1 := d.timers[0], d.(timers := d.timers[1..]);
    assert d.timers == [u] + d1.timers;
    if u.index in d.table.dialogs {
      var g := d.table.dialogs[u.index];
      ResendSpares(cfg, d1, u, InviteMsg(cfg, u.index), g.retransmitMs * 2, now, t);
      ResendSpares(cfg, d1, u, ByeMsg(cfg, u.index), Min(g.retransmitMs * 2, T2_MS), now, t);
    }
  }

  /** Timeout `t` of a live dialog is pending and due at `now`, and sends get through. */
  ghost predicate Doomed(cfg: Config, d: State, t: Timer, now: int) {
    && SendsWork(cfg, d) && t in d.timers && t.kind == Timeout && t.index in d.table.dialogs
    && t.deadline <= now && d.clock <= now
  }

  /** Firing a due timer: it ends that dialog, or one timer less is due. */
  lemma FireOnce(cfg: Config, start: State, es: seq<Event>, d: State, t: Timer, now: int) returns (d': State)
    requires IsInitial(start) && Leads(cfg, false, start, es, d) && Doomed(cfg, d, t, now)
    ensures TimesOut(cfg, d, FireAt(now), t.index)
         || (Leads(cfg, false, start, es + [FireAt(now)], d') && Doomed(cfg, d', t, now)
             && Due(d'.timers, now) < Due(d.timers, now))
  {
    RunWatched(cfg, false, start, es, d);
    RunAccounted(cfg, false, start, es, d);
    HeadBound(d.timers, t);
    TimesOutByHead(cfg, d, FireAt(now), t.index);
    d' := Next(cfg, d, FireAt(now));
    if !TimesOut(cfg, d, FireAt(now), t.index) {
      FireSpares(cfg, d, now, t);
      FireCountsDown(cfg, d, now);
      LeadsMore(cfg, false, start, es, d, FireAt(now));
    }
  }

  /** Firing what is due at `now` until a timeout of dialog `t.index` is at the head. */
  lemma {:induction false} FireUntil(cfg: Config, start: State, es: seq<Event>, d: State, t: Timer, now: int)
    returns (fs: seq<Event>, b: State)
    requires IsInitial(start) && Leads(cfg, false, start, es, d) && Doomed(cfg, d, t, now)
    ensures !Reoffers(fs, t.index) && Leads(cfg, false, start, es + fs, b) && TimesOut(cfg, b, FireAt(now), t.index)
    decreases Due(d.timers, now)
  {
    var d' := FireOnce(cfg, start, es, d, t, now);
    if TimesOut(cfg, d, FireAt(now), t.index) {
      fs, b := [], d;
      assert es + fs == es;
    } else {
      var rest;
      rest, b := FireUntil(cfg, start, es + [FireAt(now)], d', t, now);
      fs := [FireAt(now)] + rest;
      assert es + [FireAt(now)] + rest == es + fs;
    }
  }

  /** In any run, for an offer the bound admits and whose sends get through: its dialog can be timed
      out before its time if and only if, as it is offered, a timeout of an earlier use of the index
      is pending that comes due before then. */
  lemma EndsEarlyExactlyWhenStale(cfg: Config, start: State, es: seq<Event>, d: State, i: int, now: int)
    requires IsInitial(start) && Leads(cfg, false, start, es, d) && Enabled(d, OfferAt(i, now))
    requires d.table.active < cfg.maxActive && SendsWork(cfg, d)
    ensures CanEndEarly(cfg, start, es, i, now) <==> Early(d.timers, i, now + 64 * T1_MS)
  {
    if Early(d.timers, i, now + TIMER_B_MS) {
      StaleCanEnd(cfg, start, es, d, i, now);
    } else if CanEndEarly(cfg, start, es, i, now) {
      var fs, b, e :| !Reoffers(fs, i) && Leads(cfg, false, start, es + [OfferAt(i, now)] + fs, b)
                      && TimesOut(cfg, b, e, i) && e.now < now + 64 * T1_MS;
      StaysPatient(cfg, start, es, i, now, d, fs, b);
      PatientTimesOut(cfg, b, e, i);
      assert false;
    }
  }

  lemma StaleCanEnd(cfg: Config, start: State, es: seq<Event>, d: State, i: int, now: int)
    requires IsInitial(start) && Leads(cfg, false, start, es, d) && Enabled(d, OfferAt(i, now))
    requires d.table.active < cfg.maxActive && SendsWork(cfg, d) && Early(d.timers, i, now + TIMER_B_MS)
    ensures CanEndEarly(cfg, start, es, i, now)
  {
    var t :| t in d.timers && t.kind == Timeout && t.index == i && t.deadline < now + TIMER_B_MS;
    RunAccounted(cfg, false, start, es, d);
    var m := Next(cfg, d, OfferAt(i, now));
    LeadsMore(cfg, false, start, es, d, OfferAt(i, now));
    OfferArms(cfg, d, i, now);
    var when := Max(now, t.deadline);
    var fs, b := FireUntil(cfg, start, es + [OfferAt(i, now)], m, t, when);
    assert TimesOut(cfg, b, FireAt(when), i);
  }
}
